/** What a served sample says, spelled out label by label and value by value. */
module Served {
  import opened Api
  import opened Order
  import opened Labels
  import opened Families
  import opened Status
  import opened Tally
  import opened Exposition
  import opened Metrics

  // --- the guests' samples

  /** One of the four labels of which the agent has the last word. */
  predicate IsOverruled(name: string, host: string, t: TargetVM) {
    || (name == "host" && host != "") || (name == "vm_id" && t.vmID != "")
    || (name == "vm_name" && t.vmName != "") || (name == "project_id" && t.projectID != "")
  }

  /** The labels m come of the guest's labels o: host, vm_id, vm_name and project_id as the agent knows them where it
      does, every other label as the guest has it. */
  ghost predicate Overruled(m: map<string, string>, o: map<string, string>, host: string, t: TargetVM) {
    && (host != "" ==> "host" in m && m["host"] == host)
    && (t.vmID != "" ==> "vm_id" in m && m["vm_id"] == t.vmID)
    && (t.vmName != "" ==> "vm_name" in m && m["vm_name"] == t.vmName)
    && (t.projectID != "" ==> "project_id" in m && m["project_id"] == t.projectID)
    && forall n :: !IsOverruled(n, host, t) ==> (n in m <==> n in o) && (n in m ==> m[n] == o[n])
  }

  lemma OverrideOverrules(o: map<string, string>, host: string, t: TargetVM)
    ensures Overruled(Override(o, Authority(host, t)), o, host, t)
  {
    OverrideUnrolled(o, host, t);
    assert |"host"| == 4 && |"vm_id"| == 5 && |"vm_name"| == 7 && |"project_id"| == 10;
    assert Overrules(host, t, "host") == host && Overrules(host, t, "vm_id") == t.vmID;
    assert Overrules(host, t, "vm_name") == t.vmName && Overrules(host, t, "project_id") == t.projectID;
    forall n | !IsOverruled(n, host, t)
      ensures Overrules(host, t, n) == ""
    {
    }
  }

  /** x is the guest's sample g of target t on host: the same value, the labels in strict order of name. */
  ghost predicate IsEnriched(x: Sample, g: Sample, host: string, t: TargetVM) {
    && x.value == g.value
    && (forall i, j :: 0 <= i < j < |x.labels| ==> Less(x.labels[i].name, x.labels[j].name))
    && Overruled(LabelMap(x.labels), LabelMap(g.labels), host, t)
  }

  lemma EnrichedIs(g: Sample, host: string, t: TargetVM)
    requires DistinctKeys(g.labels, NameOf)
    ensures IsEnriched(Enriched(g, host, t), g, host, t)
  {
    var x := Enriched(g, host, t);
    EnrichIsOverride(g.labels, host, t);
    OverrideOverrules(LabelMap(g.labels), host, t);
    forall i, j | 0 <= i < j < |x.labels|
      ensures Less(x.labels[i].name, x.labels[j].name)
    {
      assert Less(NameOf(x.labels[i]), NameOf(x.labels[j]));
    }
  }

  lemma EnrichAllIs(gs: seq<Sample>, host: string, t: TargetVM)
    requires DistinctLabels(gs)
    ensures forall i :: 0 <= i < |gs| ==> IsEnriched(EnrichAll(gs, host, t)[i], gs[i], host, t)
  {
    forall i | 0 <= i < |gs|
      ensures IsEnriched(EnrichAll(gs, host, t)[i], gs[i], host, t)
    {
      assert gs[i] in gs;
      EnrichedIs(gs[i], host, t);
    }
  }

  /** A scrape that came to something. */
  predicate IsGood(res: ScrapeResult, parse: Parser) {
    res.error.None? && res.payload != "" && parse(res.payload).Some?
  }

  /** What one result contributes: nothing unless it is good; else the parsed samples, under the same names, at the
      same places, each enriched. */
  lemma ContributionSpelledOut(res: ScrapeResult, host: string, parse: Parser, name: string)
    requires ParsesDistinct(parse)
    ensures var c := Under(Contribution(res, host, parse), name);
      if !IsGood(res, parse) then c == []
      else
        var g := Under(parse(res.payload).value, name);
        |c| == |g| && forall i :: 0 <= i < |g| ==> IsEnriched(c[i], g[i], host, res.target)
  {
    if IsGood(res, parse) && name in parse(res.payload).value {
      EnrichAllIs(parse(res.payload).value[name], host, res.target);
    }
  }

  /** Samples of two targets never end with the same labels. */
  lemma ContributionsStayApart(
    a: ScrapeResult, b: ScrapeResult, host: string, parse: Parser, m: string, n: string, i: nat, j: nat)
    requires ParsesDistinct(parse)
    requires a.target.vmID != "" && b.target.vmID != "" && a.target.vmID != b.target.vmID
    requires i < |Under(Contribution(a, host, parse), m)| && j < |Under(Contribution(b, host, parse), n)|
    ensures LabelMap(Under(Contribution(a, host, parse), m)[i].labels)
      != LabelMap(Under(Contribution(b, host, parse), n)[j].labels)
  {
    ContributionSpelledOut(a, host, parse, m);
    ContributionSpelledOut(b, host, parse, n);
  }

  // --- the collector's samples

  /** The labels of a target, whatever their order. */
  ghost predicate IsTargetLabels(ls: seq<Label>, host: string, t: TargetVM) {
    && DistinctKeys(ls, NameOf)
    && LabelMap(ls) == map["host" := host, "vm_id" := t.vmID, "vm_name" := t.vmName]
         + if t.projectID != "" then map["project_id" := t.projectID] else map[]
  }

  lemma TargetLabelsAre(host: string, t: TargetVM)
    ensures IsTargetLabels(TargetLabels(host, t), host, t)
  {
    var ls := TargetLabels(host, t);
    assert |"host"| == 4 && |"vm_id"| == 5 && |"vm_name"| == 7 && |"project_id"| == 10;
    var m := map["host" := host, "vm_id" := t.vmID, "vm_name" := t.vmName]
      + if t.projectID != "" then map["project_id" := t.projectID] else map[];
    assert ls[0].name == "host" && ls[1].name == "vm_id" && ls[2].name == "vm_name";
    assert t.projectID != "" ==> ls[3].name == "project_id";
    IsLabelMap(ls, m);
  }

  /** The success and the duration of one result: 1 if its scrape had no error and 0 otherwise, and its latency in
      seconds. */
  ghost predicate IsAbout(good: Sample, took: Sample, res: ScrapeResult, host: string) {
    && IsTargetLabels(good.labels, host, res.target) && IsTargetLabels(took.labels, host, res.target)
    && good.value == (if res.error.None? then 1.0 else 0.0)
    && took.value * 1000.0 == res.latencyMs as real
  }

  lemma SamplesAreAbout(res: ScrapeResult, host: string)
    ensures IsAbout(SuccessSample(res, host), DurationSample(res, host), res, host)
  {
    TargetLabelsAre(host, res.target);
  }

  /** The collector's samples for the results met in some order, one success and one duration each at its place in
      the order, and the two totals. */
  lemma CollectorSpelledOut(results: Results, order: seq<string>, host: string)
    requires Enumerates(order, results.Keys)
    ensures var c := CollectorFamilies(results, order, host);
      && c.Keys == {"dcgm_collector_scrape_success", "dcgm_collector_scrape_duration_seconds",
                    "dcgm_collector_targets_total", "dcgm_collector_targets_healthy"}
      && var good, took := c["dcgm_collector_scrape_success"], c["dcgm_collector_scrape_duration_seconds"];
         && |good| == |took| == |order| == |results|
         && (forall i :: 0 <= i < |order| ==> IsAbout(good[i], took[i], results[order[i]], host))
         && c["dcgm_collector_targets_total"] == [Sample([Label("host", host)], |results| as real)]
         && c["dcgm_collector_targets_healthy"]
            == [Sample([Label("host", host)], |set id | id in results && results[id].error.None?| as real)]
  {
    EnumerationLength(order, results.Keys);
    assert |results| == |results.Keys|;
    CollectorNamesDiffer();
    forall i | 0 <= i < |order|
      ensures IsAbout(SuccessSamples(results, order, host)[i], DurationSamples(results, order, host)[i],
        results[order[i]], host)
    {
      SamplesAreAbout(results[order[i]], host);
    }
  }

  function SumOfValues(ss: seq<Sample>): real {
    if ss == [] then 0.0 else SumOfValues(ss[..|ss| - 1]) + ss[|ss| - 1].value
  }

  lemma SumOneMore(ss: seq<Sample>, x: Sample)
    ensures SumOfValues(ss + [x]) == SumOfValues(ss) + x.value
  {
    assert (ss + [x])[..|ss|] == ss;
  }

  lemma HealthyOneMore(results: Results, seen: set<string>, id: string)
    requires id in results && id !in seen
    ensures |HealthyIDs(results) * (seen + {id})|
      == |HealthyIDs(results) * seen| + if results[id].error.None? then 1 else 0
  {
    assert HealthyIDs(results) * (seen + {id})
      == HealthyIDs(results) * seen + (if results[id].error.None? then {id} else {});
  }

  lemma SuccessesOneMore(results: Results, most: seq<string>, last: string, host: string)
    requires (forall id :: id in most ==> id in results) && last in results
    ensures SuccessSamples(results, most + [last], host)
      == SuccessSamples(results, most, host) + [SuccessSample(results[last], host)]
  {
  }

  lemma EnumeratesOneLess(order: seq<string>, keys: set<string>)
    requires Enumerates(order, keys) && order != []
    ensures var n := |order| - 1;
      Enumerates(order[..n], keys - {order[n]}) && order == order[..n] + [order[n]] && order[n] in keys
  {
    var n := |order| - 1;
    assert order == order[..n] + [order[n]];
  }

  lemma {:induction false} SuccessesSum(results: Results, order: seq<string>, seen: set<string>, host: string)
    requires Enumerates(order, seen) && seen <= results.Keys
    ensures SumOfValues(SuccessSamples(results, order, host)) == |HealthyIDs(results) * seen| as real
    decreases order
  {
    if order == [] {
      assert HealthyIDs(results) * seen == {};
    } else {
      var most, last := order[..|order| - 1], order[|order| - 1];
      EnumeratesOneLess(order, seen);
      SuccessesSum(results, most, seen - {last}, host);
      SuccessesOneMore(results, most, last, host);
      SumOneMore(SuccessSamples(results, most, host), SuccessSample(results[last], host));
      HealthyOneMore(results, seen - {last}, last);
      assert seen - {last} + {last} == seen;
    }
  }

  /** The families agree with each other: the successes add up to the healthy total, and there are as many as
      targets. */
  lemma CollectorAgrees(results: Results, order: seq<string>, host: string)
    requires Enumerates(order, results.Keys)
    ensures var c := CollectorFamilies(results, order, host);
      && SumOfValues(c[SUCCESS]) == c[HEALTHY][0].value
      && |c[SUCCESS]| as real == |c[DURATION]| as real == c[TOTAL][0].value
  {
    CollectorNamesDiffer();
    CollectorSpelledOut(results, order, host);
    SuccessesSum(results, order, results.Keys, host);
    assert HealthyIDs(results) * results.Keys == HealthyIDs(results);
  }

  // --- the body

  /** x is an enriched sample of a good scrape. */
  ghost predicate FromGuest(x: Sample, results: Results, host: string, parse: Parser, name: string) {
    exists id, i :: id in results && EnrichedFrom(x, results[id], i, host, parse, name)
  }

  ghost predicate EnrichedFrom(x: Sample, res: ScrapeResult, i: int, host: string, parse: Parser, name: string) {
    && IsGood(res, parse)
    && var g := Under(parse(res.payload).value, name); 0 <= i < |g| && IsEnriched(x, g[i], host, res.target)
  }

  lemma ShareHas(res: ScrapeResult, host: string, parse: Parser, name: string, x: Sample)
    requires ParsesDistinct(parse) && x in Share(res, host, parse, name)
    ensures exists i :: EnrichedFrom(x, res, i, host, parse, name)
  {
    var c := Under(Contribution(res, host, parse), name);
    ContributionSpelledOut(res, host, parse, name);
    var i :| 0 <= i < |c| && c[i] == x;
    assert EnrichedFrom(x, res, i, host, parse, name);
  }

  lemma BodySplits(
    results: Results, merged: seq<string>, counted: seq<string>, host: string, parse: Parser, name: string)
    requires Enumerates(merged, results.Keys) && Enumerates(counted, results.Keys)
    ensures multiset(Under(Body(results, merged, counted, host, parse), name))
      == Total(ShareOf(results, host, parse, name), merged)
         + multiset(Under(CollectorFamilies(results, counted, host), name))
  {
    UnderJoined(Merged(results, merged, host, parse), CollectorFamilies(results, counted, host), name);
    SamplesAreConserved(results, merged, host, parse, name);
  }

  /** Whatever is served under a name is one of the collector's samples or an enriched sample of a good scrape. */
  lemma ServedComesFrom(
    results: Results, merged: seq<string>, counted: seq<string>, host: string, parse: Parser, name: string, x: Sample)
    requires ParsesDistinct(parse) && Enumerates(merged, results.Keys) && Enumerates(counted, results.Keys)
    requires x in Under(Body(results, merged, counted, host, parse), name)
    ensures x in Under(CollectorFamilies(results, counted, host), name) || FromGuest(x, results, host, parse, name)
  {
    var f := ShareOf(results, host, parse, name);
    BodySplits(results, merged, counted, host, parse, name);
    assert x in multiset(Under(Body(results, merged, counted, host, parse), name));
    if x in Total(f, merged) {
      TotalHas(f, merged, x);
      var id :| id in merged && x in f(id);
      ShareHas(results[id], host, parse, name, x);
      var i :| EnrichedFrom(x, results[id], i, host, parse, name);
    }
  }

  /** Every sample of every good scrape is served, enriched. */
  lemma ServedHas(
    results: Results, merged: seq<string>, counted: seq<string>, host: string, parse: Parser, name: string,
    id: string, i: nat)
    requires ParsesDistinct(parse) && Enumerates(merged, results.Keys) && Enumerates(counted, results.Keys)
    requires id in results && IsGood(results[id], parse) && i < |Under(parse(results[id].payload).value, name)|
    ensures exists x ::
      x in Under(Body(results, merged, counted, host, parse), name)
      && EnrichedFrom(x, results[id], i, host, parse, name)
  {
    var f, c := ShareOf(results, host, parse, name), Under(Contribution(results[id], host, parse), name);
    BodySplits(results, merged, counted, host, parse, name);
    ContributionSpelledOut(results[id], host, parse, name);
    assert id in merged && c[i] in f(id);
    TotalHas(f, merged, c[i]);
    assert c[i] in multiset(Under(Body(results, merged, counted, host, parse), name));
    assert EnrichedFrom(c[i], results[id], i, host, parse, name);
  }

  /** How many samples each id's payload has under a name. */
  function SizeOf(results: Results, parse: Parser, name: string): string -> nat {
    id => if id in results && IsGood(results[id], parse) then |Under(parse(results[id].payload).value, name)| else 0
  }

  /** And as many are served as the good payloads and the collector have. */
  lemma ServedAreAsMany(
    results: Results, merged: seq<string>, counted: seq<string>, host: string, parse: Parser, name: string)
    requires ParsesDistinct(parse) && Enumerates(merged, results.Keys) && Enumerates(counted, results.Keys)
    ensures |Under(Body(results, merged, counted, host, parse), name)|
      == SumOf(SizeOf(results, parse, name), merged) + |Under(CollectorFamilies(results, counted, host), name)|
  {
    var f, sizes := ShareOf(results, host, parse, name), SizeOf(results, parse, name);
    BodySplits(results, merged, counted, host, parse, name);
    forall id | id in merged
      ensures |f(id)| == sizes(id)
    {
      ContributionSpelledOut(results[id], host, parse, name);
    }
    TotalSize(f, sizes, merged);
    SizeOfSum(Total(f, merged), multiset(Under(CollectorFamilies(results, counted, host), name)));
    assert |multiset(Under(Body(results, merged, counted, host, parse), name))|
      == |Under(Body(results, merged, counted, host, parse), name)|;
  }

  lemma SizeOfSum<T>(a: multiset<T>, b: multiset<T>)
    ensures |a + b| == |a| + |b|
  {
  }
}
