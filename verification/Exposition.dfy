/** What handleMetrics serves, as values: the enriched samples of every good scrape and the collector's own. */
module Exposition {
  import opened Api
  import opened Order
  import opened Labels
  import opened Families
  import opened Status
  import opened Tally

  datatype Sample = Sample(labels: seq<Label>, value: real)

  type FamilyValues = map<string, seq<Sample>>
  type Results = map<string, ScrapeResult>

  /** The parser: a payload gives families, or is refused. */
  type Parser = string -> Option<FamilyValues>

  function Enriched(s: Sample, host: string, t: TargetVM): Sample {
    s.(labels := Enrich(s.labels, host, t))
  }

  function EnrichAll(ss: seq<Sample>, host: string, t: TargetVM): seq<Sample> {
    seq(|ss|, i requires 0 <= i < |ss| => Enriched(ss[i], host, t))
  }

  lemma EnrichAllOneMore(ss: seq<Sample>, i: nat, host: string, t: TargetVM)
    requires i < |ss|
    ensures (EnrichAll(ss[..i], host, t) + ss[i..])[i := Enriched(ss[i], host, t)]
      == EnrichAll(ss[..i + 1], host, t) + ss[i + 1..]
    ensures (EnrichAll(ss[..i], host, t) + ss[i..])[i] == ss[i]
  {
  }

  function EnrichFamilyValues(vs: FamilyValues, host: string, t: TargetVM): FamilyValues {
    map n | n in vs :: EnrichAll(vs[n], host, t)
  }

  /** What one result adds: nothing if the scrape failed, the payload is empty or the parser refuses it. */
  function Contribution(res: ScrapeResult, host: string, parse: Parser): FamilyValues {
    if res.error.Some? || res.payload == "" then map[]
    else
      match parse(res.payload)
      case None => map[]
      case Some(fs) => EnrichFamilyValues(fs, host, res.target)
  }

  /** The merge loop, for one order in which it meets the results. */
  function Merged(results: Results, order: seq<string>, host: string, parse: Parser): FamilyValues
    requires forall id :: id in order ==> id in results
  {
    if order == [] then map[]
    else
      var n := |order| - 1;
      Joined(Merged(results, order[..n], host, parse), Contribution(results[order[n]], host, parse))
  }

  // --- the collector's own metrics

  const SUCCESS := "dcgm_collector_scrape_success"
  const DURATION := "dcgm_collector_scrape_duration_seconds"
  const TOTAL := "dcgm_collector_targets_total"
  const HEALTHY := "dcgm_collector_targets_healthy"

  function TargetLabels(host: string, t: TargetVM): seq<Label> {
    [Label("host", host), Label("vm_id", t.vmID), Label("vm_name", t.vmName)]
    + if t.projectID != "" then [Label("project_id", t.projectID)] else []
  }

  function SuccessSample(res: ScrapeResult, host: string): Sample {
    Sample(TargetLabels(host, res.target), if res.error.None? then 1.0 else 0.0)
  }

  function Seconds(ms: nat): real { ms as real / 1000.0 }

  function DurationSample(res: ScrapeResult, host: string): Sample {
    Sample(TargetLabels(host, res.target), Seconds(res.latencyMs))
  }

  function SuccessSamples(results: Results, order: seq<string>, host: string): seq<Sample>
    requires forall id :: id in order ==> id in results
  {
    seq(|order|, i requires 0 <= i < |order| => SuccessSample(results[order[i]], host))
  }

  function DurationSamples(results: Results, order: seq<string>, host: string): seq<Sample>
    requires forall id :: id in order ==> id in results
  {
    seq(|order|, i requires 0 <= i < |order| => DurationSample(results[order[i]], host))
  }

  function HealthyIDs(results: Results): set<string> {
    set id | id in results && results[id].error.None?
  }

  function CollectorFamilies(results: Results, order: seq<string>, host: string): FamilyValues
    requires forall id :: id in order ==> id in results
  {
    map[SUCCESS := SuccessSamples(results, order, host),
        DURATION := DurationSamples(results, order, host),
        TOTAL := [Sample([Label("host", host)], |results| as real)],
        HEALTHY := [Sample([Label("host", host)], |HealthyIDs(results)| as real)]]
  }

  // --- conservation

  function Share(res: ScrapeResult, host: string, parse: Parser, name: string): multiset<Sample> {
    multiset(Under(Contribution(res, host, parse), name))
  }

  /** What the result under an id adds under a name. */
  function ShareOf(results: Results, host: string, parse: Parser, name: string): string -> multiset<Sample> {
    id => if id in results then Share(results[id], host, parse, name) else multiset{}
  }

  lemma UnderJoined(d: FamilyValues, s: FamilyValues, name: string)
    ensures Under(Joined(d, s), name) == Under(d, name) + Under(s, name)
    ensures multiset(Under(Joined(d, s), name)) == multiset(Under(d, name)) + multiset(Under(s, name))
  {
    assert Under(Joined(d, s), name) == Under(d, name) + Under(s, name);
  }

  /** Nothing is lost, added or altered: under each name the merged samples are those of the contributions. */
  lemma {:induction false} SamplesAreConserved(
    results: Results, order: seq<string>, host: string, parse: Parser, name: string)
    requires forall id :: id in order ==> id in results
    ensures multiset(Under(Merged(results, order, host, parse), name))
      == Total(ShareOf(results, host, parse, name), order)
    decreases order
  {
    if order != [] {
      var n := |order| - 1;
      SamplesAreConserved(results, order[..n], host, parse, name);
      UnderJoined(Merged(results, order[..n], host, parse), Contribution(results[order[n]], host, parse), name);
    }
  }

  /** The order in which the loop meets the results does not matter. */
  lemma OrderDoesNotMatter(
    results: Results, o: seq<string>, p: seq<string>, host: string, parse: Parser, name: string)
    requires Enumerates(o, results.Keys) && Enumerates(p, results.Keys)
    ensures multiset(Under(Merged(results, o, host, parse), name))
      == multiset(Under(Merged(results, p, host, parse), name))
  {
    SamplesAreConserved(results, o, host, parse, name);
    SamplesAreConserved(results, p, host, parse, name);
    TotalInAnyOrder(ShareOf(results, host, parse, name), o, p, results.Keys);
  }

  // --- the collector's samples, and all that is served

  /** What one result adds to the collector's samples. */
  function CollectorShare(res: ScrapeResult, host: string, name: string): multiset<Sample> {
    if name == SUCCESS then multiset{SuccessSample(res, host)}
    else if name == DURATION then multiset{DurationSample(res, host)}
    else multiset{}
  }

  function CollectorShareOf(results: Results, host: string, name: string): string -> multiset<Sample> {
    id => if id in results then CollectorShare(results[id], host, name) else multiset{}
  }

  /** The two samples that count targets. */
  function TotalSamples(results: Results, host: string, name: string): multiset<Sample> {
    if name == TOTAL then multiset{Sample([Label("host", host)], |results| as real)} else multiset{}
  }

  function HealthySamples(results: Results, host: string, name: string): multiset<Sample> {
    if name == HEALTHY then multiset{Sample([Label("host", host)], |HealthyIDs(results)| as real)} else multiset{}
  }

  lemma UnderFour<T>(
    a: string, b: string, c: string, d: string, w: seq<T>, x: seq<T>, y: seq<T>, z: seq<T>, name: string)
    requires a != b && a != c && a != d && b != c && b != d && c != d
    ensures Under(map[a := w, b := x, c := y, d := z], name)
      == if name == a then w else if name == b then x else if name == c then y else if name == d then z else []
  {
  }

  /** The collector's list under a name. */
  function CollectorUnder(results: Results, order: seq<string>, host: string, name: string): seq<Sample>
    requires forall id :: id in order ==> id in results
    ensures CollectorUnder(results, order, host, name) == Under(CollectorFamilies(results, order, host), name)
  {
    CollectorNamesDiffer();
    UnderFour(SUCCESS, DURATION, TOTAL, HEALTHY,
      SuccessSamples(results, order, host), DurationSamples(results, order, host),
      [Sample([Label("host", host)], |results| as real)],
      [Sample([Label("host", host)], |HealthyIDs(results)| as real)],
      name);
    if name == SUCCESS then SuccessSamples(results, order, host)
    else if name == DURATION then DurationSamples(results, order, host)
    else if name == TOTAL then [Sample([Label("host", host)], |results| as real)]
    else if name == HEALTHY then [Sample([Label("host", host)], |HealthyIDs(results)| as real)]
    else []
  }

  lemma ScrapedAreConserved(results: Results, order: seq<string>, host: string, name: string)
    requires (forall id :: id in order ==> id in results) && (name == SUCCESS || name == DURATION)
    ensures multiset(CollectorUnder(results, order, host, name))
      == Total(CollectorShareOf(results, host, name), order)
  {
    CollectorNamesDiffer();
    TotalOfEach(CollectorShareOf(results, host, name), order, CollectorUnder(results, order, host, name));
  }

  lemma CountsAreConserved(results: Results, order: seq<string>, host: string, name: string)
    requires (forall id :: id in order ==> id in results) && name != SUCCESS && name != DURATION
    ensures Total(CollectorShareOf(results, host, name), order) == multiset{}
    ensures multiset(CollectorUnder(results, order, host, name))
      == TotalSamples(results, host, name) + HealthySamples(results, host, name)
  {
    CollectorNamesDiffer();
    TotalOfNothing(CollectorShareOf(results, host, name), order);
  }

  /** The collector's samples under a name are one per result where they are about results, and the totals. */
  lemma CollectorIsConserved(results: Results, order: seq<string>, host: string, name: string)
    requires forall id :: id in order ==> id in results
    ensures multiset(Under(CollectorFamilies(results, order, host), name))
      == Total(CollectorShareOf(results, host, name), order)
         + TotalSamples(results, host, name) + HealthySamples(results, host, name)
  {
    if name == SUCCESS || name == DURATION {
      ScrapedAreConserved(results, order, host, name);
      NoCounts(results, host, name);
    } else {
      CountsAreConserved(results, order, host, name);
    }
  }

  lemma NoCounts(results: Results, host: string, name: string)
    requires name == SUCCESS || name == DURATION
    ensures TotalSamples(results, host, name) == multiset{} == HealthySamples(results, host, name)
  {
    CollectorNamesDiffer();
  }

  /** All that a miss encodes, for the orders in which its two loops meet the results. */
  function Body(results: Results, merged: seq<string>, counted: seq<string>, host: string, parse: Parser): FamilyValues
    requires (forall id :: id in merged ==> id in results) && (forall id :: id in counted ==> id in results)
  {
    Joined(Merged(results, merged, host, parse), CollectorFamilies(results, counted, host))
  }

  /** Conservation of what is served: under each name the enriched samples of every good scrape, and the collector's
      own; nothing else, and none twice, even if a guest uses one of the collector's names. */
  lemma ServedSamplesAreConserved(
    results: Results, merged: seq<string>, counted: seq<string>, host: string, parse: Parser, name: string)
    requires (forall id :: id in merged ==> id in results) && (forall id :: id in counted ==> id in results)
    ensures multiset(Under(Body(results, merged, counted, host, parse), name))
      == Total(ShareOf(results, host, parse, name), merged)
         + (Total(CollectorShareOf(results, host, name), counted)
            + TotalSamples(results, host, name) + HealthySamples(results, host, name))
  {
    UnderJoined(Merged(results, merged, host, parse), CollectorFamilies(results, counted, host), name);
    SamplesAreConserved(results, merged, host, parse, name);
    CollectorIsConserved(results, counted, host, name);
  }

  // --- fault isolation

  /** The results less one id. */
  function Others(results: Results, id: string): Results { results - {id} }

  /** Two outcomes of a scrape of the same targets that differ in one target only. */
  ghost predicate OnlyDiffer(r: Results, s: Results, id: string) {
    id in r && r.Keys == s.Keys && Others(r, id) == Others(s, id)
  }

  /** Whatever becomes of one target, the samples merged are those of the other targets, which it cannot change,
      and its own. */
  lemma FaultsAreIsolated(
    r: Results, s: Results, id: string, o: seq<string>, p: seq<string>, host: string, parse: Parser, name: string)
    returns (rest: multiset<Sample>)
    requires OnlyDiffer(r, s, id) && Enumerates(o, r.Keys) && Enumerates(p, s.Keys)
    ensures multiset(Under(Merged(r, o, host, parse), name)) == rest + Share(r[id], host, parse, name)
    ensures multiset(Under(Merged(s, p, host, parse), name)) == rest + Share(s[id], host, parse, name)
  {
    OthersAgree(r, s, id);
    SamplesAreConserved(r, o, host, parse, name);
    SamplesAreConserved(s, p, host, parse, name);
    rest := TotalIsIsolated(ShareOf(r, host, parse, name), ShareOf(s, host, parse, name), id, r.Keys, o, p);
  }

  /** And of the collector's samples, whatever the two orders: its own success and duration, and the healthy total. */
  lemma CollectorIsIsolated(
    r: Results, s: Results, id: string, o: seq<string>, p: seq<string>, host: string, name: string)
    returns (rest: multiset<Sample>)
    requires OnlyDiffer(r, s, id) && Enumerates(o, r.Keys) && Enumerates(p, s.Keys)
    ensures multiset(Under(CollectorFamilies(r, o, host), name))
      == rest + CollectorShare(r[id], host, name) + HealthySamples(r, host, name)
    ensures multiset(Under(CollectorFamilies(s, p, host), name))
      == rest + CollectorShare(s[id], host, name) + HealthySamples(s, host, name)
  {
    OthersAgree(r, s, id);
    CollectorIsConserved(r, o, host, name);
    CollectorIsConserved(s, p, host, name);
    assert |r| == |r.Keys| && |s| == |s.Keys|;
    var totals := TotalSamples(r, host, name);
    var most := TotalIsIsolated(CollectorShareOf(r, host, name), CollectorShareOf(s, host, name), id, r.Keys, o, p);
    Commute(most, CollectorShare(r[id], host, name), totals);
    Commute(most, CollectorShare(s[id], host, name), totals);
    rest := most + totals;
  }

  /** Isolation of what is served: two outcomes that differ in one target, each met in any orders, serve under each
      name the same samples but for that target's own and the healthy total. */
  lemma ServedFaultsAreIsolated(
    r: Results, s: Results, id: string, o: seq<string>, p: seq<string>, q: seq<string>, u: seq<string>,
    host: string, parse: Parser, name: string)
    returns (rest: multiset<Sample>)
    requires OnlyDiffer(r, s, id)
    requires Enumerates(o, r.Keys) && Enumerates(p, r.Keys) && Enumerates(q, s.Keys) && Enumerates(u, s.Keys)
    ensures multiset(Under(Body(r, o, p, host, parse), name))
      == rest + Share(r[id], host, parse, name) + CollectorShare(r[id], host, name) + HealthySamples(r, host, name)
    ensures multiset(Under(Body(s, q, u, host, parse), name))
      == rest + Share(s[id], host, parse, name) + CollectorShare(s[id], host, name) + HealthySamples(s, host, name)
  {
    UnderJoined(Merged(r, o, host, parse), CollectorFamilies(r, p, host), name);
    UnderJoined(Merged(s, q, host, parse), CollectorFamilies(s, u, host), name);
    var x := FaultsAreIsolated(r, s, id, o, q, host, parse, name);
    var y := CollectorIsIsolated(r, s, id, p, u, host, name);
    Regroup(x, Share(r[id], host, parse, name), y, CollectorShare(r[id], host, name), HealthySamples(r, host, name));
    Regroup(x, Share(s[id], host, parse, name), y, CollectorShare(s[id], host, name), HealthySamples(s, host, name));
    rest := x + y;
  }

  lemma Regroup(
    x: multiset<Sample>, a: multiset<Sample>, y: multiset<Sample>, b: multiset<Sample>, c: multiset<Sample>)
    ensures (x + a) + (y + b + c) == (x + y) + a + b + c
  {
  }

  lemma OthersAgree(r: Results, s: Results, id: string)
    requires r.Keys == s.Keys && Others(r, id) == Others(s, id)
    ensures forall x :: x in r && x != id ==> r[x] == s[x]
  {
    forall x | x in r && x != id ensures r[x] == s[x] {
      assert x in Others(r, id) && Others(r, id)[x] == r[x] && Others(s, id)[x] == s[x];
    }
  }

  lemma HealthyTotalIsIsolated(r: Results, s: Results, id: string)
    requires OnlyDiffer(r, s, id)
    ensures |HealthyIDs(r)| - |HealthyIDs(s)|
      == (if r[id].error.None? then 1 else 0) - (if s[id].error.None? then 1 else 0)
  {
    OthersAgree(r, s, id);
    HealthyWithout(r, id);
    HealthyWithout(s, id);
    HealthyElsewhere(r, s, id);
  }

  lemma HealthyElsewhere(r: Results, s: Results, id: string)
    requires r.Keys == s.Keys && forall x :: x in r && x != id ==> r[x] == s[x]
    ensures HealthyIDs(r) - {id} == HealthyIDs(s) - {id}
  {
    forall x ensures x in HealthyIDs(r) - {id} <==> x in HealthyIDs(s) - {id} {
    }
  }

  lemma HealthyWithout(r: Results, id: string)
    requires id in r
    ensures |HealthyIDs(r)| == |HealthyIDs(r) - {id}| + if r[id].error.None? then 1 else 0
  {
    if r[id].error.None? {
      assert HealthyIDs(r) == HealthyIDs(r) - {id} + {id};
    } else {
      assert HealthyIDs(r) == HealthyIDs(r) - {id};
    }
  }

  /** The collector's own samples carry the labels that the guest's get, unless one of the three is empty: the
      collector then writes an empty label where enrichment writes none. */
  lemma CollectorLabelsLikeTheGuests(host: string, t: TargetVM)
    ensures LabelMap(TargetLabels(host, t)) == Override(map[], Authority(host, t))
      <==> host != "" && t.vmID != "" && t.vmName != ""
  {
    var ls, o := TargetLabels(host, t), Override(map[], Authority(host, t));
    OverrideUnrolled(map[], host, t);
    TargetLabelsSay(host, t);
    assert |"host"| == 4 && |"vm_id"| == 5 && |"vm_name"| == 7;
    assert forall n :: Overrules(host, t, n) != "" ==> n in LabelMap(ls) && n in o;
    assert "host" in LabelMap(ls) && "vm_id" in LabelMap(ls) && "vm_name" in LabelMap(ls);
    assert host == "" ==> "host" !in o;
    assert t.vmID == "" ==> "vm_id" !in o;
    assert t.vmName == "" ==> "vm_name" !in o;
  }

  lemma TargetLabelsSay(host: string, t: TargetVM)
    ensures var m := LabelMap(TargetLabels(host, t));
      && (forall n :: n in m <==> n == "host" || n == "vm_id" || n == "vm_name" || Overrules(host, t, n) != "")
      && (forall n :: n in m ==> m[n] == Overrules(host, t, n))
  {
    var ls := TargetLabels(host, t);
    assert |"host"| == 4 && |"vm_id"| == 5 && |"vm_name"| == 7 && |"project_id"| == 10;
    LabelMapAt(ls);
    assert ls[0].name == "host" && ls[1].name == "vm_id" && ls[2].name == "vm_name";
    assert t.projectID != "" ==> ls[3].name == "project_id";
  }

  lemma CollectorNamesDiffer()
    ensures SUCCESS != DURATION && SUCCESS != TOTAL && SUCCESS != HEALTHY
    ensures DURATION != TOTAL && DURATION != HEALTHY && TOTAL != HEALTHY
  {
    assert |SUCCESS| == 29 && |DURATION| == 38 && |TOTAL| == 28 && |HEALTHY| == 30;
  }
}
