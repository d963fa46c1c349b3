/** One call of handleMetrics with no other between its steps; Freshness has the interleavings. */
module Server {
  import opened Api
  import opened Order
  import opened Families
  import opened Status
  import opened Exposition
  import opened Metrics
  import opened Processor
  import Spelled = Served
  import L = Labels
  import S = Scraper

  type Encoder = FamilyValues -> Option<string>

  /** The merge loop over the results, which meets them in any order. */
  method MergeResults(enricher: MetricEnricher, results: Results, parse: Parser)
    returns (combined: FamilyMap, ghost order: seq<string>)
    requires ParsesDistinct(parse)
    ensures OneNameEach(combined) && forall n :: n in combined ==> fresh(combined[n])
    ensures Enumerates(order, results.Keys)
    ensures ReadOut(Samples(combined)) == Merged(results, order, enricher.hostName, parse)
  {
    combined, order := map[], [];
    var todo := results.Keys;
    while todo != {}
      invariant todo <= results.Keys && Enumerates(order, results.Keys - todo)
      invariant OneNameEach(combined) && forall n :: n in combined ==> fresh(combined[n])
      invariant ReadOut(Samples(combined)) == Merged(results, order, enricher.hostName, parse)
      decreases todo
    {
      var id :| id in todo;
      OneMoreSeen(results.Keys, todo, id);
      EnumeratesOneMore(order, results.Keys - todo, id);
      MergedOneMore(results, order, id, enricher.hostName, parse);
      combined := MergeResult(enricher, combined, results[id], parse);
      order, todo := order + [id], todo - {id};
    }
    assert results.Keys - todo == results.Keys;
  }

  /** One round of the merge loop: a failed scrape, an empty payload and a refused one add nothing. */
  method MergeResult(enricher: MetricEnricher, combined: FamilyMap, res: ScrapeResult, parse: Parser)
    returns (merged: FamilyMap)
    requires ParsesDistinct(parse) && OneNameEach(combined)
    modifies combined.Values
    ensures OneNameEach(merged) && forall n :: n in merged ==> merged[n] in combined.Values || fresh(merged[n])
    ensures ReadOut(Samples(merged))
      == Joined(old(ReadOut(Samples(combined))), Contribution(res, enricher.hostName, parse))
  {
    merged := combined;
    JoinedEmpty(ReadOut(Samples(combined)));
    if res.error.Some? || |res.payload| == 0 {
      assert res.error.None? ==> res.payload == "";
      return;
    }
    label Before:
    var mfs, own := enricher.EnrichTargetMetrics(res.payload, res.target, parse);
    SaysTheSame@Before(combined);
    if mfs.None? {
      return;
    }
    HeldSay(mfs.value, own, Contribution(res, enricher.hostName, parse));
    merged := MergeInto(combined, mfs.value);
  }

  lemma JoinedEmpty(d: FamilyValues)
    ensures Joined(d, map[]) == d
  {
    assert forall n :: n in d ==> d[n] + [] == d[n];
  }

  lemma MergedOneMore(results: Results, order: seq<string>, id: string, host: string, parse: Parser)
    requires (forall x :: x in order ==> x in results) && id in results
    ensures Merged(results, order + [id], host, parse)
      == Joined(Merged(results, order, host, parse), Contribution(results[id], host, parse))
  {
    assert (order + [id])[..|order + [id]| - 1] == order;
  }

  method BuildCollectorMetrics(results: Results, host: string) returns (families: FamilyMap, ghost order: seq<string>)
    ensures OneNameEach(families) && forall n :: n in families ==> fresh(families[n])
    ensures Enumerates(order, results.Keys) && ReadOut(Samples(families)) == CollectorFamilies(results, order, host)
  {
    var success, duration, healthy;
    success, duration, healthy, order := CountResults(results, host);
    HealthyAll(results);
    label Before:
    var totalMF := OneSample(host, |results| as real);
    var healthyMF := OneSample(host, healthy as real);
    ValuesStay@Before(success.metric);
    ValuesStay@Before(duration.metric);
    families := map[SUCCESS := success, DURATION := duration, TOTAL := totalMF, HEALTHY := healthyMF];
    CollectorSays(success, duration, totalMF, healthyMF, results, order, host);
  }

  lemma CollectorSays(
    success: MetricFamily, duration: MetricFamily, total: MetricFamily, healthy: MetricFamily,
    results: Results, order: seq<string>, host: string)
    requires forall x :: x in order ==> x in results
    requires success != duration && success != total && success != healthy
    requires duration != total && duration != healthy && total != healthy
    requires Values(success.metric) == SuccessSamples(results, order, host)
    requires Values(duration.metric) == DurationSamples(results, order, host)
    requires Values(total.metric) == [Sample([L.Label("host", host)], |results| as real)]
    requires Values(healthy.metric) == [Sample([L.Label("host", host)], |HealthyIDs(results)| as real)]
    ensures var families := map[SUCCESS := success, DURATION := duration, TOTAL := total, HEALTHY := healthy];
      && OneNameEach(families) && ReadOut(Samples(families)) == CollectorFamilies(results, order, host)
      && forall n :: n in families ==> families[n] in {success, duration, total, healthy}
  {
    CollectorNamesDiffer();
  }

  lemma HealthyAll(results: Results)
    ensures HealthyIDs(results) * results.Keys == HealthyIDs(results)
  {
  }

  method OneSample(host: string, value: real) returns (mf: MetricFamily)
    ensures fresh(mf) && Values(mf.metric) == [Sample([L.Label("host", host)], value)]
  {
    var lp := new LabelPair("host", host);
    var m := new Metric([lp], value);
    mf := new MetricFamily([m]);
    assert Said([lp]) == [L.Label("host", host)];
  }

  method TargetPairs(host: string, t: TargetVM) returns (labels: seq<LabelPair>)
    ensures fresh(labels) && Said(labels) == TargetLabels(host, t)
  {
    labels := NewPairs([L.Label("host", host), L.Label("vm_id", t.vmID), L.Label("vm_name", t.vmName)]);
    if t.projectID != "" {
      var lp := new LabelPair("project_id", t.projectID);
      labels := labels + [lp];
    }
  }

  /** What the loop of buildCollectorMetrics has counted once it has met the results of an order. */
  ghost predicate Counted(
    results: Results, host: string, success: seq<Sample>, duration: seq<Sample>, healthy: nat,
    order: seq<string>, seen: set<string>)
  {
    && seen <= results.Keys && Enumerates(order, seen)
    && success == SuccessSamples(results, order, host) && duration == DurationSamples(results, order, host)
    && healthy == |HealthyIDs(results) * seen|
  }

  /** The loop of buildCollectorMetrics, which meets the results in any order. A target's two samples share
      their label pairs. */
  method CountResults(results: Results, host: string)
    returns (successMF: MetricFamily, durationMF: MetricFamily, healthy: nat, ghost order: seq<string>)
    ensures fresh(successMF) && fresh(durationMF) && successMF != durationMF
    ensures Counted(results, host, Values(successMF.metric), Values(durationMF.metric), healthy, order, results.Keys)
  {
    healthy, order := 0, [];
    successMF := new MetricFamily([]);
    durationMF := new MetricFamily([]);
    var todo := results.Keys;
    NoneCounted(results, host);
    while todo != {}
      invariant todo <= results.Keys
      invariant Counted(
        results, host, Values(successMF.metric), Values(durationMF.metric), healthy, order, results.Keys - todo)
      decreases todo
    {
      var id :| id in todo;
      var res := results[id];
      OneMoreSeen(results.Keys, todo, id);
      CollectorOneMore(
        results, Values(successMF.metric), Values(durationMF.metric), healthy, order, results.Keys - todo, id, host);
      AddTarget(successMF, durationMF, host, res);
      if res.error.None? {
        healthy := healthy + 1;
      }
      order, todo := order + [id], todo - {id};
    }
    assert results.Keys - todo == results.Keys;
  }

  method AddTarget(successMF: MetricFamily, durationMF: MetricFamily, host: string, res: ScrapeResult)
    requires successMF != durationMF
    modifies successMF, durationMF
    ensures Values(successMF.metric) == old(Values(successMF.metric)) + [SuccessSample(res, host)]
    ensures Values(durationMF.metric) == old(Values(durationMF.metric)) + [DurationSample(res, host)]
  {
    var labels := TargetPairs(host, res.target);
    AddSample(successMF, labels, if res.error.None? then 1.0 else 0.0, TargetLabels(host, res.target));
    AddSample(durationMF, labels, Seconds(res.latencyMs), TargetLabels(host, res.target));
  }

  method AddSample(mf: MetricFamily, labels: seq<LabelPair>, value: real, ghost said: seq<L.Label>)
    requires Said(labels) == said
    modifies mf
    ensures Said(labels) == said && Values(mf.metric) == old(Values(mf.metric)) + [Sample(said, value)]
  {
    var m := new Metric(labels, value);
    OneMore(mf.metric, m);
    mf.metric := mf.metric + [m];
  }

  lemma OneMoreSeen(keys: set<string>, todo: set<string>, id: string)
    requires id in todo && todo <= keys
    ensures keys - (todo - {id}) == keys - todo + {id}
  {
  }

  lemma NoneCounted(results: Results, host: string)
    ensures Counted(results, host, [], [], 0, [], results.Keys - results.Keys)
  {
    assert HealthyIDs(results) * (results.Keys - results.Keys) == {};
  }

  lemma CollectorOneMore(
    results: Results, success: seq<Sample>, duration: seq<Sample>, healthy: nat,
    order: seq<string>, seen: set<string>, id: string, host: string)
    requires Counted(results, host, success, duration, healthy, order, seen) && id in results && id !in seen
    ensures Counted(results, host,
      success + [SuccessSample(results[id], host)], duration + [DurationSample(results[id], host)],
      healthy + (if results[id].error.None? then 1 else 0), order + [id], seen + {id})
  {
    EnumeratesOneMore(order, seen, id);
    Spelled.HealthyOneMore(results, seen, id);
    SamplesOneMore(results, order, id, host);
  }

  lemma SamplesOneMore(results: Results, order: seq<string>, id: string, host: string)
    requires (forall x :: x in order ==> x in results) && id in results
    ensures SuccessSamples(results, order + [id], host)
      == SuccessSamples(results, order, host) + [SuccessSample(results[id], host)]
    ensures DurationSamples(results, order + [id], host)
      == DurationSamples(results, order, host) + [DurationSample(results[id], host)]
  {
  }

  /** All that a miss encodes. */
  method AllFamilies(enricher: MetricEnricher, results: Results, parse: Parser)
    returns (families: FamilyMap, ghost merged: seq<string>, ghost counted: seq<string>)
    requires ParsesDistinct(parse)
    ensures Enumerates(merged, results.Keys) && Enumerates(counted, results.Keys)
    ensures ReadOut(Samples(families)) == Body(results, merged, counted, enricher.hostName, parse)
  {
    var collector;
    families, merged := MergeResults(enricher, results, parse);
    label Before:
    collector, counted := BuildCollectorMetrics(results, enricher.hostName);
    SaysTheSame@Before(families);
    families := MergeInto(families, collector);
  }

  class Server {
    const scraper: S.Scraper
    const enricher: MetricEnricher
    const cacheTTL: nat
    var cachedData: string
    var lastScrape: nat

    constructor (scraper: S.Scraper, enricher: MetricEnricher, cacheTTL: int)
      ensures this.scraper == scraper && this.enricher == enricher && cachedData == ""
      ensures this.cacheTTL == if cacheTTL <= 0 then 5000 else cacheTTL
    {
      this.scraper := scraper;
      this.enricher := enricher;
      this.cacheTTL := if cacheTTL <= 0 then 5000 else cacheTTL;
      cachedData := "";
      lastScrape := 0;
    }

    /** A hit serves the cache and changes nothing. A miss scrapes the targets, and what it serves encodes every
        enriched sample of every good scrape and the collector's metrics; it becomes the cache, dated now. If
        encoding fails the cache stays. */
    method HandleMetrics(now: nat, targets: seq<TargetVM>, parse: Parser, encode: Encoder)
      returns (body: Option<string>, ghost results: Results, ghost merged: seq<string>, ghost counted: seq<string>)
      requires scraper.Valid() && ParsesDistinct(parse)
      modifies this, scraper, scraper.exporters
      ensures scraper.Valid()
      ensures var hit := old(|cachedData| > 0 && now - lastScrape < cacheTTL);
        if hit
        then body == Some(old(cachedData)) && unchanged(this) && unchanged(scraper) && unchanged(scraper.exporters)
        else
          && Enumerates(merged, results.Keys) && Enumerates(counted, results.Keys)
          && results.Keys == (set t | t in targets :: t.vmID) == scraper.exporterStatus.Keys
          && body == encode(Body(results, merged, counted, enricher.hostName, parse))
          && (body.Some? ==> cachedData == body.value && lastScrape == now)
          && (body.None? ==> unchanged(this))
    {
      results, merged, counted := map[], [], [];
      if |cachedData| > 0 && now - lastScrape < cacheTTL {
        return Some(cachedData), results, merged, counted;
      }
      body, results, merged, counted := LiveBody(targets, parse, encode);
      if body.None? {
        return;
      }
      cachedData := body.value;
      lastScrape := now;
    }

    /** What a miss serves, before it is cached. */
    method LiveBody(targets: seq<TargetVM>, parse: Parser, encode: Encoder)
      returns (body: Option<string>, ghost results: Results, ghost merged: seq<string>, ghost counted: seq<string>)
      requires scraper.Valid() && ParsesDistinct(parse)
      modifies scraper, scraper.exporters
      ensures scraper.Valid()
      ensures Enumerates(merged, results.Keys) && Enumerates(counted, results.Keys)
      ensures results.Keys == (set t | t in targets :: t.vmID) == scraper.exporterStatus.Keys
      ensures body == encode(Body(results, merged, counted, enricher.hostName, parse))
    {
      var scraped, families;
      ghost var cancelled;
      scraped, cancelled := scraper.ScrapeAll(targets);
      results := scraped;
      families, merged, counted := AllFamilies(enricher, scraped, parse);
      body := encode(ReadOut(Samples(families)));
    }
  }
}
