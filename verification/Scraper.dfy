/** The methods of pkg/scraper, against Status and Pool. */
module Scraper {
  import opened Api
  import opened Order
  import opened Status
  import P = Pool

  datatype CollectorStatus = CollectorStatus(
    collector: string, totalTargets: nat, healthyTargets: nat, exporters: seq<ExporterStatus>)

  function RowKey(s: ExporterStatus): string { s.vmID }

  /** The deletion loop of PruneTargets. */
  method Pruned(m: StatusMap, active: seq<TargetVM>) returns (r: StatusMap)
    ensures r == Step(m, Prune(P.IDs(active)))
  {
    var activeIDs: set<string> := {};
    for i := 0 to |active|
      invariant activeIDs == P.IDs(active[..i])
    {
      activeIDs := activeIDs + {active[i].vmID};
      assert active[..i + 1] == active[..i] + [active[i]];
    }
    assert active[..|active|] == active;
    var todo := m.Keys;
    r := m;
    while todo != {}
      invariant todo <= m.Keys
      invariant r.Keys == set id | id in m && (id in todo || id in activeIDs)
      invariant forall id :: id in r ==> r[id] == m[id]
      decreases todo
    {
      var id :| id in todo;
      if id !in activeIDs {
        r := r - {id};
      }
      todo := todo - {id};
    }
  }

  /** The rows in strictly ascending order of id, each once; how many are healthy; "degraded" exactly when
      there are rows and none is healthy. */
  ghost predicate Reports(m: StatusMap, r: CollectorStatus) {
    && (forall i, j :: 0 <= i < j < |r.exporters| ==> Less(r.exporters[i].vmID, r.exporters[j].vmID))
    && (forall s :: s in r.exporters <==> s.vmID in m && m[s.vmID] == s)
    && r.totalTargets == |r.exporters| == |m|
    && r.healthyTargets == |set id | id in m && m[id].healthy|
    && r.collector == if m != map[] && (forall id :: id in m ==> !m[id].healthy) then "degraded" else "healthy"
  }

  method Report(m: StatusMap) returns (r: CollectorStatus)
    requires forall id :: id in m ==> m[id].vmID == id
    ensures Reports(m, r)
  {
    var exporters, healthy := Rows(m);
    SortSorts(exporters, RowKey);
    SameElements(Sort(exporters, RowKey), exporters);
    exporters := Sort(exporters, RowKey);
    var state := "healthy";
    if |exporters| > 0 && healthy == 0 {
      state := "degraded";
    }
    var well := Well(m, m.Keys);
    assert well == set id | id in m && m[id].healthy;
    assert |well| == 0 <==> well == {};
    assert forall id :: id in m && m[id].healthy ==> id in well;
    assert well == {} <==> forall id :: id in m ==> !m[id].healthy;
    assert |m| == 0 <==> m == map[];
    return CollectorStatus(state, |exporters|, healthy, exporters);
  }

  ghost function Well(m: StatusMap, seen: set<string>): set<string> {
    set id | id in m && id in seen && m[id].healthy
  }

  function RowsOf(m: StatusMap, order: seq<string>): seq<ExporterStatus>
    requires forall id :: id in order ==> id in m
  {
    seq(|order|, i requires 0 <= i < |order| => m[order[i]])
  }

  lemma RowsOfAll(m: StatusMap, order: seq<string>)
    requires Enumerates(order, m.Keys) && forall id :: id in m ==> m[id].vmID == id
    ensures var rows := RowsOf(m, order);
      && DistinctKeys(rows, RowKey) && |rows| == |m|
      && forall s :: s in rows <==> s.vmID in m && m[s.vmID] == s
  {
    var rows := RowsOf(m, order);
    EnumerationLength(order, m.Keys);
    assert |m| == |m.Keys|;
    forall s: ExporterStatus | s.vmID in m && m[s.vmID] == s ensures s in rows {
      var i :| 0 <= i < |order| && order[i] == s.vmID;
      assert rows[i] == s;
    }
  }

  lemma WellOneMore(m: StatusMap, seen: set<string>, id: string)
    requires id in m && id !in seen
    ensures |Well(m, seen + {id})| == |Well(m, seen)| + if m[id].healthy then 1 else 0
  {
    assert Well(m, seen + {id}) == Well(m, seen) + (if m[id].healthy then {id} else {});
  }

  method Rows(m: StatusMap) returns (rows: seq<ExporterStatus>, healthy: nat)
    requires forall id :: id in m ==> m[id].vmID == id
    ensures DistinctKeys(rows, RowKey) && |rows| == |m|
    ensures forall s :: s in rows <==> s.vmID in m && m[s.vmID] == s
    ensures healthy == |Well(m, m.Keys)|
  {
    rows, healthy := [], 0;
    var todo := m.Keys;
    ghost var order: seq<string> := [];
    NothingSeen(m);
    while todo != {}
      invariant todo <= m.Keys && Enumerates(order, m.Keys - todo)
      invariant rows == RowsOf(m, order) && healthy == |Well(m, m.Keys - todo)|
      decreases todo
    {
      var id :| id in todo;
      RowsOneMore(m, order, m.Keys - todo, id);
      assert m.Keys - (todo - {id}) == m.Keys - todo + {id};
      rows := rows + [m[id]];
      if m[id].healthy {
        healthy := healthy + 1;
      }
      todo, order := todo - {id}, order + [id];
    }
    assert m.Keys - todo == m.Keys;
    RowsOfAll(m, order);
  }

  lemma NothingSeen(m: StatusMap)
    ensures Enumerates([], m.Keys - m.Keys) && RowsOf(m, []) == [] && |Well(m, m.Keys - m.Keys)| == 0
  {
    assert Well(m, m.Keys - m.Keys) == {};
  }

  lemma RowsOneMore(m: StatusMap, order: seq<string>, seen: set<string>, id: string)
    requires seen <= m.Keys && Enumerates(order, seen) && id in m && id !in seen
    ensures Enumerates(order + [id], seen + {id}) && RowsOf(m, order + [id]) == RowsOf(m, order) + [m[id]]
    ensures |Well(m, seen + {id})| == |Well(m, seen)| + if m[id].healthy then 1 else 0
  {
    EnumeratesOneMore(order, seen, id);
    WellOneMore(m, seen, id);
  }

  // --- what the exporters answer

  /** What one scrape of a target got: a payload or an error, and how long it took. */
  datatype Answer = Answer(target: TargetVM, payload: string, error: Option<string>, latencyMs: nat)

  /** The transport, with a record of all that it has answered. */
  class Exporters {
    ghost var answers: seq<Answer>

    constructor ()
      ensures answers == []
    {
      answers := [];
    }

    method GetMetrics(target: TargetVM) returns (payload: string, error: Option<string>, latencyMs: nat)
      modifies this
      ensures answers == old(answers) + [Answer(target, payload, error, latencyMs)]
    {
      payload, error, latencyMs := *, *, *;
      answers := answers + [Answer(target, payload, error, latencyMs)];
    }
  }

  function AnswerIn(p: P.Pool, a: P.Action): seq<Answer>
    requires P.Enabled(p, a)
  {
    if a.Finish? then [Answer(p.workers[a.i].target, a.payload, a.error, a.latencyMs)] else []
  }

  /** The answers that the steps of a run of the pool are about. */
  function AnswersIn(p: P.Pool, acts: seq<P.Action>): seq<Answer>
    requires P.Run(p, acts).Some?
    decreases acts
  {
    if acts == [] then [] else AnswerIn(p, acts[0]) + AnswersIn(P.Do(p, acts[0]), acts[1..])
  }

  lemma {:induction false} OneMoreStep(p: P.Pool, acts: seq<P.Action>, a: P.Action)
    requires P.Run(p, acts).Some? && P.Enabled(P.Run(p, acts).value, a)
    ensures P.Run(p, acts + [a]) == Some(P.Do(P.Run(p, acts).value, a))
    ensures AnswersIn(p, acts + [a]) == AnswersIn(p, acts) + AnswerIn(P.Run(p, acts).value, a)
    decreases acts
  {
    if acts == [] {
      assert acts + [a] == [a] && [a][1..] == [];
    } else {
      assert (acts + [a])[1..] == acts[1..] + [a];
      OneMoreStep(P.Do(p, acts[0]), acts[1..], a);
    }
  }

  /** A result that did not come of a scrape: the context had been cancelled when the target was taken. */
  predicate IsRefused(r: ScrapeResult) {
    r.payload == "" && r.error == Some("context canceled") && r.latencyMs == 0
  }

  lemma {:induction false} OriginIsAnswered(p: P.Pool, acts: seq<P.Action>, k: nat, r: ScrapeResult)
    requires P.Run(p, acts).Some? && P.IsOrigin(p, acts, k, r) && acts[k].Finish?
    ensures Answer(r.target, r.payload, r.error, r.latencyMs) in AnswersIn(p, acts)
    decreases acts
  {
    if k > 0 {
      assert acts[..k][1..] == acts[1..][..k - 1] && acts[..k][0] == acts[0];
      OriginIsAnswered(P.Do(p, acts[0]), acts[1..], k - 1, r);
    }
  }

  /** The result is what an exporter answered for its target, or was refused after a cancellation. */
  predicate AnsweredOrRefused(r: ScrapeResult, answers: seq<Answer>, cancelled: bool) {
    || Answer(r.target, r.payload, r.error, r.latencyMs) in answers
    || (cancelled && IsRefused(r))
  }

  lemma OriginSuffices(p: P.Pool, acts: seq<P.Action>, k: nat, r: ScrapeResult)
    requires P.Run(p, acts).Some? && P.IsOrigin(p, acts, k, r) && !p.cancelled
    ensures AnsweredOrRefused(r, AnswersIn(p, acts), P.Cancel in acts)
  {
    if acts[k].Finish? {
      OriginIsAnswered(p, acts, k, r);
    }
  }

  lemma ResultsAreAnswers(maxWorkers: int, targets: seq<TargetVM>, acts: seq<P.Action>)
    requires var p := P.Begin(maxWorkers, targets); P.Run(p, acts).Some? && P.Finished(P.Run(p, acts).value)
    ensures var p := P.Begin(maxWorkers, targets); var q := P.Run(p, acts).value;
      forall id :: id in q.results ==> AnsweredOrRefused(q.results[id], AnswersIn(p, acts), P.Cancel in acts)
  {
    var p := P.Begin(maxWorkers, targets);
    var q := P.Run(p, acts).value;
    P.ResultsAreOutcomes(maxWorkers, targets, acts);
    forall id | id in q.results
      ensures AnsweredOrRefused(q.results[id], AnswersIn(p, acts), P.Cancel in acts)
    {
      var k: nat :| P.IsOrigin(p, acts, k, q.results[id]);
      OriginSuffices(p, acts, k, q.results[id]);
    }
  }

  class Scraper {
    const exporters: Exporters
    const maxWorkers: int
    var exporterStatus: StatusMap
    ghost var history: seq<Event>

    /** The map is what the calls so far make it. */
    ghost predicate Valid()
      reads this
    {
      exporterStatus == StatusAfter(history) && forall id :: id in exporterStatus ==> exporterStatus[id].vmID == id
    }

    constructor (exporters: Exporters, maxWorkers: int)
      ensures Valid() && history == [] && this.exporters == exporters
      ensures this.maxWorkers == if maxWorkers > 0 then maxWorkers else 8
    {
      this.exporters := exporters;
      this.maxWorkers := if maxWorkers > 0 then maxWorkers else P.DEFAULT_WORKERS;
      exporterStatus := map[];
      history := [];
    }

    /** The result of a scrape is what the exporter answered. */
    method ScrapeTarget(target: TargetVM) returns (res: ScrapeResult)
      modifies exporters
      ensures res.target == target
      ensures exporters.answers == old(exporters.answers) + [Answer(target, res.payload, res.error, res.latencyMs)]
    {
      var payload, error, latencyMs := exporters.GetMetrics(target);
      res := ScrapeResult(target, payload, error, latencyMs);
    }

    method RecordStatus(res: ScrapeResult, now: nat)
      requires Valid()
      modifies this
      ensures Valid() && history == old(history) + [Record(res, now)]
    {
      StatusOneMore(history, Record(res, now));
      var id := res.target.vmID;
      var status := ExporterStatus(id, res.target.vmName, Endpoint(res.target), false, None, "", res.latencyMs);
      if res.error.None? {
        status := status.(healthy := true, lastSuccess := Some(now));
      } else {
        status := status.(lastError := res.error.value);
        if id in exporterStatus {
          status := status.(lastSuccess := exporterStatus[id].lastSuccess);
        }
      }
      exporterStatus := exporterStatus[id := status];
      history := history + [Record(res, now)];
    }

    method PruneTargets(active: seq<TargetVM>)
      requires Valid()
      modifies this
      ensures Valid() && history == old(history) + [Prune(P.IDs(active))]
    {
      StatusOneMore(history, Prune(P.IDs(active)));
      exporterStatus := Pruned(exporterStatus, active);
      history := history + [Prune(P.IDs(active))];
    }

    method GetStatus() returns (r: CollectorStatus)
      requires Valid()
      ensures Reports(exporterStatus, r)
    {
      r := Report(exporterStatus);
    }

    /** One call with no other call between its steps: at each turn any worker may be next, a scrape may have
        any outcome, and the context may be cancelled. Each result is the answer that its target's exporter gave, or
        was refused after a cancellation; and with distinct ids each status row shows it. */
    method ScrapeAll(targets: seq<TargetVM>) returns (results: map<string, ScrapeResult>, ghost cancelled: bool)
      requires Valid()
      modifies this, exporters
      ensures Valid() && exporterStatus.Keys == P.IDs(targets) == results.Keys
      ensures forall id :: id in results ==> results[id].target in targets && results[id].target.vmID == id
      ensures old(exporters.answers) <= exporters.answers
      ensures forall id :: id in results ==>
        AnsweredOrRefused(results[id], exporters.answers[|old(exporters.answers)|..], cancelled)
      ensures old(history) + [Prune(P.IDs(targets))] <= history
      ensures forall t :: P.RecordedFor(history[|old(history)| + 1..], t) == multiset(targets)[t]
      ensures P.DistinctIDs(targets) ==>
        forall id :: id in results ==> id in exporterStatus && ShowsRecord(exporterStatus[id], results[id])
    {
      PruneTargets(targets);
      if |targets| == 0 {
        assert history[|history| - 1] == Prune({});
        return map[], false;
      }
      var pool;
      ghost var acts;
      pool, acts := Drain(targets);
      P.ScrapeAllLeaves(old(history), pool, targets);
      ResultsAreAnswers(maxWorkers, targets, acts);
      assert history[|old(history)| + 1..] == pool.recorded;
      return pool.results, P.Cancel in acts;
    }

    /** The workers, from their start to the end of the last one: a run of the pool in which each scrape is one
        question to the exporters. */
    method Drain(targets: seq<TargetVM>) returns (pool: P.Pool, ghost acts: seq<P.Action>)
      requires Valid() && targets != []
      modifies this, exporters
      ensures Valid() && history == old(history) + pool.recorded
      ensures P.Run(P.Begin(maxWorkers, targets), acts) == Some(pool)
      ensures exporters.answers == old(exporters.answers) + AnswersIn(P.Begin(maxWorkers, targets), acts)
      ensures P.Inv(pool, targets) && P.Finished(pool) && pool.workers != [] && pool.queue == []
    {
      pool, acts := P.Begin(maxWorkers, targets), [];
      P.BeginInv(maxWorkers, targets);
      while !P.Finished(pool)
        invariant P.Inv(pool, targets) && |pool.workers| == P.WorkerCount(maxWorkers, |targets|) > 0
        invariant P.Busy(pool)
        invariant Valid() && history == old(history) + pool.recorded
        invariant P.Run(P.Begin(maxWorkers, targets), acts) == Some(pool)
        invariant exporters.answers == old(exporters.answers) + AnswersIn(P.Begin(maxWorkers, targets), acts)
        decreases P.Measure(pool)
      {
        ghost var a;
        ghost var before := pool;
        pool, a := Turn(pool, targets, old(history));
        OneMoreStep(P.Begin(maxWorkers, targets), acts, a);
        acts := acts + [a];
      }
      assert pool.workers[0].Done?;
    }

    /** One step of the pool: a worker's, or a cancellation. */
    method Turn(pool: P.Pool, ghost targets: seq<TargetVM>, ghost before: seq<Event>)
      returns (next: P.Pool, ghost taken: P.Action)
      requires history == before + pool.recorded
      requires Valid() && P.Inv(pool, targets) && P.Busy(pool) && !P.Finished(pool)
      modifies this, exporters
      ensures P.Enabled(pool, taken) && next == P.Do(pool, taken) && P.Measure(next) < P.Measure(pool)
      ensures exporters.answers == old(exporters.answers) + AnswerIn(pool, taken)
      ensures P.Inv(next, targets) && P.Busy(next) && |next.workers| == |pool.workers|
      ensures Valid() && history == before + next.recorded
    {
      var a := Choose(pool);
      P.StepInv(pool, a, targets);
      P.StepDecreases(pool, a);
      P.StepRecords(pool, a);
      next := P.Do(pool, a);
      if a.Log? {
        var res := pool.workers[a.i].res;
        RecordStatus(res, a.now);
        assert before + pool.recorded + [Record(res, a.now)] == before + (pool.recorded + [Record(res, a.now)]);
      } else {
        assert next.recorded == pool.recorded;
      }
      taken := a;
    }

    /** Which worker is next, what it does, and what its scrape is answered. */
    method Choose(pool: P.Pool) returns (a: P.Action)
      requires !P.Finished(pool)
      modifies exporters
      ensures P.Enabled(pool, a)
      ensures exporters.answers == old(exporters.answers) + AnswerIn(pool, a)
    {
      var cancel: bool := *;
      if cancel && !pool.cancelled {
        return P.Cancel;
      }
      var i :| 0 <= i < |pool.workers| && !pool.workers[i].Done?;
      if pool.workers[i].Scraping? {
        var res := ScrapeTarget(pool.workers[i].target);
        return P.Finish(i, res.payload, res.error, res.latencyMs);
      }
      var now: nat := *;
      a := P.Next(pool, i, "", None, 0, now);
    }
  }
}
