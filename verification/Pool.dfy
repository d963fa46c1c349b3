/** The worker pool of ScrapeAll: workers drain a closed channel while the context may be cancelled at any
    moment. One action is one step of one worker between two points where others can interfere. */
module Pool {
  import opened Api
  import opened Status

  datatype Worker =
    | Waiting                       // at the channel
    | Took(target: TargetVM)        // received, context not yet looked at
    | Scraping(target: TargetVM)    // inside ScrapeTarget
    | Scraped(res: ScrapeResult)    // about to lock the results
    | Stored(res: ScrapeResult)     // about to lock the status
    | Done

  /** stored and recorded are histories: the results written so far, and the status records so far. */
  datatype Pool = Pool(
    queue: seq<TargetVM>, workers: seq<Worker>, results: map<string, ScrapeResult>, cancelled: bool,
    stored: seq<ScrapeResult>, recorded: seq<Event>)

  datatype Action =
    | Take(i: nat)
    | Check(i: nat)
    | Finish(i: nat, payload: string, error: Option<string>, latencyMs: nat)
    | Store(i: nat)
    | Log(i: nat, now: nat)
    | Quit(i: nat)
    | Cancel

  const DEFAULT_WORKERS := 8
  const CANCELLED := "context canceled"

  function WorkerCount(maxWorkers: int, targets: nat): nat {
    var n := if maxWorkers <= 0 then DEFAULT_WORKERS else maxWorkers;
    if n > targets then targets else n
  }

  function Begin(maxWorkers: int, targets: seq<TargetVM>): Pool {
    Pool(targets, seq(WorkerCount(maxWorkers, |targets|), _ => Waiting), map[], false, [], [])
  }

  predicate Enabled(p: Pool, a: Action) {
    match a
    case Take(i) => i < |p.workers| && p.workers[i].Waiting? && p.queue != []
    case Check(i) => i < |p.workers| && p.workers[i].Took?
    case Finish(i, _, _, _) => i < |p.workers| && p.workers[i].Scraping?
    case Store(i) => i < |p.workers| && p.workers[i].Scraped?
    case Log(i, _) => i < |p.workers| && p.workers[i].Stored?
    case Quit(i) => i < |p.workers| && p.workers[i].Waiting? && p.queue == []
    case Cancel => !p.cancelled
  }

  function Do(p: Pool, a: Action): Pool
    requires Enabled(p, a)
  {
    match a
    case Take(i) => p.(queue := p.queue[1..], workers := p.workers[i := Took(p.queue[0])])
    case Check(i) =>
      var t := p.workers[i].target;
      p.(workers := p.workers[i :=
        if p.cancelled then Scraped(ScrapeResult(t, "", Some(CANCELLED), 0)) else Scraping(t)])
    case Finish(i, payload, error, latency) =>
      p.(workers := p.workers[i := Scraped(ScrapeResult(p.workers[i].target, payload, error, latency))])
    case Store(i) =>
      var r := p.workers[i].res;
      p.(workers := p.workers[i := Stored(r)], results := p.results[r.target.vmID := r], stored := p.stored + [r])
    case Log(i, now) =>
      p.(workers := p.workers[i := Waiting], recorded := p.recorded + [Record(p.workers[i].res, now)])
    case Quit(i) => p.(workers := p.workers[i := Done])
    case Cancel => p.(cancelled := true)
  }

  function Run(p: Pool, acts: seq<Action>): Option<Pool>
    decreases acts
  {
    if acts == [] then Some(p) else if !Enabled(p, acts[0]) then None else Run(Do(p, acts[0]), acts[1..])
  }

  predicate Finished(p: Pool) { forall i :: 0 <= i < |p.workers| ==> p.workers[i].Done? }

  // --- conservation

  /** Whether a worker holds t before its result is stored. */
  function Unstored(w: Worker, t: TargetVM): nat {
    match w
    case Took(u) => if u == t then 1 else 0
    case Scraping(u) => if u == t then 1 else 0
    case Scraped(r) => if r.target == t then 1 else 0
    case _ => 0
  }

  /** Whether a worker holds t between its stored result and its status record. */
  function Unrecorded(w: Worker, t: TargetVM): nat {
    if w.Stored? && w.res.target == t then 1 else 0
  }

  function SumUnstored(ws: seq<Worker>, t: TargetVM): nat {
    if ws == [] then 0 else Unstored(ws[0], t) + SumUnstored(ws[1..], t)
  }

  function SumUnrecorded(ws: seq<Worker>, t: TargetVM): nat {
    if ws == [] then 0 else Unrecorded(ws[0], t) + SumUnrecorded(ws[1..], t)
  }

  function Queued(ts: seq<TargetVM>, t: TargetVM): nat {
    if ts == [] then 0 else (if ts[0] == t then 1 else 0) + Queued(ts[1..], t)
  }

  /** Whether a worker holds this very result between storing and recording it. */
  function InHand(w: Worker, r: ScrapeResult): nat {
    if w == Stored(r) then 1 else 0
  }

  function SumInHand(ws: seq<Worker>, r: ScrapeResult): nat {
    if ws == [] then 0 else InHand(ws[0], r) + SumInHand(ws[1..], r)
  }

  /** How often this very result was recorded. */
  function Reported(es: seq<Event>, r: ScrapeResult): nat {
    if es == [] then 0
    else Reported(es[..|es| - 1], r) + var e := es[|es| - 1]; if e.Record? && e.res == r then 1 else 0
  }

  function RecordedFor(es: seq<Event>, t: TargetVM): nat {
    if es == [] then 0
    else RecordedFor(es[..|es| - 1], t) + var e := es[|es| - 1]; if e.Record? && e.res.target == t then 1 else 0
  }

  lemma {:induction false} SumUpdate(ws: seq<Worker>, i: nat, w: Worker, t: TargetVM)
    requires i < |ws|
    ensures SumUnstored(ws[i := w], t) == SumUnstored(ws, t) - Unstored(ws[i], t) + Unstored(w, t)
    ensures SumUnrecorded(ws[i := w], t) == SumUnrecorded(ws, t) - Unrecorded(ws[i], t) + Unrecorded(w, t)
  {
    if i == 0 {
      assert ws[0 := w][1..] == ws[1..];
    } else {
      assert ws[i := w][1..] == ws[1..][i - 1 := w];
      SumUpdate(ws[1..], i - 1, w, t);
    }
  }

  lemma {:induction false} InHandUpdate(ws: seq<Worker>, i: nat, w: Worker, r: ScrapeResult)
    requires i < |ws|
    ensures SumInHand(ws[i := w], r) == SumInHand(ws, r) - InHand(ws[i], r) + InHand(w, r)
  {
    if i == 0 {
      assert ws[0 := w][1..] == ws[1..];
    } else {
      assert ws[i := w][1..] == ws[1..][i - 1 := w];
      InHandUpdate(ws[1..], i - 1, w, r);
    }
  }

  lemma {:induction false} NothingInHand(ws: seq<Worker>, r: ScrapeResult)
    requires forall w :: w in ws ==> !w.Stored?
    ensures SumInHand(ws, r) == 0
  {
    if ws != [] {
      assert ws[0] in ws;
      NothingInHand(ws[1..], r);
    }
  }

  lemma {:induction false} SumNothing(ws: seq<Worker>, t: TargetVM)
    requires forall w :: w in ws ==> w.Waiting? || w.Done?
    ensures SumUnstored(ws, t) == 0 && SumUnrecorded(ws, t) == 0
  {
    if ws != [] {
      assert ws[0] in ws;
      SumNothing(ws[1..], t);
    }
  }

  /** How often t is queued, held by a worker at any stage, or finished. */
  function Inventory(p: Pool, t: TargetVM): nat {
    Queued(p.queue, t) + SumUnstored(p.workers, t) + SumUnrecorded(p.workers, t) + RecordedFor(p.recorded, t)
  }

  lemma {:induction false} QueuedCounts(ts: seq<TargetVM>, t: TargetVM)
    ensures Queued(ts, t) == multiset(ts)[t]
  {
    if ts != [] {
      QueuedCounts(ts[1..], t);
      assert ts == [ts[0]] + ts[1..];
    }
  }

  /** No later result is for the same id. */
  ghost predicate IsLatest(stored: seq<ScrapeResult>, i: int) {
    0 <= i < |stored| && forall j :: i < j < |stored| ==> stored[j].target.vmID != stored[i].target.vmID
  }

  /** The results are those stored, each id with its latest. */
  ghost predicate ResultsShow(results: map<string, ScrapeResult>, stored: seq<ScrapeResult>) {
    && (forall id :: id in results ==> results[id] in stored && results[id].target.vmID == id)
    && (forall r :: r in stored ==> r.target.vmID in results)
    && (forall i :: IsLatest(stored, i) ==> results[stored[i].target.vmID] == stored[i])
  }

  ghost predicate Inv(p: Pool, input: seq<TargetVM>) {
    && (forall t :: Inventory(p, t) == multiset(input)[t])
    && (forall r :: Unaccounted(p, r) == 0)
    && ResultsShow(p.results, p.stored)
    && forall e :: e in p.recorded ==> e.Record?
  }

  lemma BeginInv(maxWorkers: int, input: seq<TargetVM>)
    ensures Inv(Begin(maxWorkers, input), input)
  {
    var p := Begin(maxWorkers, input);
    forall t
      ensures Inventory(p, t) == multiset(input)[t]
    {
      SumNothing(p.workers, t);
      QueuedCounts(input, t);
    }
    forall r
      ensures Unaccounted(p, r) == 0
    {
      NothingInHand(p.workers, r);
    }
  }

  lemma StepInventory(p: Pool, a: Action, t: TargetVM)
    requires Enabled(p, a)
    ensures Inventory(Do(p, a), t) == Inventory(p, t)
  {
    match a
    case Take(i) => TakeInventory(p, i, t);
    case Check(i) => MoveInventory(p, i, Do(p, a).workers[i], t);
    case Finish(i, payload, error, latency) => MoveInventory(p, i, Do(p, a).workers[i], t);
    case Store(i) => StoreInventory(p, Do(p, a), i, p.workers[i].res, t);
    case Log(i, now) => LogInventory(p, i, now, t);
    case Quit(i) => MoveInventory(p, i, Done, t);
    case Cancel =>
  }

  lemma TakeInventory(p: Pool, i: nat, t: TargetVM)
    requires Enabled(p, Take(i))
    ensures Inventory(Do(p, Take(i)), t) == Inventory(p, t)
  {
    SumUpdate(p.workers, i, Took(p.queue[0]), t);
  }

  /** A worker that only changes its stage still holds what it held. */
  lemma MoveInventory(p: Pool, i: nat, w: Worker, t: TargetVM)
    requires i < |p.workers|
    requires Unstored(w, t) == Unstored(p.workers[i], t) && Unrecorded(w, t) == Unrecorded(p.workers[i], t)
    ensures Inventory(p.(workers := p.workers[i := w]), t) == Inventory(p, t)
  {
    SumUpdate(p.workers, i, w, t);
  }

  lemma StoreInventory(p: Pool, q: Pool, i: nat, r: ScrapeResult, t: TargetVM)
    requires i < |p.workers| && p.workers[i] == Scraped(r)
    requires q.queue == p.queue && q.workers == p.workers[i := Stored(r)]
    requires q.recorded == p.recorded
    ensures Inventory(q, t) == Inventory(p, t)
  {
    SumUpdate(p.workers, i, Stored(r), t);
  }

  lemma LogInventory(p: Pool, i: nat, now: nat, t: TargetVM)
    requires Enabled(p, Log(i, now))
    ensures Inventory(Do(p, Log(i, now)), t) == Inventory(p, t)
  {
    SumUpdate(p.workers, i, Waiting, t);
    RecordedOneMore(p.recorded, Record(p.workers[i].res, now), t);
  }

  /** How often a result was stored and is neither in a worker's hand nor recorded. */
  function Unaccounted(p: Pool, r: ScrapeResult): int {
    multiset(p.stored)[r] - SumInHand(p.workers, r) - Reported(p.recorded, r)
  }

  /** Every result stored is recorded, once for each time, by the worker that holds it. */
  lemma StepAccounts(p: Pool, a: Action, r: ScrapeResult)
    requires Enabled(p, a)
    ensures Unaccounted(Do(p, a), r) == Unaccounted(p, r)
  {
    if !a.Cancel? {
      InHandUpdate(p.workers, a.i, Do(p, a).workers[a.i], r);
    }
    if a.Log? {
      ReportedOneMore(p.recorded, Record(p.workers[a.i].res, a.now), r);
    }
  }

  lemma ReportedOneMore(es: seq<Event>, e: Event, r: ScrapeResult)
    ensures Reported(es + [e], r) == Reported(es, r) + if e.Record? && e.res == r then 1 else 0
  {
    assert (es + [e])[..|es + [e]| - 1] == es;
  }

  lemma RecordedOneMore(es: seq<Event>, e: Event, t: TargetVM)
    ensures RecordedFor(es + [e], t) == RecordedFor(es, t) + if e.Record? && e.res.target == t then 1 else 0
  {
    assert (es + [e])[..|es + [e]| - 1] == es;
  }

  lemma StepResults(p: Pool, a: Action)
    requires Enabled(p, a) && ResultsShow(p.results, p.stored) && forall e :: e in p.recorded ==> e.Record?
    ensures var q := Do(p, a); ResultsShow(q.results, q.stored) && forall e :: e in q.recorded ==> e.Record?
  {
    var q := Do(p, a);
    if a.Store? {
      assert forall r :: r in q.stored <==> r in p.stored || r == p.workers[a.i].res;
      var r, n := p.workers[a.i].res, |p.stored|;
      forall i | IsLatest(q.stored, i)
        ensures q.results[q.stored[i].target.vmID] == q.stored[i]
      {
        if i < n {
          assert q.stored[n] == r;
          assert forall j :: i < j < n ==> q.stored[j] == p.stored[j];
          assert IsLatest(p.stored, i);
        }
      }
    }
  }

  lemma StepInv(p: Pool, a: Action, input: seq<TargetVM>)
    requires Inv(p, input) && Enabled(p, a)
    ensures Inv(Do(p, a), input)
  {
    StepResults(p, a);
    forall t
      ensures Inventory(Do(p, a), t) == multiset(input)[t]
    {
      StepInventory(p, a, t);
    }
    forall r
      ensures Unaccounted(Do(p, a), r) == 0
    {
      StepAccounts(p, a, r);
    }
  }

  /** At every moment of every schedule each target is queued, held or finished as often as it was given. */
  lemma {:induction false} TargetsAreConserved(p: Pool, acts: seq<Action>, input: seq<TargetVM>)
    requires Inv(p, input) && Run(p, acts).Some?
    ensures Inv(Run(p, acts).value, input) && |Run(p, acts).value.workers| == |p.workers|
    decreases acts
  {
    if acts != [] {
      StepInv(p, acts[0], input);
      TargetsAreConserved(Do(p, acts[0]), acts[1..], input);
    }
  }

  // --- where results come from

  /** What one step gives as the result of a target: what its scrape answered, or, for a target that is taken after
      the context was cancelled, the context's error. */
  function Outcome(p: Pool, a: Action): seq<ScrapeResult>
    requires Enabled(p, a)
  {
    match a
    case Finish(i, payload, error, latencyMs) => [ScrapeResult(p.workers[i].target, payload, error, latencyMs)]
    case Check(i) => if p.cancelled then [ScrapeResult(p.workers[i].target, "", Some(CANCELLED), 0)] else []
    case _ => []
  }

  function Outcomes(p: Pool, acts: seq<Action>): seq<ScrapeResult>
    requires Run(p, acts).Some?
    decreases acts
  {
    if acts == [] then [] else Outcome(p, acts[0]) + Outcomes(Do(p, acts[0]), acts[1..])
  }

  /** Whether a worker is about to store this very result. */
  function Unstashed(w: Worker, r: ScrapeResult): nat {
    if w == Scraped(r) then 1 else 0
  }

  function SumUnstashed(ws: seq<Worker>, r: ScrapeResult): nat {
    if ws == [] then 0 else Unstashed(ws[0], r) + SumUnstashed(ws[1..], r)
  }

  lemma {:induction false} UnstashedUpdate(ws: seq<Worker>, i: nat, w: Worker, r: ScrapeResult)
    requires i < |ws|
    ensures SumUnstashed(ws[i := w], r) == SumUnstashed(ws, r) - Unstashed(ws[i], r) + Unstashed(w, r)
  {
    if i == 0 {
      assert ws[0 := w][1..] == ws[1..];
    } else {
      assert ws[i := w][1..] == ws[1..][i - 1 := w];
      UnstashedUpdate(ws[1..], i - 1, w, r);
    }
  }

  lemma {:induction false} NothingUnstashed(ws: seq<Worker>, r: ScrapeResult)
    requires forall w :: w in ws ==> w.Waiting? || w.Done?
    ensures SumUnstashed(ws, r) == 0
  {
    if ws != [] {
      assert ws[0] in ws;
      NothingUnstashed(ws[1..], r);
    }
  }

  /** How often a result was stored or is about to be. */
  function Kept(p: Pool, r: ScrapeResult): nat {
    multiset(p.stored)[r] + SumUnstashed(p.workers, r)
  }

  lemma StepKeepsOutcome(p: Pool, a: Action, r: ScrapeResult)
    requires Enabled(p, a)
    ensures Kept(Do(p, a), r) == Kept(p, r) + multiset(Outcome(p, a))[r]
  {
    if !a.Cancel? {
      UnstashedUpdate(p.workers, a.i, Do(p, a).workers[a.i], r);
    }
  }

  lemma {:induction false} RunKeepsOutcomes(p: Pool, acts: seq<Action>, r: ScrapeResult)
    requires Run(p, acts).Some?
    ensures Kept(Run(p, acts).value, r) == Kept(p, r) + multiset(Outcomes(p, acts))[r]
    decreases acts
  {
    if acts != [] {
      StepKeepsOutcome(p, acts[0], r);
      RunKeepsOutcomes(Do(p, acts[0]), acts[1..], r);
    }
  }

  lemma {:induction false} CancelledIff(p: Pool, acts: seq<Action>)
    requires Run(p, acts).Some?
    ensures Run(p, acts).value.cancelled <==> p.cancelled || Cancel in acts
    decreases acts
  {
    if acts != [] {
      CancelledIff(Do(p, acts[0]), acts[1..]);
      assert acts == [acts[0]] + acts[1..];
    }
  }

  /** Step k is where the result comes from: a scrape of its target by the worker that holds the target, with that
      payload, error and duration; or a look at the context by that worker, after a cancellation. */
  ghost predicate IsOrigin(p: Pool, acts: seq<Action>, k: nat, r: ScrapeResult) {
    && k < |acts| && Run(p, acts[..k]).Some?
    && var ws := Run(p, acts[..k]).value.workers;
       match acts[k]
       case Finish(i, payload, error, latencyMs) =>
         && i < |ws| && ws[i] == Scraping(r.target)
         && r.payload == payload && r.error == error && r.latencyMs == latencyMs
       case Check(i) =>
         && i < |ws| && ws[i] == Took(r.target) && (p.cancelled || Cancel in acts[..k])
         && r.payload == "" && r.error == Some("context canceled") && r.latencyMs == 0
       case _ => false
  }

  lemma {:induction false} OutcomeHasOrigin(p: Pool, acts: seq<Action>, r: ScrapeResult) returns (k: nat)
    requires Run(p, acts).Some? && r in Outcomes(p, acts)
    ensures IsOrigin(p, acts, k, r)
    decreases acts
  {
    if r in Outcome(p, acts[0]) {
      k := 0;
    } else {
      k := OutcomeHasOrigin(Do(p, acts[0]), acts[1..], r);
      assert acts[..k + 1][1..] == acts[1..][..k] && acts[..k + 1] == [acts[0]] + acts[1..][..k];
      k := k + 1;
    }
  }

  /** For every schedule: what is stored at the end is exactly what the scrapes answered and what the cancellation
      refused, and so each result returned has its origin in one step. */
  lemma ResultsAreOutcomes(maxWorkers: int, input: seq<TargetVM>, acts: seq<Action>)
    requires Run(Begin(maxWorkers, input), acts).Some? && Finished(Run(Begin(maxWorkers, input), acts).value)
    ensures var p, q := Begin(maxWorkers, input), Run(Begin(maxWorkers, input), acts).value;
      && multiset(q.stored) == multiset(Outcomes(p, acts))
      && forall id :: id in q.results ==> exists k :: IsOrigin(p, acts, k, q.results[id])
  {
    var p, q := Begin(maxWorkers, input), Run(Begin(maxWorkers, input), acts).value;
    var outcomes := Outcomes(p, acts);
    forall r
      ensures multiset(q.stored)[r] == multiset(outcomes)[r]
    {
      RunKeepsOutcomes(p, acts, r);
      NothingUnstashed(p.workers, r);
      NothingUnstashed(q.workers, r);
    }
    BeginInv(maxWorkers, input);
    TargetsAreConserved(p, acts, input);
    forall id | id in q.results
      ensures exists k :: IsOrigin(p, acts, k, q.results[id])
    {
      assert q.results[id] in multiset(outcomes);
      var k := OutcomeHasOrigin(p, acts, q.results[id]);
    }
  }

  // --- bounded concurrency

  function InFlight(ws: seq<Worker>): nat {
    if ws == [] then 0 else (if ws[0].Scraping? then 1 else 0) + InFlight(ws[1..])
  }

  lemma {:induction false} InFlightBound(ws: seq<Worker>)
    ensures InFlight(ws) <= |ws|
  {
    if ws != [] {
      InFlightBound(ws[1..]);
    }
  }

  lemma ConcurrencyIsBounded(maxWorkers: int, input: seq<TargetVM>, acts: seq<Action>)
    requires Run(Begin(maxWorkers, input), acts).Some?
    ensures var n := InFlight(Run(Begin(maxWorkers, input), acts).value.workers);
      n <= |input| && n <= if maxWorkers <= 0 then 8 else maxWorkers
  {
    BeginInv(maxWorkers, input);
    TargetsAreConserved(Begin(maxWorkers, input), acts, input);
    InFlightBound(Run(Begin(maxWorkers, input), acts).value.workers);
  }

  lemma {:induction false} RunConcat(p: Pool, xs: seq<Action>, ys: seq<Action>)
    requires Run(p, xs).Some?
    ensures Run(p, xs + ys) == Run(Run(p, xs).value, ys)
    decreases xs
  {
    if xs == [] {
      assert xs + ys == ys;
    } else {
      assert (xs + ys)[1..] == xs[1..] + ys;
      RunConcat(Do(p, xs[0]), xs[1..], ys);
    }
  }

  /** The first n workers are scraping, the others have not started. */
  ghost predicate Started(ws: seq<Worker>, n: nat) {
    n <= |ws| && forall i :: 0 <= i < |ws| ==> if i < n then ws[i].Scraping? else ws[i].Waiting?
  }

  lemma {:induction false} StartedInFlight(ws: seq<Worker>, n: nat)
    requires Started(ws, n)
    ensures InFlight(ws) == n
  {
    if ws != [] {
      StartedInFlight(ws[1..], if n == 0 then 0 else n - 1);
    }
  }

  lemma {:induction false} StartWorkers(maxWorkers: int, input: seq<TargetVM>, n: nat) returns (acts: seq<Action>)
    requires n <= WorkerCount(maxWorkers, |input|)
    ensures Run(Begin(maxWorkers, input), acts).Some?
    ensures var q := Run(Begin(maxWorkers, input), acts).value;
      Started(q.workers, n) && !q.cancelled && q.queue == input[n..]
      && |q.workers| == WorkerCount(maxWorkers, |input|)
  {
    var p := Begin(maxWorkers, input);
    if n == 0 {
      acts := [];
    } else {
      var front := StartWorkers(maxWorkers, input, n - 1);
      var q, next := Run(p, front).value, [Take(n - 1), Check(n - 1)];
      RunConcat(p, front, next);
      assert next[1..] == [Check(n - 1)] && next[1..][1..] == [];
      var t := Do(q, Take(n - 1));
      assert Run(t, [Check(n - 1)]) == Run(Do(t, Check(n - 1)), []);
      assert Run(q, next) == Run(t, [Check(n - 1)]);
      acts := front + next;
    }
  }

  /** And that many there can be: as many workers start as the limit, eight by default, and the targets allow. */
  lemma ConcurrencyIsReached(maxWorkers: int, input: seq<TargetVM>)
    ensures var limit := if maxWorkers <= 0 then 8 else maxWorkers; var n := if limit < |input| then limit else |input|;
      exists acts :: Run(Begin(maxWorkers, input), acts).Some?
        && InFlight(Run(Begin(maxWorkers, input), acts).value.workers) == n
  {
    var n := WorkerCount(maxWorkers, |input|);
    var acts := StartWorkers(maxWorkers, input, n);
    StartedInFlight(Run(Begin(maxWorkers, input), acts).value.workers, n);
  }

  function Takes(acts: seq<Action>): nat {
    if acts == [] then 0 else (if acts[0].Take? then 1 else 0) + Takes(acts[1..])
  }

  /** Targets leave the channel in the order given. */
  lemma {:induction false} TakenInOrder(p: Pool, acts: seq<Action>)
    requires Run(p, acts).Some?
    ensures Takes(acts) <= |p.queue| && Run(p, acts).value.queue == p.queue[Takes(acts)..]
    decreases acts
  {
    if acts != [] {
      TakenInOrder(Do(p, acts[0]), acts[1..]);
    }
  }

  // --- termination

  function Weight(w: Worker): nat {
    match w
    case Took(_) => 5
    case Scraping(_) => 4
    case Scraped(_) => 3
    case Stored(_) => 2
    case Waiting => 1
    case Done => 0
  }

  function Weights(ws: seq<Worker>): nat {
    if ws == [] then 0 else Weight(ws[0]) + Weights(ws[1..])
  }

  function Measure(p: Pool): nat {
    5 * |p.queue| + Weights(p.workers) + if p.cancelled then 0 else 1
  }

  lemma {:induction false} WeightsUpdate(ws: seq<Worker>, i: nat, w: Worker)
    requires i < |ws|
    ensures Weights(ws[i := w]) == Weights(ws) - Weight(ws[i]) + Weight(w)
  {
    if i == 0 {
      assert ws[0 := w][1..] == ws[1..];
    } else {
      assert ws[i := w][1..] == ws[1..][i - 1 := w];
      WeightsUpdate(ws[1..], i - 1, w);
    }
  }

  lemma StepDecreases(p: Pool, a: Action)
    requires Enabled(p, a)
    ensures Measure(Do(p, a)) < Measure(p)
  {
    if !a.Cancel? {
      WeightsUpdate(p.workers, a.i, Do(p, a).workers[a.i]);
    }
  }

  /** No schedule is longer than the measure, and no worker is ever stuck before the end. */
  lemma {:induction false} PoolEnds(p: Pool, acts: seq<Action>)
    requires Run(p, acts).Some?
    ensures |acts| + Measure(Run(p, acts).value) <= Measure(p)
    decreases acts
  {
    if acts != [] {
      StepDecreases(p, acts[0]);
      PoolEnds(Do(p, acts[0]), acts[1..]);
    }
  }

  /** The one action open to worker i, but for the outcome of its scrape and the time. */
  function Next(p: Pool, i: nat, payload: string, error: Option<string>, latencyMs: nat, now: nat): Action
    requires i < |p.workers| && !p.workers[i].Done?
  {
    match p.workers[i]
    case Waiting => if p.queue == [] then Quit(i) else Take(i)
    case Took(_) => Check(i)
    case Scraping(_) => Finish(i, payload, error, latencyMs)
    case Scraped(_) => Store(i)
    case Stored(_) => Log(i, now)
  }

  lemma NeverStuck(p: Pool, i: nat, payload: string, error: Option<string>, latencyMs: nat, now: nat)
    requires i < |p.workers| && !p.workers[i].Done?
    ensures Enabled(p, Next(p, i, payload, error, latencyMs, now))
  {
  }

  // --- the end

  function IDs(ts: seq<TargetVM>): set<string> { set t | t in ts :: t.vmID }

  lemma {:induction false} ReportedIn(es: seq<Event>, r: ScrapeResult)
    ensures 0 < Reported(es, r) <==> exists e :: e in es && e.Record? && e.res == r
  {
    if es != [] {
      var n := |es| - 1;
      assert es == es[..n] + [es[n]];
      assert forall e :: e in es <==> e in es[..n] || e == es[n];
      ReportedIn(es[..n], r);
    }
  }

  lemma {:induction false} RecordedIn(es: seq<Event>, t: TargetVM)
    ensures 0 < RecordedFor(es, t) <==> exists e :: e in es && e.Record? && e.res.target == t
  {
    if es != [] {
      var n := |es| - 1;
      assert es == es[..n] + [es[n]];
      assert forall e :: e in es <==> e in es[..n] || e == es[n];
      RecordedIn(es[..n], t);
    }
  }

  /** At the end every target is recorded as often as it was given, and exactly the results stored are recorded. */
  lemma FinishedCounts(p: Pool, input: seq<TargetVM>)
    requires Inv(p, input) && Finished(p) && (p.workers == [] ==> input == []) && (p.workers != [] ==> p.queue == [])
    ensures forall t :: RecordedFor(p.recorded, t) == multiset(input)[t]
    ensures forall r :: r in p.stored <==> exists e :: e in p.recorded && e.Record? && e.res == r
  {
    forall t ensures RecordedFor(p.recorded, t) == multiset(input)[t] {
      SumNothing(p.workers, t);
      assert Inventory(p, t) == multiset(input)[t];
    }
    forall r ensures r in p.stored <==> exists e :: e in p.recorded && e.Record? && e.res == r {
      NothingInHand(p.workers, r);
      assert Unaccounted(p, r) == 0;
      ReportedIn(p.recorded, r);
      assert r in p.stored <==> r in multiset(p.stored);
    }
  }

  /** A finished pool has scraped or refused every target: the results are keyed by exactly the ids given, each
      result is for an input target with that id, and the records name exactly those ids. */
  lemma FinishedPool(p: Pool, input: seq<TargetVM>)
    requires Inv(p, input) && Finished(p) && (p.workers == [] ==> input == []) && (p.workers != [] ==> p.queue == [])
    ensures forall t :: RecordedFor(p.recorded, t) == multiset(input)[t]
    ensures p.results.Keys == IDs(input)
    ensures forall id :: id in p.results ==> p.results[id].target in input && p.results[id].target.vmID == id
    ensures RecordedIDs(p.recorded) == IDs(input)
  {
    FinishedCounts(p, input);
    ResultsOfAll(p, input);
    RecordsOfAll(p.recorded, input);
  }

  lemma ResultsOfAll(p: Pool, input: seq<TargetVM>)
    requires ResultsShow(p.results, p.stored) && forall t :: RecordedFor(p.recorded, t) == multiset(input)[t]
    requires forall r :: r in p.stored <==> exists e :: e in p.recorded && e.Record? && e.res == r
    ensures p.results.Keys == IDs(input)
    ensures forall id :: id in p.results ==> p.results[id].target in input && p.results[id].target.vmID == id
  {
    forall r | r in p.stored
      ensures r.target in input
    {
      RecordedIn(p.recorded, r.target);
      assert r.target in multiset(input);
    }
    forall t | t in input
      ensures t.vmID in p.results
    {
      assert t in multiset(input);
      RecordedIn(p.recorded, t);
    }
  }

  function RecordedIDs(es: seq<Event>): set<string> {
    set e | e in es && e.Record? :: e.res.target.vmID
  }

  lemma RecordsOfAll(es: seq<Event>, input: seq<TargetVM>)
    requires forall t :: RecordedFor(es, t) == multiset(input)[t]
    ensures RecordedIDs(es) == IDs(input)
  {
    forall e | e in es && e.Record?
      ensures e.res.target.vmID in IDs(input)
    {
      RecordedIn(es, e.res.target);
      assert e.res.target in multiset(input);
    }
    forall t | t in input
      ensures t.vmID in RecordedIDs(es)
    {
      assert t in multiset(input);
      RecordedIn(es, t);
    }
  }

  /** Workers leave only when the channel is drained. */
  ghost predicate Busy(p: Pool) {
    p.queue != [] ==> forall i :: 0 <= i < |p.workers| ==> !p.workers[i].Done?
  }

  /** What a step adds to the record, and that no worker leaves while the channel has targets. */
  lemma StepRecords(p: Pool, a: Action)
    requires Enabled(p, a) && Busy(p)
    ensures var q := Do(p, a);
      && Busy(q) && |q.workers| == |p.workers|
      && q.recorded == p.recorded + (if a.Log? then [Record(p.workers[a.i].res, a.now)] else [])
  {
  }

  lemma {:induction false} QuittersLeaveNothing(p: Pool, acts: seq<Action>)
    requires Run(p, acts).Some?
    requires Busy(p)
    ensures Busy(Run(p, acts).value)
    decreases acts
  {
    if acts != [] {
      StepRecords(p, acts[0]);
      QuittersLeaveNothing(Do(p, acts[0]), acts[1..]);
    }
  }

  /** Completion, for every schedule and cancellation moment: a run that ends leaves a result for each id given
      and no other, for an input target; and it lasts at most five steps a target, one a worker and one more. */
  lemma ScrapeAllCompletes(maxWorkers: int, input: seq<TargetVM>, acts: seq<Action>)
    requires Run(Begin(maxWorkers, input), acts).Some?
    ensures |acts| <= 5 * |input| + WorkerCount(maxWorkers, |input|) + 1
    ensures var q := Run(Begin(maxWorkers, input), acts).value;
      Finished(q) ==>
        && q.results.Keys == IDs(input)
        && (forall id :: id in q.results ==> q.results[id].target in input && q.results[id].target.vmID == id)
        && forall t :: RecordedFor(q.recorded, t) == multiset(input)[t]
  {
    var p := Begin(maxWorkers, input);
    BeginInv(maxWorkers, input);
    TargetsAreConserved(p, acts, input);
    QuittersLeaveNothing(p, acts);
    PoolEnds(p, acts);
    AllWaiting(p.workers);
    var q := Run(p, acts).value;
    if Finished(q) {
      if q.workers != [] { assert q.workers[0].Done?; }
      FinishedPool(q, input);
    }
  }

  lemma {:induction false} AllWaiting(ws: seq<Worker>)
    requires forall w :: w in ws ==> w.Waiting?
    ensures Weights(ws) == |ws|
  {
    if ws != [] {
      assert ws[0] in ws;
      AllWaiting(ws[1..]);
    }
  }

  /** After a call with no other call between its steps, the status map has a row for each id given, no other. */
  lemma StatusAfterScrapeAll(h: seq<Event>, p: Pool, input: seq<TargetVM>)
    requires Inv(p, input) && Finished(p) && (p.workers == [] ==> input == []) && (p.workers != [] ==> p.queue == [])
    ensures StatusAfter(h + [Prune(IDs(input))] + p.recorded).Keys == IDs(input)
  {
    FinishedPool(p, input);
    var g := h + [Prune(IDs(input))];
    assert g[..|g| - 1] == h;
    KeysAfterRecords(g, p.recorded);
  }

  // --- what the rows show

  ghost predicate DistinctIDs(ts: seq<TargetVM>) {
    forall i, j :: 0 <= i < j < |ts| ==> ts[i].vmID != ts[j].vmID
  }

  lemma {:induction false} DistinctAreOnce(ts: seq<TargetVM>, t: TargetVM)
    requires DistinctIDs(ts)
    ensures multiset(ts)[t] <= 1
  {
    if ts != [] {
      var n := |ts| - 1;
      DistinctAreOnce(ts[..n], t);
      assert ts == ts[..n] + [ts[n]];
      assert ts[n] !in ts[..n];
    }
  }

  lemma {:induction false} RecordedTwice(es: seq<Event>, i: int, j: int, t: TargetVM)
    requires 0 <= i < j < |es| && es[i].Record? && es[j].Record? && es[i].res.target == t == es[j].res.target
    ensures 2 <= RecordedFor(es, t)
  {
    var n := |es| - 1;
    if j < n {
      RecordedTwice(es[..n], i, j, t);
    } else {
      assert es[..n][i] == es[i];
      RecordedIn(es[..n], t);
    }
  }

  /** With distinct ids each id is recorded once, and what is recorded is the result returned for it. */
  lemma RecordedOnce(p: Pool, input: seq<TargetVM>, id: string) returns (k: nat)
    requires Inv(p, input) && Finished(p) && (p.workers == [] ==> input == []) && (p.workers != [] ==> p.queue == [])
    requires DistinctIDs(input) && id in p.results
    ensures k < |p.recorded| && p.recorded[k].Record? && p.recorded[k].res == p.results[id]
    ensures forall j :: 0 <= j < |p.recorded| && j != k ==> !Records(p.recorded[j], id)
  {
    FinishedCounts(p, input);
    FinishedPool(p, input);
    var r := p.results[id];
    var e :| e in p.recorded && e.Record? && e.res == r;
    k :| 0 <= k < |p.recorded| && p.recorded[k] == e;
    forall j | 0 <= j < |p.recorded| && j != k
      ensures !Records(p.recorded[j], id)
    {
      if Records(p.recorded[j], id) {
        var t := p.recorded[j].res.target;
        RecordedIn(p.recorded, t);
        assert t in multiset(input);
        SameIDSameTarget(input, t, r.target);
        RecordedTwice(p.recorded, if j < k then j else k, if j < k then k else j, t);
        DistinctAreOnce(input, t);
      }
    }
  }

  lemma SameIDSameTarget(ts: seq<TargetVM>, s: TargetVM, t: TargetVM)
    requires DistinctIDs(ts) && s in ts && t in ts && s.vmID == t.vmID
    ensures s == t
  {
    var i :| 0 <= i < |ts| && ts[i] == s;
    var j :| 0 <= j < |ts| && ts[j] == t;
  }

  /** With distinct ids and no other call between its steps, every status row afterwards shows the result returned
      for its id, although results and status are written under two locks. */
  lemma RowsShowResults(h: seq<Event>, p: Pool, input: seq<TargetVM>, id: string)
    requires Inv(p, input) && Finished(p) && (p.workers == [] ==> input == []) && (p.workers != [] ==> p.queue == [])
    requires DistinctIDs(input) && id in p.results
    ensures var m := StatusAfter(h + [Prune(IDs(input))] + p.recorded); id in m && ShowsRecord(m[id], p.results[id])
  {
    var k := RecordedOnce(p, input, id);
    FinishedPool(p, input);
    LatestIsShown(h, Prune(IDs(input)), p.recorded, k, id);
  }

  lemma LatestIsShown(h: seq<Event>, first: Event, recs: seq<Event>, k: nat, id: string)
    requires k < |recs| && Records(recs[k], id)
    requires forall j :: 0 <= j < |recs| ==> recs[j].Record? && (j != k ==> !Records(recs[j], id))
    ensures var m := StatusAfter(h + [first] + recs); id in m && ShowsRecord(m[id], recs[k].res)
  {
    var g := h + [first] + recs;
    var i := |h| + 1 + k;
    assert forall j :: |h| + 1 <= j < |g| ==> g[j] == recs[j - |h| - 1];
    assert LatestAt(g, i, id);
    StatusRefinesHistory(g, id);
  }

  /** All that a call of ScrapeAll with no other call between its steps leaves. */
  lemma ScrapeAllLeaves(h: seq<Event>, p: Pool, input: seq<TargetVM>)
    requires Inv(p, input) && Finished(p) && (p.workers == [] ==> input == []) && (p.workers != [] ==> p.queue == [])
    ensures var m := StatusAfter(h + [Prune(IDs(input))] + p.recorded);
      && m.Keys == IDs(input) == p.results.Keys
      && (forall id :: id in p.results ==> p.results[id].target in input && p.results[id].target.vmID == id)
      && (forall t :: RecordedFor(p.recorded, t) == multiset(input)[t])
      && (DistinctIDs(input) ==> forall id :: id in p.results ==> ShowsRecord(m[id], p.results[id]))
  {
    FinishedPool(p, input);
    StatusAfterScrapeAll(h, p, input);
    if DistinctIDs(input) {
      forall id | id in p.results
        ensures ShowsRecord(StatusAfter(h + [Prune(IDs(input))] + p.recorded)[id], p.results[id])
      {
        RowsShowResults(h, p, input, id);
      }
    }
  }
}
