/** The metrics cache under overlapping requests and target updates. One action is one step between two
    points where requests can interleave; time only moves forward. */
module Freshness {
  import opened Api

  type Targets = seq<TargetVM>

  /** A served body remembers the target list it was built from and the instant that list was read. */
  datatype Body = Body(text: string, list: Targets, readAt: nat)

  datatype Request =
    | Missed(clock: nat)                                  // past the cache check
    | Scraping(clock: nat, list: Targets, readAt: nat)    // has its copy of the targets
    | Served(clock: nat, body: Body)
    | Failed(clock: nat)                                  // encoding failed: an error is sent

  /** held lists the coordinator's target lists, each with the instant from which it was held. */
  datatype State = State(
    now: nat, held: seq<(nat, Targets)>, cached: Option<Body>, lastScrape: nat, requests: seq<Request>)

  datatype Action =
    | Tick(delta: nat)
    | SetTargets(list: Targets)
    | Arrive
    | ReadTargets(r: nat)
    | Finish(r: nat, text: string)
    | Fail(r: nat)

  function Init(targets: Targets): State { State(0, [(0, targets)], None, 0, []) }

  /** The cache is used when it is not empty and less than ttl old. */
  predicate Hit(s: State, ttl: nat) {
    s.cached.Some? && 0 < |s.cached.value.text| && s.now - s.lastScrape < ttl
  }

  predicate Enabled(s: State, a: Action) {
    match a
    case ReadTargets(r) => r < |s.requests| && s.requests[r].Missed?
    case Finish(r, _) => r < |s.requests| && s.requests[r].Scraping?
    case Fail(r) => r < |s.requests| && s.requests[r].Scraping?
    case _ => true
  }

  function Do(s: State, ttl: nat, a: Action): State
    requires Enabled(s, a) && s.held != []
  {
    match a
    case Tick(delta) => s.(now := s.now + delta)
    case SetTargets(list) => s.(held := s.held + [(s.now, list)])
    case Arrive => s.(requests := s.requests + [if Hit(s, ttl) then Served(s.now, s.cached.value) else Missed(s.now)])
    case ReadTargets(r) =>
      s.(requests := s.requests[r := Scraping(s.requests[r].clock, s.held[|s.held| - 1].1, s.now)])
    case Finish(r, text) =>
      var q := s.requests[r];
      var body := Body(text, q.list, q.readAt);
      s.(requests := s.requests[r := Served(q.clock, body)], cached := Some(body), lastScrape := q.clock)
    case Fail(r) => s.(requests := s.requests[r := Failed(s.requests[r].clock)])
  }

  function Run(s: State, ttl: nat, acts: seq<Action>): Option<State>
    requires s.held != []
    decreases acts
  {
    if acts == [] then Some(s)
    else if !Enabled(s, acts[0]) then None
    else Run(Do(s, ttl, acts[0]), ttl, acts[1..])
  }

  /** The coordinator held this list at this instant. */
  ghost predicate HeldAt(held: seq<(nat, Targets)>, list: Targets, at: nat) {
    exists i :: 0 <= i < |held| && held[i].1 == list && held[i].0 <= at
      && (i + 1 < |held| ==> at <= held[i + 1].0)
  }

  ghost predicate Genuine(s: State, b: Body) {
    b.readAt <= s.now && HeldAt(s.held, b.list, b.readAt)
  }

  ghost predicate RequestInv(s: State, ttl: nat, q: Request) {
    && q.clock <= s.now
    && (q.Scraping? ==> q.clock <= q.readAt <= s.now && HeldAt(s.held, q.list, q.readAt))
    && (q.Served? ==> Genuine(s, q.body) && q.clock < q.body.readAt + ttl)
  }

  ghost predicate Inv(s: State, ttl: nat) {
    && s.held != []
    && (forall i :: 0 <= i < |s.held| ==> s.held[i].0 <= s.now)
    && (s.cached.Some? ==> Genuine(s, s.cached.value) && s.lastScrape <= s.cached.value.readAt)
    && (forall r :: 0 <= r < |s.requests| ==> RequestInv(s, ttl, s.requests[r]))
  }

  lemma HeldStays(held: seq<(nat, Targets)>, now: nat, new_: Targets)
    requires held != []
    ensures forall list, at: nat :: at <= now && HeldAt(held, list, at) ==> HeldAt(held + [(now, new_)], list, at)
  {
    var more := held + [(now, new_)];
    forall list, at: nat | at <= now && HeldAt(held, list, at)
      ensures HeldAt(more, list, at)
    {
      var i :| 0 <= i < |held| && held[i].1 == list && held[i].0 <= at && (i + 1 < |held| ==> at <= held[i + 1].0);
      assert more[|held|] == (now, new_);
      assert more[i] == held[i] && (i + 1 < |held| ==> more[i + 1] == held[i + 1]);
    }
  }

  lemma StepInv(s: State, ttl: nat, a: Action)
    requires 0 < ttl && Inv(s, ttl) && Enabled(s, a)
    ensures Inv(Do(s, ttl, a), ttl)
  {
    match a
    case SetTargets(list) => HeldStays(s.held, s.now, list);
    case ReadTargets(r) =>
      var n := |s.held| - 1;
      assert HeldAt(s.held, s.held[n].1, s.now);
    case _ =>
  }

  /** Freshness, for every interleaving: a body served to a request that read the clock at T was built from a
      list that the coordinator held at an instant later than T - ttl. */
  lemma {:induction false} ServedBodiesAreFresh(s: State, ttl: nat, acts: seq<Action>)
    requires 0 < ttl && Inv(s, ttl) && Run(s, ttl, acts).Some?
    ensures var t := Run(s, ttl, acts).value;
      && Inv(t, ttl)
      && forall r :: 0 <= r < |t.requests| && t.requests[r].Served? ==>
           var q := t.requests[r];
           HeldAt(t.held, q.body.list, q.body.readAt) && q.body.readAt > q.clock - ttl
    decreases acts
  {
    if acts != [] {
      StepInv(s, ttl, acts[0]);
      ServedBodiesAreFresh(Do(s, ttl, acts[0]), ttl, acts[1..]);
    }
  }

  lemma InitInv(targets: Targets, ttl: nat)
    ensures Inv(Init(targets), ttl)
  {
  }

  /** Two overlapping misses, the later one finishing first: lastScrape moves backwards. */
  lemma LastScrapeCanGoBack(targets: Targets, text: string)
    ensures var s := Do(Do(Do(Do(Do(Do(Init(targets), 5, Arrive), 5, Tick(1)), 5, Arrive), 5, ReadTargets(1)),
                              5, ReadTargets(0)), 5, Finish(1, text));
      s.lastScrape == 1 && Do(s, 5, Finish(0, text)).lastScrape == 0
  {
    var s1 := Do(Init(targets), 5, Arrive);
    assert s1.requests == [Missed(0)];
    var s3 := Do(Do(s1, 5, Tick(1)), 5, Arrive);
    assert s3.requests == [Missed(0), Missed(1)];
    var s5 := Do(Do(s3, 5, ReadTargets(1)), 5, ReadTargets(0));
    assert s5.requests == [Scraping(0, targets, 1), Scraping(1, targets, 1)];
  }

  /** What a finished miss leaves is what later requests get: until the clock that it read is ttl old, and no other
      miss has finished, a request is served that very body, built from that very list, and scrapes nothing. An
      empty body, or one too old, is not used. */
  lemma FinishedMissIsServed(s: State, ttl: nat, r: nat, text: string, wait: nat, list: Targets)
    requires s.held != [] && Enabled(s, Finish(r, text))
    ensures var q := s.requests[r];
      var t := Do(Do(Do(s, ttl, Finish(r, text)), ttl, SetTargets(list)), ttl, Tick(wait));
      var late := Do(t, ttl, Arrive).requests[|s.requests|];
      if text != "" && s.now + wait < q.clock + ttl
      then late == Served(s.now + wait, Body(text, q.list, q.readAt))
      else late == Missed(s.now + wait)
  {
  }

  /** A miss whose encoding fails leaves the cache as it was: a later request finds what it would have found. */
  lemma FailedMissLeavesTheCache(s: State, ttl: nat, r: nat)
    requires s.held != [] && Enabled(s, Fail(r))
    ensures var t := Do(s, ttl, Fail(r));
      Do(t, ttl, Arrive).requests[|s.requests|] == Do(s, ttl, Arrive).requests[|s.requests|]
  {
  }
}
