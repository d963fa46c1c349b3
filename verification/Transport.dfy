/** The per-namespace client cache of pkg/transport, with overlapping callers. */
module Transport {
  import opened Api

  /** A client and the namespace its dialer enters. */
  datatype Client = Client(id: nat, dialNS: string)

  datatype Caller =
    | Asking(ns: string)          // before the read lock
    | Missing(ns: string)         // missed under the read lock, before the write lock
    | Holding(ns: string, client: Client)

  datatype State = State(clients: map<string, Client>, made: nat, callers: seq<Caller>)

  datatype Action = Call(ns: string) | Read(i: nat) | Write(i: nat)

  predicate Enabled(s: State, a: Action) {
    match a
    case Call(_) => true
    case Read(i) => i < |s.callers| && s.callers[i].Asking?
    case Write(i) => i < |s.callers| && s.callers[i].Missing?
  }

  function Do(s: State, a: Action): State
    requires Enabled(s, a)
  {
    match a
    case Call(ns) => s.(callers := s.callers + [Asking(ns)])
    case Read(i) =>
      var ns := s.callers[i].ns;
      s.(callers := s.callers[i := if ns in s.clients then Holding(ns, s.clients[ns]) else Missing(ns)])
    case Write(i) =>
      var ns := s.callers[i].ns;
      if ns in s.clients then s.(callers := s.callers[i := Holding(ns, s.clients[ns])])
      else
        var c := Client(s.made, ns);
        State(s.clients[ns := c], s.made + 1, s.callers[i := Holding(ns, c)])
  }

  function Run(s: State, acts: seq<Action>): Option<State>
    decreases acts
  {
    if acts == [] then Some(s) else if !Enabled(s, acts[0]) then None else Run(Do(s, acts[0]), acts[1..])
  }

  const START := State(map[], 0, [])

  ghost predicate Inv(s: State) {
    && (forall ns :: ns in s.clients ==> s.clients[ns].dialNS == ns && s.clients[ns].id < s.made)
    && (forall ns, ms :: ns in s.clients && ms in s.clients && ns != ms ==> s.clients[ns].id != s.clients[ms].id)
    && (forall i :: 0 <= i < |s.callers| && s.callers[i].Holding? ==>
          s.callers[i].ns in s.clients && s.callers[i].client == s.clients[s.callers[i].ns])
  }

  lemma {:induction false} RunInv(s: State, acts: seq<Action>)
    requires Inv(s) && Run(s, acts).Some?
    ensures Inv(Run(s, acts).value)
    decreases acts
  {
    if acts != [] {
      RunInv(Do(s, acts[0]), acts[1..]);
    }
  }

  /** Under any interleaving all calls for one namespace, ever, return the same client, which dials in that
      namespace; calls for different namespaces never share one. */
  lemma OneClientPerNamespace(acts: seq<Action>, i: nat, j: nat)
    requires Run(START, acts).Some?
    requires var s := Run(START, acts).value;
      i < |s.callers| && j < |s.callers| && s.callers[i].Holding? && s.callers[j].Holding?
    ensures var s := Run(START, acts).value; var a, b := s.callers[i], s.callers[j];
      (a.ns == b.ns <==> a.client == b.client) && a.client.dialNS == a.ns
  {
    RunInv(START, acts);
  }

  // --- what the second look is for

  /** The same step where the miss path inserts without looking again. */
  function Blind(s: State, a: Action): State
    requires Enabled(s, a)
  {
    if !a.Write? then Do(s, a)
    else
      var ns, c := s.callers[a.i].ns, Client(s.made, s.callers[a.i].ns);
      State(s.clients[ns := c], s.made + 1, s.callers[a.i := Holding(ns, c)])
  }

  function BlindRun(s: State, acts: seq<Action>): Option<State>
    decreases acts
  {
    if acts == [] then Some(s) else if !Enabled(s, acts[0]) then None else BlindRun(Blind(s, acts[0]), acts[1..])
  }

  /** Two callers of one namespace that both miss before either writes: without the second look they end with
      different clients, with it they share one. */
  lemma WithoutRecheckTwoClients(ns: string)
    ensures var acts := [Call(ns), Call(ns), Read(0), Read(1), Write(0), Write(1)];
      && BlindRun(START, acts) == Some(State(map[ns := Client(1, ns)], 2,
           [Holding(ns, Client(0, ns)), Holding(ns, Client(1, ns))]))
      && Run(START, acts) == Some(State(map[ns := Client(0, ns)], 1,
           [Holding(ns, Client(0, ns)), Holding(ns, Client(0, ns))]))
  {
    var acts := [Call(ns), Call(ns), Read(0), Read(1), Write(0), Write(1)];
    var missed := State(map[], 0, [Missing(ns), Missing(ns)]);
    BothMiss(ns, acts[4..]);
    assert acts == [Call(ns), Call(ns), Read(0), Read(1)] + acts[4..];
    var s := Do(missed, Write(0));
    assert s == State(map[ns := Client(0, ns)], 1, [Holding(ns, Client(0, ns)), Missing(ns)]);
    assert acts[4..] == [Write(0), Write(1)] && acts[4..][1..] == [Write(1)] && [Write(1)][1..] == [];
    assert Blind(missed, Write(0)) == s;
    assert Do(s, Write(1)).callers == [Holding(ns, Client(0, ns)), Holding(ns, Client(0, ns))];
    assert Blind(s, Write(1)).callers == [Holding(ns, Client(0, ns)), Holding(ns, Client(1, ns))];
    assert Blind(s, Write(1)).clients == map[ns := Client(1, ns)];
    assert Run(s, [Write(1)]) == Some(Do(s, Write(1)));
    assert BlindRun(s, [Write(1)]) == Some(Blind(s, Write(1)));
  }

  lemma BothMiss(ns: string, rest: seq<Action>)
    ensures var acts := [Call(ns), Call(ns), Read(0), Read(1)] + rest;
      var missed := State(map[], 0, [Missing(ns), Missing(ns)]);
      Run(START, acts) == Run(missed, rest) && BlindRun(START, acts) == BlindRun(missed, rest)
  {
    var acts := [Call(ns), Call(ns), Read(0), Read(1)] + rest;
    var s1, s2 := State(map[], 0, [Asking(ns)]), State(map[], 0, [Asking(ns), Asking(ns)]);
    var s3, s4 := State(map[], 0, [Missing(ns), Asking(ns)]), State(map[], 0, [Missing(ns), Missing(ns)]);
    assert Do(START, Call(ns)) == s1 && Do(s1, Call(ns)) == s2 && Do(s2, Read(0)) == s3 && Do(s3, Read(1)) == s4;
    assert acts[1..][1..] == acts[2..] && acts[2..][1..] == acts[3..] && acts[3..][1..] == acts[4..] == rest;
    assert Run(s3, acts[3..]) == Run(s4, rest) && BlindRun(s3, acts[3..]) == BlindRun(s4, rest);
    assert Run(s2, acts[2..]) == Run(s3, acts[3..]) && BlindRun(s2, acts[2..]) == BlindRun(s3, acts[3..]);
    assert Run(s1, acts[1..]) == Run(s2, acts[2..]) && BlindRun(s1, acts[1..]) == BlindRun(s2, acts[2..]);
  }

  class HTTPTransport {
    var clients: map<string, Client>
    var made: nat

    ghost predicate Valid()
      reads this
    {
      Inv(State(clients, made, []))
    }

    constructor ()
      ensures Valid() && clients == map[]
    {
      clients, made := map[], 0;
    }

    /** The cache only grows, and no client in it is ever replaced. */
    twostate predicate Grows()
      reads this
    {
      forall ns :: ns in old(clients) ==> ns in clients && clients[ns] == old(clients)[ns]
    }

    /** Whatever other callers do while this one holds no lock. */
    method Others()
      requires Valid()
      modifies this
      ensures Valid() && Grows()
    {
      var calls: int := *;
      while 0 < calls
        invariant Valid() && Grows()
        decreases calls
      {
        calls := calls - 1;
        var netns: string := *;
        if netns !in clients {
          var _ := Insert(netns);
        }
      }
    }

    method Insert(netns: string) returns (c: Client)
      requires Valid() && netns !in clients
      modifies this
      ensures Valid() && c.dialNS == netns && clients == old(clients)[netns := c]
    {
      c := Client(made, netns);
      made := made + 1;
      clients := clients[netns := c];
    }

    /** Whatever others do between the two locks, the client returned is the one in the cache, and it dials in the
        namespace asked for; a client cached before is never replaced. */
    method GetClient(netns: string) returns (c: Client)
      requires Valid()
      modifies this
      ensures Valid() && Grows()
      ensures netns in clients && clients[netns] == c && c.dialNS == netns
    {
      if netns in clients {
        return clients[netns];
      }
      Others();
      if netns in clients {
        return clients[netns];
      }
      c := Insert(netns);
    }
  }
}
