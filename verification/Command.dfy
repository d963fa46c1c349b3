/** Running commands. Each command takes effect at once or not at all, and any command may be reported as
    failed: because the kernel or the database refuses it, or for a reason of its own (a timeout, a kill). */
module Command {
  import opened Kernel

  /** One entry of the schedule of faults. A fault has an arbitrary error text, and the command may have
      taken effect before it was reported as failed. */
  datatype Fault = Clean | Fault(text: ErrText, applied: bool)

  datatype Reply = Ok | Err(text: ErrText)

  /** A command that was issued, whether it took effect, and what the agent was told. */
  datatype Event = Event(cmd: Cmd, took: bool, reply: Reply)

  /** The world, the faults still to come (none after the last one listed) and the commands issued so far. */
  datatype Sys = Sys(world: World, faults: seq<Fault>, log: seq<Event>)

  datatype Ran = Ran(sys: Sys, reply: Reply)
  datatype Out = Out(sys: Sys, ok: bool)
  datatype Found = Found(sys: Sys, found: bool, ok: bool)

  function Exec(s: Sys, c: Cmd): Ran {
    var fault := if s.faults == [] then Clean else s.faults[0];
    var rest := if s.faults == [] then [] else s.faults[1..];
    var accepted := Accepts(s.world, c);
    var took := if fault.Clean? then accepted else accepted && fault.applied;
    var reply := if fault.Fault? then Err(fault.text) else if accepted then Ok else Err(Refusal(s.world, c));
    Ran(Sys(if took then Effect(s.world, c) else s.world, rest, s.log + [Event(c, took, reply)]), reply)
  }

  function Do(s: Sys, c: Cmd): Out {
    var r := Exec(s, c);
    Out(r.sys, r.reply.Ok?)
  }

  /** Runs the commands in order and stops at the first one that fails. */
  function Script(s: Sys, cs: seq<Cmd>): Out
    decreases cs
  {
    if cs == [] then Out(s, true)
    else
      var r := Do(s, cs[0]);
      if r.ok then Script(r.sys, cs[1..]) else r
  }

  lemma ScriptOne(s: Sys, c: Cmd)
    ensures Script(s, [c]) == Do(s, c)
  {
    assert Script(Do(s, c).sys, [c][1..]) == Out(Do(s, c).sys, true);
  }

  lemma {:induction false} ScriptConcat(s: Sys, xs: seq<Cmd>, ys: seq<Cmd>)
    ensures Script(s, xs + ys) == if Script(s, xs).ok then Script(Script(s, xs).sys, ys) else Script(s, xs)
    decreases xs
  {
    if xs == [] {
      assert xs + ys == ys;
    } else {
      assert (xs + ys)[1..] == xs[1..] + ys;
      var r := Do(s, xs[0]);
      if r.ok {
        ScriptConcat(r.sys, xs[1..], ys);
      }
    }
  }

  /** The commands that take effect decide the world. */
  function Play(w: World, e: Event): World {
    if e.took then Apply(w, e.cmd) else w
  }

  function Replay(w: World, es: seq<Event>): World
    decreases es
  {
    if es == [] then w else Replay(Play(w, es[0]), es[1..])
  }

  lemma {:induction false} ReplayConcat(w: World, xs: seq<Event>, ys: seq<Event>)
    ensures Replay(w, xs + ys) == Replay(Replay(w, xs), ys)
    decreases xs
  {
    if xs == [] {
      assert xs + ys == ys;
    } else {
      assert (xs + ys)[1..] == xs[1..] + ys;
      ReplayConcat(Play(w, xs[0]), xs[1..], ys);
    }
  }

  /** What was issued between two states of one run. */
  function Since(s: Sys, t: Sys): seq<Event> {
    if |s.log| <= |t.log| then t.log[|s.log|..] else []
  }

  /** t comes after s in a run: the log has grown, and what it gained explains the change of the world. */
  ghost predicate Follows(s: Sys, t: Sys) {
    s.log <= t.log && t.world == Replay(s.world, Since(s, t))
  }

  lemma FollowsTransitive(s: Sys, t: Sys, u: Sys)
    requires Follows(s, t) && Follows(t, u)
    ensures Follows(s, u) && Since(s, u) == Since(s, t) + Since(t, u)
  {
    assert Since(s, u) == Since(s, t) + Since(t, u);
    ReplayConcat(s.world, Since(s, t), Since(t, u));
  }

  lemma ExecFollows(s: Sys, c: Cmd)
    ensures var t := Exec(s, c).sys;
      Follows(s, t) && |t.log| == |s.log| + 1 && Since(s, t) == [t.log[|s.log|]] && Since(s, t)[0].cmd == c
  {
    var t := Exec(s, c).sys;
    var e := t.log[|s.log|];
    assert Since(s, t) == [e];
    assert Replay(s.world, [e]) == Replay(Play(s.world, e), [e][1..]);
    assert [e][1..] == [];
  }

  /** Some line starts with the field n. */
  ghost predicate ListsName(lines: seq<seq<string>>, n: string) {
    exists i :: 0 <= i < |lines| && 0 < |lines[i]| && lines[i][0] == n
  }

  lemma ListsNameOnceMore(lines: seq<seq<string>>, n: string)
    ensures forall m :: ListsName(lines + [[n, "(id:", "0)"]], m) <==> m == n || ListsName(lines, m)
  {
    var more := lines + [[n, "(id:", "0)"]];
    assert more[|lines|][0] == n;
    forall m | ListsName(lines, m)
      ensures ListsName(more, m)
    {
      var i :| 0 <= i < |lines| && 0 < |lines[i]| && lines[i][0] == m;
      assert more[i] == lines[i];
    }
  }

  /** Runs one command at a time against the stores; stands for os/exec. */
  class CommandRunner {
    var sys: Sys

    constructor (world: World, faults: seq<Fault>)
      ensures sys == Sys(world, faults, [])
    {
      sys := Sys(world, faults, []);
    }

    method Run(c: Cmd) returns (reply: Reply)
      modifies this
      ensures Ran(sys, reply) == Exec(old(sys), c)
    {
      var r := Exec(sys, c);
      sys := r.sys;
      reply := r.reply;
    }

    /** ip netns list: a line for each namespace, in any order, its name first; other lines are blank. */
    method RunNetnsList() returns (reply: Reply, lines: seq<seq<string>>)
      modifies this
      ensures Ran(sys, reply) == Exec(old(sys), NetnsList)
      ensures forall n :: n in sys.world.netns <==> ListsName(lines, n)
    {
      reply := Run(NetnsList);
      var todo := sys.world.netns.Keys;
      lines := [[]];
      while todo != {}
        invariant Ran(sys, reply) == Exec(old(sys), NetnsList)
        invariant todo <= sys.world.netns.Keys
        invariant forall n :: ListsName(lines, n) <==> n in sys.world.netns.Keys - todo
        decreases todo
      {
        var n :| n in todo;
        ListsNameOnceMore(lines, n);
        lines := lines + [[n, "(id:", "0)"]];
        todo := todo - {n};
      }
    }
  }
}
