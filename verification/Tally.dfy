/** What the ids in a sequence give together, whatever the order in which a loop meets them. */
module Tally {
  import opened Order

  function Total<T>(f: string -> multiset<T>, order: seq<string>): multiset<T> {
    if order == [] then multiset{} else Total(f, order[..|order| - 1]) + f(order[|order| - 1])
  }

  lemma TotalOneMore<T>(f: string -> multiset<T>, order: seq<string>, h: string)
    ensures Total(f, order + [h]) == Total(f, order) + f(h)
  {
    assert (order + [h])[..|order|] == order;
  }

  /** One id can be taken out from wherever it stands. */
  lemma {:induction false} TotalTakeOut<T>(f: string -> multiset<T>, front: seq<string>, h: string, back: seq<string>)
    ensures Total(f, front + [h] + back) == Total(f, front + back) + f(h)
    decreases back
  {
    if back == [] {
      assert front + [h] + back == front + [h] && front + back == front;
      TotalOneMore(f, front, h);
    } else {
      var most, last := back[..|back| - 1], back[|back| - 1];
      TotalTakeOut(f, front, h, most);
      assert front + [h] + back == (front + [h] + most) + [last];
      assert front + back == (front + most) + [last];
      TotalOneMore(f, front + [h] + most, last);
      TotalOneMore(f, front + most, last);
      Commute(Total(f, front + most), f(h), f(last));
    }
  }

  lemma Commute<T>(a: multiset<T>, b: multiset<T>, c: multiset<T>)
    ensures a + b + c == a + c + b
  {
  }

  /** An enumeration cut around one of its ids. */
  lemma CutAround(order: seq<string>, keys: set<string>, h: string) returns (front: seq<string>, back: seq<string>)
    requires Enumerates(order, keys) && h in keys
    ensures order == front + [h] + back && Enumerates(front + back, keys - {h})
  {
    var i :| 0 <= i < |order| && order[i] == h;
    front, back := order[..i], order[i + 1..];
    forall x ensures x in front + back <==> x in keys - {h} {
      if x in keys && x != h {
        var j :| 0 <= j < |order| && order[j] == x;
        assert (front + back)[if j < i then j else j - 1] == x;
      }
    }
  }

  lemma {:induction false} TotalInAnyOrder<T>(
    f: string -> multiset<T>, o: seq<string>, p: seq<string>, keys: set<string>)
    requires Enumerates(o, keys) && Enumerates(p, keys)
    ensures Total(f, o) == Total(f, p)
    decreases o
  {
    if o == [] {
      EnumerationLength(o, keys);
      EnumerationLength(p, keys);
    } else {
      var most, h := o[..|o| - 1], o[|o| - 1];
      assert o == most + [h];
      var front, back := CutAround(p, keys, h);
      TotalTakeOut(f, front, h, back);
      TotalInAnyOrder(f, most, front + back, keys - {h});
    }
  }

  lemma {:induction false} TotalElsewhere<T>(f: string -> multiset<T>, g: string -> multiset<T>, order: seq<string>)
    requires forall h :: h in order ==> f(h) == g(h)
    ensures Total(f, order) == Total(g, order)
    decreases order
  {
    if order != [] {
      TotalElsewhere(f, g, order[..|order| - 1]);
    }
  }

  /** Where two runs differ in what one id gives, their totals differ in just that, for any two orders. */
  lemma TotalIsIsolated<T>(
    f: string -> multiset<T>, g: string -> multiset<T>, id: string, keys: set<string>, o: seq<string>, p: seq<string>)
    returns (rest: multiset<T>)
    requires Enumerates(o, keys) && Enumerates(p, keys) && id in keys
    requires forall h :: h in keys && h != id ==> f(h) == g(h)
    ensures Total(f, o) == rest + f(id) && Total(g, p) == rest + g(id)
  {
    var front, back := CutAround(o, keys, id);
    rest := Total(f, front + back);
    TotalTakeOut(f, front, id, back);
    TotalInAnyOrder(g, o, p, keys);
    TotalTakeOut(g, front, id, back);
    TotalElsewhere(f, g, front + back);
  }

  /** A loop that appends one element for each id. */
  lemma {:induction false} TotalOfEach<T>(f: string -> multiset<T>, order: seq<string>, ts: seq<T>)
    requires |ts| == |order| && forall i :: 0 <= i < |order| ==> f(order[i]) == multiset{ts[i]}
    ensures multiset(ts) == Total(f, order)
    decreases order
  {
    if order != [] {
      var n := |order| - 1;
      TotalOfEach(f, order[..n], ts[..n]);
      assert ts == ts[..n] + [ts[n]];
    } else {
      assert ts == [];
    }
  }

  lemma {:induction false} TotalOfNothing<T>(f: string -> multiset<T>, order: seq<string>)
    requires forall h :: h in order ==> f(h) == multiset{}
    ensures Total(f, order) == multiset{}
    decreases order
  {
    if order != [] {
      TotalOfNothing(f, order[..|order| - 1]);
    }
  }

  /** What is in the total was given by some id, and what an id gives is in the total. */
  lemma {:induction false} TotalHas<T>(f: string -> multiset<T>, order: seq<string>, x: T)
    ensures x in Total(f, order) <==> exists h :: h in order && x in f(h)
    decreases order
  {
    if order != [] {
      var most, last := order[..|order| - 1], order[|order| - 1];
      TotalHas(f, most, x);
      assert order == most + [last];
      assert x in Total(f, order) <==> x in Total(f, most) || x in f(last);
    }
  }

  function SumOf(sizes: string -> nat, order: seq<string>): nat {
    if order == [] then 0 else SumOf(sizes, order[..|order| - 1]) + sizes(order[|order| - 1])
  }

  lemma {:induction false} TotalSize<T>(f: string -> multiset<T>, sizes: string -> nat, order: seq<string>)
    requires forall h :: h in order ==> |f(h)| == sizes(h)
    ensures |Total(f, order)| == SumOf(sizes, order)
    decreases order
  {
    if order != [] {
      TotalSize(f, sizes, order[..|order| - 1]);
    }
  }
}
