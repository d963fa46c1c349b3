/** Byte-wise string order, and sorting by a string key; stands for sort.Slice and sort.Strings. */
module Order {
  predicate Less(a: string, b: string) {
    |b| != 0 && (|a| == 0 || a[0] < b[0] || (a[0] == b[0] && Less(a[1..], b[1..])))
  }

  lemma {:induction false} LessIsTotal(a: string, b: string)
    ensures a == b || Less(a, b) || Less(b, a)
    ensures !(Less(a, b) && Less(b, a)) && !Less(a, a)
  {
    if |a| != 0 && |b| != 0 {
      LessIsTotal(a[1..], b[1..]);
      LessIsTotal(a[1..], a[1..]);
      assert a == [a[0]] + a[1..] && b == [b[0]] + b[1..];
    } else if |a| != 0 {
      LessIsTotal(a[1..], a[1..]);
    }
  }

  lemma {:induction false} LessIsTransitive(a: string, b: string, c: string)
    requires Less(a, b) && Less(b, c)
    ensures Less(a, c)
  {
    if |a| != 0 && a[0] == b[0] == c[0] {
      LessIsTransitive(a[1..], b[1..], c[1..]);
    }
  }

  /** a is a proper prefix of b, or has the smaller character where they first differ. */
  ghost predicate LessAt(a: string, b: string, k: int) {
    0 <= k <= |a| && k < |b| && a[..k] == b[..k] && (k == |a| || a[k] < b[k])
  }

  lemma FirstDecides(a: string, b: string, k: int)
    requires LessAt(a, b, k)
    ensures |b| > 0 && (|a| == 0 || a[0] < b[0] || (a[0] == b[0] && k > 0))
  {
    if k > 0 {
      assert a[0] == a[..k][0] && b[0] == b[..k][0];
    }
  }

  lemma {:induction false} LessIsLexicographic(a: string, b: string)
    ensures Less(a, b) <==> exists k :: LessAt(a, b, k)
  {
    if |a| == 0 || |b| == 0 || a[0] != b[0] {
      assert |b| != 0 && (|a| == 0 || a[0] < b[0]) ==> LessAt(a, b, 0);
      forall k | LessAt(a, b, k)
        ensures Less(a, b)
      {
        FirstDecides(a, b, k);
      }
    } else {
      LessIsLexicographic(a[1..], b[1..]);
      forall k | LessAt(a[1..], b[1..], k)
        ensures LessAt(a, b, k + 1)
      {
        assert a[..k + 1] == [a[0]] + a[1..][..k] && b[..k + 1] == [b[0]] + b[1..][..k];
      }
      forall k | LessAt(a, b, k)
        ensures k > 0 && LessAt(a[1..], b[1..], k - 1)
      {
        assert a[1..][..k - 1] == a[..k][1..] && b[1..][..k - 1] == b[..k][1..];
      }
    }
  }

  ghost predicate StrictlySorted<T>(s: seq<T>, key: T -> string) {
    forall i, j :: 0 <= i < j < |s| ==> Less(key(s[i]), key(s[j]))
  }

  ghost predicate DistinctKeys<T>(s: seq<T>, key: T -> string) {
    forall i, j :: 0 <= i < j < |s| ==> key(s[i]) != key(s[j])
  }

  /** x put in front of the first element with a larger key. */
  function Insert<T>(x: T, s: seq<T>, key: T -> string): seq<T> {
    if s == [] then [x]
    else if Less(key(x), key(s[0])) then [x] + s
    else [s[0]] + Insert(x, s[1..], key)
  }

  function Sort<T>(s: seq<T>, key: T -> string): seq<T> {
    if s == [] then [] else Insert(s[0], Sort(s[1..], key), key)
  }

  lemma {:induction false} InsertSorts<T>(x: T, s: seq<T>, key: T -> string)
    requires StrictlySorted(s, key) && forall y :: y in s ==> key(y) != key(x)
    ensures StrictlySorted(Insert(x, s, key), key)
    ensures multiset(Insert(x, s, key)) == multiset(s) + multiset{x}
  {
    if s == [] {
    } else if Less(key(x), key(s[0])) {
      forall j | 0 <= j < |s|
        ensures Less(key(x), key(s[j]))
      {
        if j > 0 {
          LessIsTransitive(key(x), key(s[0]), key(s[j]));
        }
      }
      assert [x] + s == Insert(x, s, key);
    } else {
      assert s[0] in s;
      LessIsTotal(key(x), key(s[0]));
      InsertSorts(x, s[1..], key);
      var r := Insert(x, s[1..], key);
      assert s == [s[0]] + s[1..];
      forall j | 0 <= j < |r|
        ensures Less(key(s[0]), key(r[j]))
      {
        assert r[j] in multiset(r);
        assert r[j] in s[1..] || r[j] == x;
      }
    }
  }

  /** A sort of distinct keys yields the elements in strictly ascending order. */
  lemma {:induction false} SortSorts<T>(s: seq<T>, key: T -> string)
    requires DistinctKeys(s, key)
    ensures StrictlySorted(Sort(s, key), key) && multiset(Sort(s, key)) == multiset(s)
  {
    if s != [] {
      SortSorts(s[1..], key);
      assert s == [s[0]] + s[1..];
      forall y | y in Sort(s[1..], key)
        ensures key(y) != key(s[0])
      {
        assert y in multiset(s[1..]);
        var j :| 0 <= j < |s[1..]| && s[1..][j] == y;
        assert y == s[j + 1];
      }
      InsertSorts(s[0], Sort(s[1..], key), key);
    }
  }

  lemma SameElements<T>(s: seq<T>, t: seq<T>)
    requires multiset(s) == multiset(t)
    ensures |s| == |t| && forall x :: x in s <==> x in t
  {
    assert |multiset(s)| == |s| && |multiset(t)| == |t|;
    forall x ensures x in s <==> x in t {
      assert x in s <==> x in multiset(s);
      assert x in t <==> x in multiset(t);
    }
  }

  /** A strictly sorted sequence is determined by its elements. */
  lemma {:induction false} SortedIsUnique<T>(s: seq<T>, t: seq<T>, key: T -> string)
    requires StrictlySorted(s, key) && StrictlySorted(t, key) && forall x :: x in s <==> x in t
    ensures s == t
  {
    assert t == [] || t[0] in t;
    if s != [] {
      assert s[0] in s;
      var i :| 0 <= i < |t| && t[i] == s[0];
      var j :| 0 <= j < |s| && s[j] == t[0] by { assert t[0] in t; }
      if i > 0 {
        assert Less(key(t[0]), key(s[0]));
        if j > 0 { LessIsTotal(key(s[0]), key(t[0])); }
        LessIsTotal(key(s[0]), key(s[0]));
        assert false;
      }
      TailElements(s, t, key);
      SortedIsUnique(s[1..], t[1..], key);
      assert s == [s[0]] + s[1..] && t == [t[0]] + t[1..];
    }
  }

  lemma TailElements<T>(s: seq<T>, t: seq<T>, key: T -> string)
    requires StrictlySorted(s, key) && StrictlySorted(t, key) && forall x :: x in s <==> x in t
    requires s != [] && t != [] && s[0] == t[0]
    ensures forall x :: x in s[1..] <==> x in t[1..]
  {
    LessIsTotal(key(s[0]), key(s[0]));
    assert s == [s[0]] + s[1..] && t == [t[0]] + t[1..];
    assert s[0] !in s[1..] && t[0] !in t[1..];
    forall x ensures x in s[1..] <==> x in t[1..] {
      if x != s[0] {
        assert x in s <==> x in s[1..];
        assert x in t <==> x in t[1..];
      }
    }
  }

  // --- the order in which a loop meets the keys of a map

  /** order lists every one of the keys once. */
  ghost predicate Enumerates(order: seq<string>, keys: set<string>) {
    && (forall h :: h in order <==> h in keys)
    && (forall i, j :: 0 <= i < j < |order| ==> order[i] != order[j])
  }

  lemma EnumeratesOneMore(order: seq<string>, keys: set<string>, h: string)
    requires Enumerates(order, keys) && h !in keys
    ensures Enumerates(order + [h], keys + {h}) && (order + [h])[..|order|] == order
  {
  }

  lemma {:induction false} EnumerationLength(order: seq<string>, keys: set<string>)
    requires Enumerates(order, keys)
    ensures |order| == |keys|
    decreases order
  {
    if order != [] {
      var n := |order| - 1;
      assert order == order[..n] + [order[n]];
      EnumerationLength(order[..n], keys - {order[n]});
    } else {
      assert keys == {};
    }
  }
}
