/** The labels of one sample, as values: what enrichMetric makes of them. */
module Labels {
  import opened Api
  import opened Order

  datatype Label = Label(name: string, value: string)

  function NameOf(l: Label): string { l.name }

  /** The labels as a map; for distinct names, which is what the parser yields. */
  function LabelMap(s: seq<Label>): map<string, string> {
    if s == [] then map[] else LabelMap(s[1..])[s[0].name := s[0].value]
  }

  predicate HasName(s: seq<Label>, name: string) {
    exists i :: 0 <= i < |s| && s[i].name == name
  }

  function IndexOf(s: seq<Label>, name: string): (i: nat)
    requires HasName(s, name)
    ensures i < |s| && s[i].name == name
  {
    if s[0].name == name then 0
    else
      assert HasName(s[1..], name) by {
        var i :| 0 <= i < |s| && s[i].name == name;
        assert s[1..][i - 1].name == name;
      }
      1 + IndexOf(s[1..], name)
  }

  /** Overwrites the value of the label with this name, or adds one; an empty value changes nothing. */
  function SetLabel(s: seq<Label>, l: Label): seq<Label> {
    if l.value == "" then s
    else if HasName(s, l.name) then s[IndexOf(s, l.name) := l]
    else s + [l]
  }

  function SetLabels(s: seq<Label>, ls: seq<Label>): seq<Label>
    decreases ls
  {
    if ls == [] then s else SetLabels(SetLabel(s, ls[0]), ls[1..])
  }

  /** The identity labels that the hypervisor vouches for. */
  function Authority(host: string, t: TargetVM): seq<Label> {
    [Label("host", host), Label("vm_id", t.vmID), Label("vm_name", t.vmName), Label("project_id", t.projectID)]
  }

  function Enrich(s: seq<Label>, host: string, t: TargetVM): seq<Label> {
    Sort(SetLabels(s, Authority(host, t)), NameOf)
  }

  /** The meaning of enrichment: the non-empty authoritative values override the guest's. */
  function Override(m: map<string, string>, ls: seq<Label>): map<string, string>
    decreases ls
  {
    if ls == [] then m
    else Override(Put(m, ls[0]), ls[1..])
  }

  lemma {:induction false} LabelMapAt(s: seq<Label>)
    requires DistinctKeys(s, NameOf)
    ensures forall n :: n in LabelMap(s) <==> HasName(s, n)
    ensures forall i :: 0 <= i < |s| ==> s[i].name in LabelMap(s) && LabelMap(s)[s[i].name] == s[i].value
  {
    if s != [] {
      var t := s[1..];
      LabelMapAt(t);
      forall i | 0 <= i < |s|
        ensures s[i].name in LabelMap(s) && LabelMap(s)[s[i].name] == s[i].value
      {
        if i > 0 {
          assert t[i - 1] == s[i] && NameOf(s[0]) != NameOf(s[i]);
        }
      }
      forall n ensures n in LabelMap(s) <==> HasName(s, n) {
        if HasName(s, n) {
          var i :| 0 <= i < |s| && s[i].name == n;
        }
        if n in LabelMap(s) && n != s[0].name {
          var i :| 0 <= i < |t| && t[i].name == n;
          assert s[i + 1].name == n;
        }
        if n == s[0].name {
          assert HasName(s, n);
        }
      }
    }
  }

  /** Two label lists with the same labels, in any order, have the same map. */
  lemma SameLabelsSameMap(s: seq<Label>, t: seq<Label>)
    requires DistinctKeys(s, NameOf) && DistinctKeys(t, NameOf) && forall l :: l in s <==> l in t
    ensures LabelMap(s) == LabelMap(t)
  {
    LabelMapAt(s);
    LabelMapAt(t);
    forall n ensures n in LabelMap(s) <==> n in LabelMap(t) {
      if i :| 0 <= i < |s| && s[i].name == n { assert s[i] in t; }
      if i :| 0 <= i < |t| && t[i].name == n { assert t[i] in s; }
    }
    forall n | n in LabelMap(s) ensures LabelMap(s)[n] == LabelMap(t)[n] {
      var i :| 0 <= i < |s| && s[i].name == n;
      assert s[i] in t;
    }
  }

  /** And two strictly sorted lists with the same map are the same list. */
  lemma SameMapSameList(s: seq<Label>, t: seq<Label>)
    requires StrictlySorted(s, NameOf) && StrictlySorted(t, NameOf) && LabelMap(s) == LabelMap(t)
    ensures s == t
  {
    StrictIsDistinct(s);
    StrictIsDistinct(t);
    LabelMapAt(s);
    LabelMapAt(t);
    forall l ensures l in s <==> l in t {
      if i :| 0 <= i < |s| && s[i] == l { InByMap(t, l); }
      if i :| 0 <= i < |t| && t[i] == l { InByMap(s, l); }
    }
    SortedIsUnique(s, t, NameOf);
  }

  lemma InByMap(s: seq<Label>, l: Label)
    requires DistinctKeys(s, NameOf) && l.name in LabelMap(s) && LabelMap(s)[l.name] == l.value
    ensures l in s
  {
    LabelMapAt(s);
    var i :| 0 <= i < |s| && s[i].name == l.name;
    assert s[i] == l;
  }

  lemma StrictIsDistinct(s: seq<Label>)
    requires StrictlySorted(s, NameOf)
    ensures DistinctKeys(s, NameOf)
  {
    forall i, j | 0 <= i < j < |s| ensures NameOf(s[i]) != NameOf(s[j]) {
      LessIsTotal(NameOf(s[i]), NameOf(s[j]));
    }
  }

  /** A map that agrees with every label and has no other name is the label map. */
  lemma IsLabelMap(s: seq<Label>, m: map<string, string>)
    requires DistinctKeys(s, NameOf)
    requires forall i :: 0 <= i < |s| ==> s[i].name in m && m[s[i].name] == s[i].value
    requires forall n :: n in m ==> HasName(s, n)
    ensures LabelMap(s) == m
  {
    var l := LabelMap(s);
    LabelMapAt(s);
    forall n | n in m || n in l
      ensures n in l && n in m && l[n] == m[n]
    {
      assert HasName(s, n);
      var i :| 0 <= i < |s| && s[i].name == n;
      assert s[i].name in l && s[i].name in m;
    }
  }

  lemma ReplaceOverrides(s: seq<Label>, k: nat, l: Label)
    requires DistinctKeys(s, NameOf) && k < |s| && s[k].name == l.name
    ensures DistinctKeys(s[k := l], NameOf) && LabelMap(s[k := l]) == LabelMap(s)[l.name := l.value]
  {
    var t, m := s[k := l], LabelMap(s)[l.name := l.value];
    LabelMapAt(s);
    assert forall i :: 0 <= i < |s| ==> t[i].name == s[i].name;
    assert forall i, j :: 0 <= i < j < |s| ==> NameOf(s[i]) != NameOf(s[j]);
    forall n | n in m ensures HasName(t, n) {
      if n != l.name {
        var i :| 0 <= i < |s| && s[i].name == n;
        assert t[i].name == n;
      } else {
        assert t[k].name == n;
      }
    }
    forall i | 0 <= i < |t| ensures t[i].name in m && m[t[i].name] == t[i].value {
      if i != k {
        assert NameOf(s[i]) != NameOf(s[k]);
      }
    }
    IsLabelMap(t, m);
  }

  lemma AppendOverrides(s: seq<Label>, l: Label)
    requires DistinctKeys(s, NameOf) && !HasName(s, l.name)
    ensures DistinctKeys(s + [l], NameOf) && LabelMap(s + [l]) == LabelMap(s)[l.name := l.value]
  {
    var t, m := s + [l], LabelMap(s)[l.name := l.value];
    LabelMapAt(s);
    assert forall i :: 0 <= i < |s| ==> t[i] == s[i] && s[i].name != l.name;
    assert t[|s|] == l;
    forall n | n in m ensures HasName(t, n) {
      if n != l.name {
        var i :| 0 <= i < |s| && s[i].name == n;
        assert t[i].name == n;
      }
    }
    IsLabelMap(t, m);
  }

  lemma SetLabelOverrides(s: seq<Label>, l: Label)
    requires DistinctKeys(s, NameOf)
    ensures DistinctKeys(SetLabel(s, l), NameOf)
    ensures LabelMap(SetLabel(s, l)) == Put(LabelMap(s), l)
  {
    if l.value != "" {
      if HasName(s, l.name) {
        ReplaceOverrides(s, IndexOf(s, l.name), l);
      } else {
        AppendOverrides(s, l);
      }
    }
  }

  lemma {:induction false} SetLabelsOverride(s: seq<Label>, ls: seq<Label>)
    requires DistinctKeys(s, NameOf)
    ensures DistinctKeys(SetLabels(s, ls), NameOf)
    ensures LabelMap(SetLabels(s, ls)) == Override(LabelMap(s), ls)
    decreases ls
  {
    if ls != [] {
      SetLabelOverrides(s, ls[0]);
      SetLabelsOverride(SetLabel(s, ls[0]), ls[1..]);
    }
  }

  /** Enrichment refines a map override and yields a strictly name-sorted list. */
  lemma EnrichIsOverride(s: seq<Label>, host: string, t: TargetVM)
    requires DistinctKeys(s, NameOf)
    ensures StrictlySorted(Enrich(s, host, t), NameOf)
    ensures LabelMap(Enrich(s, host, t)) == Override(LabelMap(s), Authority(host, t))
  {
    var u := SetLabels(s, Authority(host, t));
    SetLabelsOverride(s, Authority(host, t));
    SortSorts(u, NameOf);
    SameElements(Sort(u, NameOf), u);
    StrictIsDistinct(Sort(u, NameOf));
    SameLabelsSameMap(Sort(u, NameOf), u);
  }

  lemma OverrideUnrolled(m: map<string, string>, host: string, t: TargetVM)
    ensures var o := Override(m, Authority(host, t));
      && (forall n :: n in o <==> n in m || Overrules(host, t, n) != "")
      && (forall n :: n in o ==> o[n] == if Overrules(host, t, n) != "" then Overrules(host, t, n) else m[n])
  {
    OverrideIsPuts(m, host, t);
    PutsUnrolled(m, host, t);
  }

  /** The four overrides in turn. */
  function Puts(m: map<string, string>, host: string, t: TargetVM): map<string, string> {
    Put(Put(Put(Put(m, Label("host", host)), Label("vm_id", t.vmID)), Label("vm_name", t.vmName)),
      Label("project_id", t.projectID))
  }

  lemma PutsUnrolled(m: map<string, string>, host: string, t: TargetVM)
    ensures var o := Puts(m, host, t);
      && (forall n :: n in o <==> n in m || Overrules(host, t, n) != "")
      && (forall n :: n in o ==> o[n] == if Overrules(host, t, n) != "" then Overrules(host, t, n) else m[n])
  {
    assert |"host"| == 4 && |"vm_id"| == 5 && |"vm_name"| == 7 && |"project_id"| == 10;
  }

  lemma OverrideIsPuts(m: map<string, string>, host: string, t: TargetVM)
    ensures Override(m, Authority(host, t)) == Puts(m, host, t)
  {
    var a, b := Label("host", host), Label("vm_id", t.vmID);
    var c, d := Label("vm_name", t.vmName), Label("project_id", t.projectID);
    var m1, m2, m3 := Put(m, a), Put(Put(m, a), b), Put(Put(Put(m, a), b), c);
    assert [a, b, c, d][1..] == [b, c, d] && [b, c, d][1..] == [c, d] && [c, d][1..] == [d] && [d][1..] == [];
    assert Override(m, [a, b, c, d]) == Override(m1, [b, c, d]);
    assert Override(m1, [b, c, d]) == Override(m2, [c, d]);
    assert Override(m2, [c, d]) == Override(m3, [d]);
    assert Override(m3, [d]) == Override(Put(m3, d), []);
  }

  function Put(m: map<string, string>, l: Label): map<string, string> {
    if l.value == "" then m else m[l.name := l.value]
  }

  /** The authoritative value for a label name, or "" if there is none. */
  function Overrules(host: string, t: TargetVM, name: string): string {
    if name == "host" then host else if name == "vm_id" then t.vmID
    else if name == "vm_name" then t.vmName else if name == "project_id" then t.projectID else ""
  }

  /** Enriching twice is enriching once. */
  lemma EnrichIsIdempotent(s: seq<Label>, host: string, t: TargetVM)
    requires DistinctKeys(s, NameOf)
    ensures Enrich(Enrich(s, host, t), host, t) == Enrich(s, host, t)
  {
    var e := Enrich(s, host, t);
    EnrichIsOverride(s, host, t);
    StrictIsDistinct(e);
    EnrichIsOverride(e, host, t);
    var o := Override(LabelMap(s), Authority(host, t));
    OverrideUnrolled(LabelMap(s), host, t);
    OverrideUnrolled(o, host, t);
    assert Override(o, Authority(host, t)) == o;
    SameMapSameList(Enrich(e, host, t), e);
  }

  /** Samples of two targets with different non-empty ids never end with the same labels, whatever the guests say. */
  lemma TargetsStayApart(s: seq<Label>, u: seq<Label>, host: string, t: TargetVM, v: TargetVM)
    requires DistinctKeys(s, NameOf) && DistinctKeys(u, NameOf)
    requires t.vmID != "" && v.vmID != "" && t.vmID != v.vmID
    ensures LabelMap(Enrich(s, host, t)) != LabelMap(Enrich(u, host, v))
  {
    EnrichIsOverride(s, host, t);
    EnrichIsOverride(u, host, v);
    OverrideUnrolled(LabelMap(s), host, t);
    OverrideUnrolled(LabelMap(u), host, v);
    assert Overrules(host, t, "vm_id") == t.vmID && Overrules(host, v, "vm_id") == v.vmID;
  }
}
