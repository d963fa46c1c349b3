/** The in-place work of pkg/processor: label pairs are rewritten through pointers, families are aliased and
    appended to. */
module Processor {
  import opened Api
  import opened Order
  import opened Labels
  import opened Families
  import opened Exposition
  import opened Metrics
  import opened Served

  /** existing maps each name in filtered to its pair. */
  ghost predicate Indexed(filtered: seq<LabelPair>, existing: map<string, LabelPair>) {
    && DistinctKeys(filtered, PairName)
    && (forall i :: 0 <= i < |filtered| ==> filtered[i].name in existing && existing[filtered[i].name] == filtered[i])
    && (forall n :: n in existing ==> existing[n].name == n && existing[n] in filtered)
  }

  lemma HasNameInIndex(filtered: seq<LabelPair>, existing: map<string, LabelPair>, name: string)
    requires Indexed(filtered, existing)
    ensures name in existing <==> HasName(Said(filtered), name)
    ensures name in existing ==> filtered[IndexOf(Said(filtered), name)] == existing[name]
  {
    if name in existing {
      var i :| 0 <= i < |filtered| && filtered[i] == existing[name];
      assert Said(filtered)[i].name == name;
    }
  }

  class MetricEnricher {
    const hostName: string

    constructor (hostName: string)
      ensures this.hostName == hostName
    {
      this.hostName := hostName;
    }

    /** The closure of enrichMetric: an authoritative override through the pointer, or a new pair. */
    method SetOrAddLabel(filtered: seq<LabelPair>, existing: map<string, LabelPair>, name: string, value: string)
      returns (filtered': seq<LabelPair>, existing': map<string, LabelPair>)
      requires Indexed(filtered, existing)
      modifies filtered
      ensures Indexed(filtered', existing')
      ensures Said(filtered') == SetLabel(old(Said(filtered)), Label(name, value))
      ensures filtered <= filtered' && forall i :: |filtered| <= i < |filtered'| ==> fresh(filtered'[i])
    {
      filtered', existing' := filtered, existing;
      if value == "" {
        return;
      }
      HasNameInIndex(filtered, existing, name);
      if name in existing {
        SetValue(filtered, IndexOf(Said(filtered), name), existing[name], value);
      } else {
        var newLP := new LabelPair(name, value);
        filtered' := filtered + [newLP];
        existing' := existing[name := newLP];
        assert Said(filtered') == old(Said(filtered)) + [Label(name, value)];
      }
    }

    /** Through the pointer, one label of the list is set and no other. */
    method SetValue(filtered: seq<LabelPair>, ghost k: nat, lp: LabelPair, value: string)
      requires DistinctKeys(filtered, PairName) && k < |filtered| && filtered[k] == lp
      modifies lp
      ensures Said(filtered) == old(Said(filtered))[k := Label(lp.name, value)]
    {
      lp.value := value;
      assert forall i :: 0 <= i < |filtered| && i != k ==> PairName(filtered[i]) != PairName(filtered[k]);
    }

    /** The map from name to pair that enrichMetric builds first. */
    method IndexLabels(labels: seq<LabelPair>) returns (existing: map<string, LabelPair>)
      requires DistinctKeys(labels, PairName)
      ensures Indexed(labels, existing)
    {
      existing := map[];
      for i := 0 to |labels|
        invariant Indexed(labels[..i], existing)
      {
        var lp := labels[i];
        assert forall j :: 0 <= j < i ==> PairName(labels[j]) != PairName(lp);
        assert labels[..i + 1] == labels[..i] + [lp];
        existing := existing[lp.name := lp];
      }
      assert labels[..|labels|] == labels;
    }

    method SetAuthority(labels: seq<LabelPair>, t: TargetVM) returns (filtered: seq<LabelPair>)
      requires DistinctKeys(labels, PairName)
      modifies labels
      ensures Said(filtered) == SetLabels(old(Said(labels)), Authority(hostName, t))
      ensures DistinctKeys(filtered, PairName)
      ensures labels <= filtered && forall i :: |labels| <= i < |filtered| ==> fresh(filtered[i])
    {
      filtered := labels;
      var existing := IndexLabels(labels);
      var auth := Authority(hostName, t);
      ghost var goal := SetLabels(Said(labels), auth);
      assert auth[0..] == auth;
      for k := 0 to 4
        invariant Indexed(filtered, existing) && |auth| == 4
        invariant SetLabels(Said(filtered), auth[k..]) == goal
        invariant labels <= filtered && forall i :: |labels| <= i < |filtered| ==> fresh(filtered[i])
      {
        assert auth[k..][0] == auth[k] && auth[k..][1..] == auth[k + 1..];
        filtered, existing := SetOrAddLabel(filtered, existing, auth[k].name, auth[k].value);
      }
    }

    /** Rewrites the labels of one sample in place, where its label names are distinct. */
    method EnrichMetric(m: Metric, t: TargetVM)
      requires DistinctKeys(m.labels, PairName)
      modifies m, m.labels
      ensures Said(m.labels) == Enrich(old(Said(m.labels)), hostName, t)
      ensures DistinctKeys(m.labels, PairName)
      ensures forall p :: p in m.labels ==> p in old(m.labels) || fresh(p)
    {
      var filtered := SetAuthority(m.labels, t);
      SortSaid(filtered);
      SortKeepsPairs(filtered);
      m.labels := Sort(filtered, PairName);
    }

    /** Samples that share no pair do not disturb each other. */
    method EnrichAt(ms: seq<Metric>, i: nat, t: TargetVM)
      requires Unshared(ms) && i < |ms|
      modifies ms[i], ms[i].labels
      ensures SampleOf(ms[i]) == Enriched(old(SampleOf(ms[i])), hostName, t) && DistinctKeys(ms[i].labels, PairName)
      ensures forall p :: p in ms[i].labels ==> p in old(ms[i].labels) || fresh(p)
      ensures forall j :: 0 <= j < |ms| && j != i ==>
        ms[j] != ms[i] && ms[j].labels == old(ms[j].labels) && SampleOf(ms[j]) == old(SampleOf(ms[j]))
      ensures Unshared(ms)
    {
      ApartFrom(ms, i);
      EnrichMetric(ms[i], t);
      forall j | 0 <= j < |ms| && j != i
        ensures SampleOf(ms[j]) == old(SampleOf(ms[j]))
      {
        assert forall k :: 0 <= k < |ms[j].labels| ==> ms[j].labels[k] !in old(ms[i].labels);
        assert Said(ms[j].labels) == old(Said(ms[j].labels));
      }
    }

    lemma ApartFrom(ms: seq<Metric>, i: nat)
      requires Unshared(ms) && i < |ms|
      ensures forall j, p :: 0 <= j < |ms| && j != i && p in ms[j].labels ==> p !in ms[i].labels
      ensures forall j :: 0 <= j < |ms| && j != i ==> ms[j] != ms[i]
    {
      forall j | 0 <= j < |ms| && j != i
        ensures ms[j] != ms[i] && forall p :: p in ms[j].labels ==> p !in ms[i].labels
      {
        assert if j < i then Strangers(ms[j], ms[i]) else Strangers(ms[i], ms[j]);
      }
    }

    method EnrichOne(ms: seq<Metric>, i: nat, t: TargetVM, ghost o: set<object>, ghost vs: seq<Sample>)
      returns (ghost o': set<object>)
      requires Holds(ms, o, vs) && i < |ms|
      modifies o
      ensures Holds(ms, o', vs[i := Enriched(vs[i], hostName, t)]) && forall x :: x in o' ==> x in o || fresh(x)
    {
      EnrichAt(ms, i, t);
      o' := o + PairsOf([ms[i]]);
    }

    /** The inner loop of EnrichTargetMetrics. */
    method EnrichFamily(ms: seq<Metric>, t: TargetVM, ghost o: set<object>, ghost vs: seq<Sample>)
      returns (ghost o': set<object>)
      requires Holds(ms, o, vs)
      modifies o
      ensures Holds(ms, o', EnrichAll(vs, hostName, t)) && forall x :: x in o' ==> x in o || fresh(x)
      ensures |vs| == |ms| && forall i :: 0 <= i < |ms| ==> IsEnriched(SampleOf(ms[i]), vs[i], hostName, t)
    {
      o' := o;
      HeldAreDistinct(ms, o, vs);
      NoneEnriched(vs, t);
      for i := 0 to |ms|
        invariant Holds(ms, o', PartEnriched(vs, i, t)) && forall x :: x in o' ==> x in o || fresh(x)
      {
        o' := EnrichNext(ms, i, t, o', vs);
      }
      HeldAreEnriched(ms, o', vs, t);
    }

    method EnrichNext(ms: seq<Metric>, i: nat, t: TargetVM, ghost o: set<object>, ghost vs: seq<Sample>)
      returns (ghost o': set<object>)
      requires i < |ms| && Holds(ms, o, PartEnriched(vs, i, t))
      modifies o
      ensures Holds(ms, o', PartEnriched(vs, i + 1, t)) && forall x :: x in o' ==> x in o || fresh(x)
    {
      HoldsAsMany(ms, o, PartEnriched(vs, i, t));
      OneMoreEnriched(vs, i, t);
      o' := EnrichOne(ms, i, t, o, PartEnriched(vs, i, t));
    }

    lemma HeldAreEnriched(ms: seq<Metric>, o: set<object>, vs: seq<Sample>, t: TargetVM)
      requires Holds(ms, o, PartEnriched(vs, |ms|, t)) && DistinctLabels(vs)
      ensures |vs| == |ms| && Holds(ms, o, EnrichAll(vs, hostName, t))
      ensures forall i :: 0 <= i < |ms| ==> IsEnriched(SampleOf(ms[i]), vs[i], hostName, t)
    {
      HoldsAsMany(ms, o, PartEnriched(vs, |ms|, t));
      NoneEnriched(vs, t);
      HoldsAsMany(ms, o, EnrichAll(vs, hostName, t));
      EnrichAllIs(vs, hostName, t);
    }

    ghost function PartEnriched(vs: seq<Sample>, i: nat, t: TargetVM): (r: seq<Sample>)
      ensures |r| == |vs|
    {
      if i <= |vs| then EnrichAll(vs[..i], hostName, t) + vs[i..] else vs
    }

    lemma NoneEnriched(vs: seq<Sample>, t: TargetVM)
      ensures PartEnriched(vs, 0, t) == vs && PartEnriched(vs, |vs|, t) == EnrichAll(vs, hostName, t)
    {
      assert vs[..|vs|] == vs;
    }

    lemma OneMoreEnriched(vs: seq<Sample>, i: nat, t: TargetVM)
      requires i < |vs|
      ensures var r := PartEnriched(vs, i, t); PartEnriched(vs, i + 1, t) == r[i := Enriched(r[i], hostName, t)]
    {
      EnrichAllOneMore(vs, i, hostName, t);
    }

    method EnrichNextFamily(
      fs: FamilyMap, name: string, t: TargetVM, ghost own: map<string, set<object>>, ghost vs: FamilyValues)
      returns (ghost own': map<string, set<object>>)
      requires name in fs && HoldsAll(fs, own, vs)
      modifies own[name]
      ensures own'.Keys == own.Keys && forall n, x :: n in own && x in own'[n] ==> x in own[n] || fresh(x)
      ensures HoldsAll(fs, own', vs[name := EnrichAll(vs[name], hostName, t)])
    {
      var o := EnrichFamily(fs[name].metric, t, own[name], vs[name]);
      own' := own[name := o];
      assert forall n :: n in fs && n != name ==> Holds(fs[n].metric, own[n], vs[n]);
      HoldsAllChanged(fs, own, vs, name, o, EnrichAll(vs[name], hostName, t));
    }

    /** The loops of EnrichTargetMetrics, which meet the families in any order. */
    method EnrichFamilies(fs: FamilyMap, t: TargetVM, ghost own: map<string, set<object>>, ghost vs: FamilyValues)
      returns (ghost own': map<string, set<object>>)
      requires HoldsAll(fs, own, vs)
      modifies ObjectsOf(own)
      ensures HoldsAll(fs, own', EnrichFamilyValues(vs, hostName, t))
      ensures own'.Keys == own.Keys && forall n, x :: n in own && x in own'[n] ==> x in own[n] || fresh(x)
    {
      own' := own;
      var todo := fs.Keys;
      PartlyStartsAndEnds(vs, t);
      while todo != {}
        invariant todo <= fs.Keys && HoldsAll(fs, own', Partly(vs, todo, t))
        invariant own'.Keys == own.Keys && forall n, x :: n in own && x in own'[n] ==> x in own[n] || fresh(x)
        decreases todo
      {
        var name :| name in todo;
        own' := EnrichNextFamily(fs, name, t, own', Partly(vs, todo, t));
        PartlyOneLess(vs, todo, name, t);
        todo := todo - {name};
      }
    }

    /** The families named in todo are still to be enriched. */
    ghost function Partly(vs: FamilyValues, todo: set<string>, t: TargetVM): FamilyValues {
      map n | n in vs :: if n in todo then vs[n] else EnrichAll(vs[n], hostName, t)
    }

    lemma PartlyStartsAndEnds(vs: FamilyValues, t: TargetVM)
      ensures Partly(vs, vs.Keys, t) == vs && Partly(vs, {}, t) == EnrichFamilyValues(vs, hostName, t)
    {
    }

    lemma PartlyOneLess(vs: FamilyValues, todo: set<string>, name: string, t: TargetVM)
      requires name in todo && name in vs
      ensures var now := Partly(vs, todo, t);
        Partly(vs, todo - {name}, t) == now[name := EnrichAll(now[name], hostName, t)]
    {
    }

    /** An empty payload has no families; one that the parser refuses is an error. Nothing older is touched. */
    method EnrichTargetMetrics(payload: string, t: TargetVM, parse: Parser)
      returns (r: Option<FamilyMap>, ghost own: map<string, set<object>>)
      requires ParsesDistinct(parse)
      ensures r.None? <==> payload != "" && parse(payload).None?
      ensures r.Some? ==>
        && HoldsAll(r.value, own,
             if payload == "" then map[] else EnrichFamilyValues(parse(payload).value, hostName, t))
        && forall n :: n in r.value ==> fresh(r.value[n]) && fresh(own[n])
    {
      own := map[];
      if payload == "" {
        return Some(map[]), own;
      }
      var parsed := parse(payload);
      if parsed.None? {
        return None, own;
      }
      var mfs;
      mfs, own := NewFamilies(parsed.value);
      own := EnrichFamilies(mfs, t, own, parsed.value);
      r := Some(mfs);
    }
  }

  lemma SortKeepsPairs(ps: seq<LabelPair>)
    requires DistinctKeys(ps, PairName)
    ensures DistinctKeys(Sort(ps, PairName), PairName) && forall p :: p in Sort(ps, PairName) ==> p in ps
  {
    SortSorts(ps, PairName);
    SameElements(Sort(ps, PairName), ps);
    forall p | p in Sort(ps, PairName) ensures p in ps {
      assert p in multiset(Sort(ps, PairName));
    }
    forall i, j | 0 <= i < j < |Sort(ps, PairName)|
      ensures PairName(Sort(ps, PairName)[i]) != PairName(Sort(ps, PairName)[j])
    {
      LessIsTotal(PairName(Sort(ps, PairName)[i]), PairName(Sort(ps, PairName)[j]));
    }
  }

  /** Sorting the pointers by name sorts what they say. */
  lemma {:induction false} SortSaid(ps: seq<LabelPair>)
    ensures Said(Sort(ps, PairName)) == Sort(Said(ps), NameOf)
    decreases ps
  {
    if ps == [] {
      assert Said([]) == [];
    } else {
      SortSaid(ps[1..]);
      assert Said(ps[1..]) == Said(ps)[1..];
      InsertSaid(ps[0], Sort(ps[1..], PairName));
    }
  }

  lemma {:induction false} InsertSaid(p: LabelPair, ps: seq<LabelPair>)
    ensures Said(Insert(p, ps, PairName)) == Insert(Label(p.name, p.value), Said(ps), NameOf)
    decreases ps
  {
    if ps != [] {
      assert Said(ps[1..]) == Said(ps)[1..];
      InsertSaid(p, ps[1..]);
      assert Said([ps[0]] + Insert(p, ps[1..], PairName)) == [Said(ps)[0]] + Said(Insert(p, ps[1..], PairName));
      assert Said([p] + ps) == [Label(p.name, p.value)] + Said(ps);
    } else {
      assert Said([p]) == [Label(p.name, p.value)];
    }
  }

  // --- merging families

  /** One round of the loop: a new family is taken over as it is, not copied; else its samples are appended. */
  method MergeFamily(dest: FamilyMap, name: string, srcMF: MetricFamily) returns (merged: FamilyMap)
    requires OneNameEach(dest) && srcMF !in dest.Values
    modifies if name in dest then {dest[name]} else {}
    ensures merged == if name in dest then dest else dest[name := srcMF]
    ensures OneNameEach(merged)
    ensures Samples(merged)
      == old(Samples(dest))[name := (if name in dest then old(dest[name].metric) else []) + srcMF.metric]
  {
    if name !in dest {
      merged := dest[name := srcMF];
      assert [] + srcMF.metric == srcMF.metric;
      return;
    }
    merged := dest;
    var destMF := merged[name];
    destMF.metric := destMF.metric + srcMF.metric;
  }

  /** The families that dest holds once those of the names done have been merged into it. */
  ghost function Taken(dest: FamilyMap, src: FamilyMap, done: set<string>): FamilyMap {
    Part(src, done) + dest
  }

  lemma TakenOneMore(dest: FamilyMap, src: FamilyMap, done: set<string>, name: string)
    requires OneNameEach(src) && dest.Values !! src.Values && name in src && name !in done
    ensures var m := Taken(dest, src, done);
      && src[name] !in m.Values && (name in m <==> name in dest)
      && (name in dest ==> m[name] == dest[name] && forall n :: n in src ==> src[n] != dest[name])
      && Taken(dest, src, done + {name}) == if name in dest then m else m[name := src[name]]
  {
    var m := Taken(dest, src, done);
    forall n | n in m ensures m[n] != src[name] {
      assert src[name] in src.Values;
      if n in dest { assert dest[n] in dest.Values; }
    }
    if name in dest {
      forall n | n in src ensures src[n] != dest[name] {
        assert src[n] in src.Values && dest[name] in dest.Values;
      }
    }
  }

  /** The state of the merge loop once the names done have been merged: was and add are what the two maps held
      at the start. */
  ghost predicate MergedUpTo(
    dest: FamilyMap, src: FamilyMap, merged: FamilyMap, done: set<string>,
    was: map<string, seq<Metric>>, add: map<string, seq<Metric>>)
    reads src.Values, merged.Values
  {
    && OneNameEach(merged) && merged == Taken(dest, src, done)
    && add.Keys == src.Keys && (forall n :: n in src ==> src[n].metric == add[n])
    && was.Keys == dest.Keys && Samples(merged) == Joined(was, Part(add, done))
  }

  method MergeNext(
    dest: FamilyMap, src: FamilyMap, merged: FamilyMap, ghost done: set<string>, name: string,
    ghost was: map<string, seq<Metric>>, ghost add: map<string, seq<Metric>>) returns (next: FamilyMap)
    requires OneNameEach(src) && dest.Values !! src.Values && name in src && name !in done
    requires MergedUpTo(dest, src, merged, done, was, add)
    modifies dest.Values
    ensures MergedUpTo(dest, src, next, done + {name}, was, add)
  {
    TakenOneMore(dest, src, done, name);
    JoinedOneMore(was, add, done, name);
    next := MergeFamily(merged, name, src[name]);
  }

  /** Merges src into dest in any order of the names. No sample is touched, no family of src is changed by
      this call, and families new to dest are taken over. */
  method MergeFamilies(dest: FamilyMap, src: FamilyMap) returns (merged: FamilyMap)
    requires OneNameEach(dest) && OneNameEach(src) && dest.Values !! src.Values
    modifies dest.Values
    ensures Samples(merged) == Joined(old(Samples(dest)), old(Samples(src)))
    ensures OneNameEach(merged) && merged == src + dest
  {
    merged := dest;
    var todo := src.Keys;
    ghost var was, add, done := Samples(dest), Samples(src), {};
    JoinedNothing(was, add);
    NothingTaken(dest, src);
    while todo != {}
      invariant done <= src.Keys && todo == src.Keys - done
      invariant MergedUpTo(dest, src, merged, done, was, add)
      decreases todo
    {
      var name :| name in todo;
      merged := MergeNext(dest, src, merged, done, name, was, add);
      todo, done := todo - {name}, done + {name};
    }
    AllTaken(dest, src, done);
  }

  /** What the merged map says is what the two maps said: no sample is touched. */
  method MergeInto(dest: FamilyMap, src: FamilyMap) returns (merged: FamilyMap)
    requires OneNameEach(dest) && OneNameEach(src) && dest.Values !! src.Values
    modifies dest.Values
    ensures ReadOut(Samples(merged)) == Joined(old(ReadOut(Samples(dest))), old(ReadOut(Samples(src))))
    ensures OneNameEach(merged) && merged == src + dest
  {
    ghost var was, add := Samples(dest), Samples(src);
    merged := MergeFamilies(dest, src);
    ReadOutStays(was);
    ReadOutStays(add);
    JoinedReadOut(was, add);
  }

  /** What samples say does not depend on the families that list them. */
  twostate lemma ValuesStay(ms: seq<Metric>)
    requires forall m :: m in ms ==> old(allocated(m)) && m.labels == old(m.labels)
    requires forall m, p :: m in ms && p in m.labels ==> old(allocated(p)) && p.value == old(p.value)
    ensures Values(ms) == old(Values(ms))
  {
    forall i | 0 <= i < |ms|
      ensures SampleOf(ms[i]) == old(SampleOf(ms[i]))
    {
      var ps := ms[i].labels;
      assert forall k :: 0 <= k < |ps| ==> ps[k] in ps && ps[k].value == old(ps[k].value);
      assert Said(ps) == old(Said(ps));
    }
  }

  twostate lemma ReadOutStays(ms: map<string, seq<Metric>>)
    requires forall m :: m in MetricsIn(ms) ==> old(allocated(m)) && m.labels == old(m.labels)
    requires forall m, p :: m in MetricsIn(ms) && p in m.labels ==> old(allocated(p)) && p.value == old(p.value)
    ensures ReadOut(ms) == old(ReadOut(ms))
  {
    forall n | n in ms
      ensures Values(ms[n]) == old(Values(ms[n]))
    {
      assert forall m :: m in ms[n] ==> m in MetricsIn(ms);
      ValuesStay(ms[n]);
    }
  }

  /** New objects change nothing of what a map says. */
  twostate lemma SaysTheSame(fs: FamilyMap)
    requires forall n :: n in fs ==> old(allocated(fs[n])) && fs[n].metric == old(fs[n].metric)
    requires forall m :: m in MetricsIn(Samples(fs)) ==> old(allocated(m)) && m.labels == old(m.labels)
    requires forall m, p :: m in MetricsIn(Samples(fs)) && p in m.labels ==>
      old(allocated(p)) && p.value == old(p.value)
    ensures ReadOut(Samples(fs)) == old(ReadOut(Samples(fs)))
  {
    ReadOutStays(Samples(fs));
    assert Samples(fs) == old(Samples(fs));
  }

  lemma JoinedReadOut(a: map<string, seq<Metric>>, b: map<string, seq<Metric>>)
    ensures ReadOut(Joined(a, b)) == Joined(ReadOut(a), ReadOut(b))
  {
    forall n | n in a.Keys + b.Keys
      ensures ReadOut(Joined(a, b))[n] == Joined(ReadOut(a), ReadOut(b))[n]
    {
      ValuesConcat(if n in a then a[n] else [], if n in b then b[n] else []);
    }
  }

  lemma ValuesConcat(x: seq<Metric>, y: seq<Metric>)
    ensures Values(x + y) == Values(x) + Values(y)
  {
  }

  lemma NothingTaken(dest: FamilyMap, src: FamilyMap)
    ensures Taken(dest, src, {}) == dest
  {
  }

  lemma AllTaken(dest: FamilyMap, src: FamilyMap, done: set<string>)
    requires done == src.Keys
    ensures Taken(dest, src, done) == src + dest
  {
  }
}
