/** Samples and families on the heap, as the parser leaves them: nothing is shared. */
module Metrics {
  import opened Order
  import opened Labels
  import opened Families
  import opened Exposition

  class LabelPair {
    const name: string
    var value: string

    constructor (name: string, value: string)
      ensures this.name == name && this.value == value
    {
      this.name := name;
      this.value := value;
    }
  }

  function PairName(p: LabelPair): string { p.name }

  /** What a list of label pairs says. */
  function Said(ps: seq<LabelPair>): (r: seq<Label>)
    reads ps
    ensures |r| == |ps|
    ensures forall i :: 0 <= i < |ps| ==> r[i] == Label(ps[i].name, ps[i].value)
  {
    seq(|ps|, i requires 0 <= i < |ps| reads ps => Label(ps[i].name, ps[i].value))
  }

  class Metric {
    var labels: seq<LabelPair>
    const value: real

    constructor (labels: seq<LabelPair>, value: real)
      ensures this.labels == labels && this.value == value
    {
      this.labels := labels;
      this.value := value;
    }
  }

  function SampleOf(m: Metric): Sample
    reads m, m.labels
  {
    Sample(Said(m.labels), m.value)
  }

  ghost function PairsOf(ms: seq<Metric>): set<LabelPair>
    reads ms
  {
    set m, p | m in ms && p in m.labels :: p
  }

  /** What a list of samples says. */
  function Values(ms: seq<Metric>): (r: seq<Sample>)
    reads ms, PairsOf(ms)
    ensures |r| == |ms| && forall i :: 0 <= i < |ms| ==> r[i] == SampleOf(ms[i])
  {
    seq(|ms|, i requires 0 <= i < |ms| reads ms, PairsOf(ms) =>
      assert forall p :: p in ms[i].labels ==> ms[i] in ms && p in PairsOf(ms); SampleOf(ms[i]))
  }

  ghost function MetricsIn(ms: map<string, seq<Metric>>): set<Metric> {
    set n, m | n in ms && m in ms[n] :: m
  }

  ghost function PairsIn(ms: map<string, seq<Metric>>): set<LabelPair>
    reads MetricsIn(ms)
  {
    set m, p | m in MetricsIn(ms) && p in m.labels :: p
  }

  /** What the samples under each name say. */
  function ReadOut(ms: map<string, seq<Metric>>): (r: FamilyValues)
    reads MetricsIn(ms), PairsIn(ms)
    ensures r.Keys == ms.Keys && forall n :: n in ms ==> r[n] == Values(ms[n])
  {
    assert forall n, m :: n in ms && m in ms[n] ==> m in MetricsIn(ms);
    map n | n in ms :: Values(ms[n])
  }

  // --- families

  class MetricFamily {
    var metric: seq<Metric>

    constructor (metric: seq<Metric>)
      ensures this.metric == metric
    {
      this.metric := metric;
    }
  }

  type FamilyMap = map<string, MetricFamily>

  /** The samples of each family. */
  function Samples(fs: FamilyMap): (r: map<string, seq<Metric>>)
    reads fs.Values
    ensures r.Keys == fs.Keys
  {
    map n | n in fs :: fs[n].metric
  }

  /** No family is known under two names. */
  ghost predicate OneNameEach(fs: FamilyMap) {
    forall n, k :: n in fs && k in fs && n != k ==> fs[n] != fs[k]
  }

  // --- what a parse leaves on the heap

  /** Two samples that share no label pair. */
  ghost predicate Strangers(m: Metric, k: Metric)
    reads m, k
  {
    m != k && forall p :: p in m.labels ==> p !in k.labels
  }

  /** No sample is listed twice, none uses a label name twice, and no two share a label pair. */
  ghost predicate Unshared(ms: seq<Metric>)
    reads ms
  {
    && (forall m :: m in ms ==> DistinctKeys(m.labels, PairName))
    && forall i, j :: 0 <= i < j < |ms| ==> Strangers(ms[i], ms[j])
  }

  /** The objects o hold the samples, which share nothing and say vs. */
  ghost predicate Holds(ms: seq<Metric>, o: set<object>, vs: seq<Sample>)
    reads o
  {
    && (forall m :: m in ms ==> m in o)
    && (forall m, p :: m in ms && p in m.labels ==> p in o)
    && Unshared(ms) && Values(ms) == vs
  }

  lemma HeldAreDistinct(ms: seq<Metric>, o: set<object>, vs: seq<Sample>)
    requires Holds(ms, o, vs)
    ensures DistinctLabels(vs)
  {
    forall v | v in vs
      ensures DistinctKeys(v.labels, NameOf)
    {
      var i :| 0 <= i < |vs| && vs[i] == v;
      assert v == SampleOf(ms[i]) && ms[i] in ms;
      assert forall k :: 0 <= k < |v.labels| ==> NameOf(v.labels[k]) == PairName(ms[i].labels[k]);
    }
  }

  lemma HoldsAsMany(ms: seq<Metric>, o: set<object>, vs: seq<Sample>)
    requires Holds(ms, o, vs)
    ensures |ms| == |vs| && forall i :: 0 <= i < |ms| ==> SampleOf(ms[i]) == vs[i]
  {
  }

  /** Each family has objects of its own. */
  ghost predicate OwnApart(fs: FamilyMap, own: map<string, set<object>>) {
    && OneNameEach(fs) && fs.Keys == own.Keys
    && (forall n, k :: n in own && k in own && n != k ==> own[n] !! own[k])
    && (forall n, k :: n in fs && k in own ==> fs[n] !in own[k])
  }

  /** Families that share nothing, each with the objects that hold it and what it says. */
  ghost predicate HoldsAll(fs: FamilyMap, own: map<string, set<object>>, vs: FamilyValues)
    reads fs.Values, ObjectsOf(own)
  {
    && OwnApart(fs, own) && vs.Keys == fs.Keys
    && forall n :: n in fs ==> Holds(fs[n].metric, own[n], vs[n])
  }

  /** One family may change if it keeps off the others' objects. */
  lemma HoldsAllChanged(
    fs: FamilyMap, own: map<string, set<object>>, vs: FamilyValues, name: string, o: set<object>, ss: seq<Sample>)
    requires OwnApart(fs, own) && vs.Keys == fs.Keys && name in fs && Holds(fs[name].metric, o, ss)
    requires forall n :: n in fs && n != name ==> own[n] !! o && Holds(fs[n].metric, own[n], vs[n])
    requires forall n :: n in fs ==> fs[n] !in o
    ensures HoldsAll(fs, own[name := o], vs[name := ss])
  {
  }

  ghost function ObjectsOf(own: map<string, set<object>>): set<object> {
    set n, o | n in own && o in own[n] :: o
  }

  /** Families known to share nothing can be read out. */
  lemma HeldSay(fs: FamilyMap, own: map<string, set<object>>, vs: FamilyValues)
    requires HoldsAll(fs, own, vs)
    ensures ReadOut(Samples(fs)) == vs
  {
  }

  ghost predicate DistinctLabels(ss: seq<Sample>) {
    forall s :: s in ss ==> DistinctKeys(s.labels, NameOf)
  }

  /** The parser refuses a sample that uses a label name twice. */
  ghost predicate ParsesDistinct(parse: Parser) {
    forall p, n :: parse(p).Some? && n in parse(p).value ==> DistinctLabels(parse(p).value[n])
  }

  method NewPairs(ls: seq<Label>) returns (ps: seq<LabelPair>)
    ensures fresh(ps) && Said(ps) == ls
  {
    ps := [];
    for i := 0 to |ls|
      invariant fresh(ps) && Said(ps) == ls[..i]
    {
      var p := new LabelPair(ls[i].name, ls[i].value);
      SaidOneMore(ps, p);
      assert ls[..i + 1] == ls[..i] + [ls[i]];
      ps := ps + [p];
    }
    assert ls[..|ls|] == ls;
  }

  lemma SaidOneMore(ps: seq<LabelPair>, p: LabelPair)
    ensures Said(ps + [p]) == Said(ps) + [Label(p.name, p.value)]
  {
  }

  method NewMetric(s: Sample) returns (m: Metric)
    ensures fresh(m) && fresh(m.labels) && SampleOf(m) == s
  {
    var ps := NewPairs(s.labels);
    m := new Metric(ps, s.value);
  }

  lemma OneMore(ms: seq<Metric>, m: Metric)
    ensures Values(ms + [m]) == Values(ms) + [SampleOf(m)]
  {
  }

  lemma UnsharedOneMore(ms: seq<Metric>, m: Metric)
    requires Unshared(ms) && DistinctKeys(m.labels, PairName) && forall x :: x in ms ==> Strangers(x, m)
    ensures Unshared(ms + [m])
  {
    assert forall x :: x in ms + [m] <==> x in ms || x == m;
  }

  method NewMetrics(ss: seq<Sample>) returns (ms: seq<Metric>, ghost o: set<object>)
    requires DistinctLabels(ss)
    ensures fresh(o) && Holds(ms, o, ss)
  {
    ms, o := [], {};
    for i := 0 to |ss|
      invariant fresh(o) && Holds(ms, o, ss[..i])
    {
      assert ss[..i + 1] == ss[..i] + [ss[i]];
      ms, o := AddMetric(ms, o, ss[..i], ss[i]);
    }
    assert ss[..|ss|] == ss;
  }

  method AddMetric(ms: seq<Metric>, ghost o: set<object>, ghost vs: seq<Sample>, s: Sample)
    returns (more: seq<Metric>, ghost o': set<object>)
    requires Holds(ms, o, vs) && DistinctKeys(s.labels, NameOf)
    ensures Holds(more, o', vs + [s]) && forall x :: x in o' ==> x in o || fresh(x)
  {
    var m := NewMetric(s);
    HoldsOneMore(ms, o, vs, m);
    more, o' := ms + [m], o + {m} + PairsOf([m]);
  }

  lemma HoldsOneMore(ms: seq<Metric>, o: set<object>, vs: seq<Sample>, m: Metric)
    requires Holds(ms, o, vs) && DistinctKeys(m.labels, PairName)
    requires m !in o && forall p :: p in m.labels ==> p !in o
    ensures Holds(ms + [m], o + {m} + PairsOf([m]), vs + [SampleOf(m)])
  {
    OneMore(ms, m);
    UnsharedOneMore(ms, m);
  }

  lemma HoldsAllOneMore(
    fs: FamilyMap, own: map<string, set<object>>, vs: FamilyValues, name: string, mf: MetricFamily, o: set<object>,
    ss: seq<Sample>)
    requires HoldsAll(fs, own, vs) && name !in fs && mf !in fs.Values
    requires Holds(mf.metric, o, ss) && mf !in o
    requires forall n :: n in fs ==> own[n] !! o && mf !in own[n] && fs[n] !in o
    ensures HoldsAll(fs[name := mf], own[name := o], vs[name := ss])
  {
    OwnApartOneMore(fs, own, name, mf, o);
    forall n | n in fs
      ensures fs[name := mf][n] == fs[n] && own[name := o][n] == own[n]
    {
    }
  }

  lemma OwnApartOneMore(
    fs: FamilyMap, own: map<string, set<object>>, name: string, mf: MetricFamily, o: set<object>)
    requires OwnApart(fs, own) && name !in fs && mf !in fs.Values && mf !in o
    requires forall n :: n in fs ==> own[n] !! o && mf !in own[n] && fs[n] !in o
    ensures OwnApart(fs[name := mf], own[name := o])
  {
    assert forall n :: n in fs ==> fs[n] in fs.Values;
  }

  method NewFamily(
    fs: FamilyMap, ghost own: map<string, set<object>>, ghost vs: FamilyValues, name: string, ss: seq<Sample>)
    returns (mf: MetricFamily, ghost o: set<object>)
    requires HoldsAll(fs, own, vs) && name !in fs && DistinctLabels(ss)
    ensures fresh(mf) && fresh(o) && HoldsAll(fs[name := mf], own[name := o], vs[name := ss])
  {
    var ms;
    ms, o := NewMetrics(ss);
    mf := new MetricFamily(ms);
    HoldsAllOneMore(fs, own, vs, name, mf, o, ss);
  }

  /** The parser's families, given what they say. */
  method NewFamilies(vs: FamilyValues) returns (fs: FamilyMap, ghost own: map<string, set<object>>)
    requires forall n :: n in vs ==> DistinctLabels(vs[n])
    ensures HoldsAll(fs, own, vs) && forall n :: n in fs ==> fresh(fs[n]) && fresh(own[n])
  {
    fs, own := map[], map[];
    var todo := vs.Keys;
    ghost var seen := {};
    while todo != {}
      invariant seen <= vs.Keys && todo == vs.Keys - seen && HoldsAll(fs, own, Part(vs, seen))
      invariant forall n :: n in fs ==> fresh(fs[n]) && fresh(own[n])
      decreases todo
    {
      var name :| name in todo;
      PartOneMore(vs, seen, name);
      var mf, o := NewFamily(fs, own, Part(vs, seen), name, vs[name]);
      fs, own := fs[name := mf], own[name := o];
      todo, seen := todo - {name}, seen + {name};
    }
    PartOfAll(vs, seen);
  }

  lemma PartOneMore(vs: FamilyValues, seen: set<string>, name: string)
    requires name in vs && name !in seen
    ensures name !in Part(vs, seen) && Part(vs, seen + {name}) == Part(vs, seen)[name := vs[name]]
  {
  }

  lemma PartOfAll(vs: FamilyValues, seen: set<string>)
    requires seen == vs.Keys
    ensures Part(vs, seen) == vs
  {
  }
}
