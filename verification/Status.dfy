/** The exporter status map of pkg/scraper as a function of the calls made so far. */
module Status {
  import opened Api

  datatype ScrapeResult = ScrapeResult(target: TargetVM, payload: string, error: Option<string>, latencyMs: nat)

  /** lastSuccess is None for the zero time. */
  datatype ExporterStatus = ExporterStatus(
    vmID: string, vmName: string, endpoint: string, healthy: bool, lastSuccess: Option<nat>,
    lastError: string, durationMs: nat)

  function Decimal(n: nat): string {
    if n < 10 then [('0' as int + n) as char] else Decimal(n / 10) + [('0' as int + n % 10) as char]
  }

  function Endpoint(t: TargetVM): string {
    t.guestIP + ":" + Decimal(if t.port <= 0 then 9400 else t.port)
  }

  function DigitsValue(s: string): int {
    if s == "" then 0 else 10 * DigitsValue(s[..|s| - 1]) + (s[|s| - 1] as int - '0' as int)
  }

  /** s is how n is written in decimal. */
  ghost predicate IsNumeral(s: string, n: int) {
    && s != "" && (forall i :: 0 <= i < |s| ==> '0' <= s[i] <= '9') && (s[0] == '0' ==> |s| == 1)
    && DigitsValue(s) == n
  }

  lemma {:induction false} DecimalIsNumeral(n: nat)
    ensures IsNumeral(Decimal(n), n)
    decreases n
  {
    var s := Decimal(n);
    if n < 10 {
      assert s[..0] == "";
    } else {
      DecimalIsNumeral(n / 10);
      assert s[..|s| - 1] == Decimal(n / 10);
    }
  }

  /** The address, a colon, and the port written in decimal, which is 9400 where none is given. */
  ghost predicate ShowsEndpoint(s: string, t: TargetVM) {
    && |t.guestIP| < |s| && s[..|t.guestIP|] == t.guestIP && s[|t.guestIP|] == ':'
    && IsNumeral(s[|t.guestIP| + 1..], if t.port > 0 then t.port else 9400)
  }

  lemma EndpointIsShown(t: TargetVM)
    ensures ShowsEndpoint(Endpoint(t), t)
  {
    var port := Decimal(if t.port <= 0 then 9400 else t.port);
    DecimalIsNumeral(if t.port <= 0 then 9400 else t.port);
    assert Endpoint(t)[|t.guestIP| + 1..] == port;
  }

  /** One critical section under the status lock. */
  datatype Event = Record(res: ScrapeResult, now: nat) | Prune(ids: set<string>)

  type StatusMap = map<string, ExporterStatus>

  function Row(m: StatusMap, res: ScrapeResult, now: nat): ExporterStatus {
    var id := res.target.vmID;
    ExporterStatus(id, res.target.vmName, Endpoint(res.target), res.error.None?,
      if res.error.None? then Some(now) else if id in m then m[id].lastSuccess else None,
      if res.error.None? then "" else res.error.value,
      res.latencyMs)
  }

  function Step(m: StatusMap, e: Event): StatusMap {
    match e
    case Record(res, now) => m[res.target.vmID := Row(m, res, now)]
    case Prune(ids) => map id | id in m && id in ids :: m[id]
  }

  function StatusAfter(h: seq<Event>): StatusMap {
    if h == [] then map[] else Step(StatusAfter(h[..|h| - 1]), h[|h| - 1])
  }

  lemma StatusOneMore(h: seq<Event>, e: Event)
    ensures StatusAfter(h + [e]) == Step(StatusAfter(h), e)
  {
    assert (h + [e])[..|h + [e]| - 1] == h;
  }

  // --- reading a history

  predicate Records(e: Event, id: string) { e.Record? && e.res.target.vmID == id }
  predicate Succeeds(e: Event, id: string) { Records(e, id) && e.res.error.None? }
  predicate Omits(e: Event, id: string) { e.Prune? && id !in e.ids }

  /** h[i] is a record of id that no later prune has wiped out. */
  ghost predicate KeptAt(h: seq<Event>, i: int, id: string) {
    0 <= i < |h| && Records(h[i], id) && forall j :: i < j < |h| ==> !Omits(h[j], id)
  }

  ghost predicate LatestAt(h: seq<Event>, i: int, id: string) {
    KeptAt(h, i, id) && forall j :: i < j < |h| ==> !Records(h[j], id)
  }

  ghost predicate LatestSuccessAt(h: seq<Event>, i: int, id: string) {
    KeptAt(h, i, id) && Succeeds(h[i], id) && forall j :: i < j < |h| ==> !Succeeds(h[j], id)
  }

  ghost predicate ShowsRecord(s: ExporterStatus, r: ScrapeResult) {
    && s.vmID == r.target.vmID && s.vmName == r.target.vmName && ShowsEndpoint(s.endpoint, r.target)
    && s.healthy == r.error.None? && s.durationMs == r.latencyMs
    && s.lastError == (if r.error.None? then "" else r.error.value)
  }

  /** An id is present if and only if it was recorded since the last prune that omitted it; its row is that of
      its latest record; lastSuccess is the time of its latest success since that prune, or zero without one. */
  ghost predicate Refines(m: StatusMap, h: seq<Event>, id: string) {
    && (id in m <==> exists i :: KeptAt(h, i, id))
    && (forall i :: LatestAt(h, i, id) ==> id in m && ShowsRecord(m[id], h[i].res))
    && (forall i :: LatestSuccessAt(h, i, id) ==> id in m && m[id].lastSuccess == Some(h[i].now))
    && (id in m && m[id].lastSuccess.Some? ==> exists i :: LatestSuccessAt(h, i, id))
  }

  /** Over every history, that is every interleaving of records and prunes of overlapping calls. */
  lemma {:induction false} StatusRefinesHistory(h: seq<Event>, id: string)
    ensures Refines(StatusAfter(h), h, id)
  {
    if h != [] {
      var g, e := h[..|h| - 1], h[|h| - 1];
      StatusRefinesHistory(g, id);
      assert h == g + [e];
      if Omits(e, id) {
        OmittedRefines(StatusAfter(g), g, e, id);
      } else if Succeeds(e, id) {
        SuccessRefines(StatusAfter(g), g, e, id);
      } else if Records(e, id) {
        FailureRefines(StatusAfter(g), g, e, id);
      } else {
        OtherRefines(StatusAfter(g), g, e, id);
      }
    }
  }

  lemma OmittedRefines(m: StatusMap, g: seq<Event>, e: Event, id: string)
    requires Omits(e, id)
    ensures Refines(Step(m, e), g + [e], id)
  {
    var h := g + [e];
    forall i ensures !KeptAt(h, i, id) {
      assert h[|g|] == e;
    }
  }

  lemma SuccessRefines(m: StatusMap, g: seq<Event>, e: Event, id: string)
    requires Succeeds(e, id)
    ensures Refines(Step(m, e), g + [e], id)
  {
    var h := g + [e];
    EndpointIsShown(e.res.target);
    assert h[|g|] == e;
    assert KeptAt(h, |g|, id) && LatestSuccessAt(h, |g|, id);
    forall i | LatestAt(h, i, id) || LatestSuccessAt(h, i, id) ensures i == |g| {}
  }

  lemma FailureRefines(m: StatusMap, g: seq<Event>, e: Event, id: string)
    requires Records(e, id) && !Succeeds(e, id) && Refines(m, g, id)
    ensures Refines(Step(m, e), g + [e], id)
  {
    var h := g + [e];
    EndpointIsShown(e.res.target);
    assert h[|g|] == e;
    assert KeptAt(h, |g|, id);
    forall i | LatestAt(h, i, id) ensures i == |g| {}
    ExtendsBack(g, e, id);
    if id in m && m[id].lastSuccess.Some? {
      var i :| LatestSuccessAt(g, i, id);
      assert LatestSuccessAt(h, i, id);
    }
  }

  lemma OtherRefines(m: StatusMap, g: seq<Event>, e: Event, id: string)
    requires !Omits(e, id) && !Records(e, id) && Refines(m, g, id)
    ensures Refines(Step(m, e), g + [e], id)
  {
    var h := g + [e];
    ExtendsBack(g, e, id);
    if id in m {
      var i :| KeptAt(g, i, id);
      assert KeptAt(h, i, id);
      if m[id].lastSuccess.Some? {
        var k :| LatestSuccessAt(g, k, id);
        assert LatestSuccessAt(h, k, id);
      }
    }
    assert forall i :: KeptAt(h, i, id) ==> KeptAt(g, i, id);
    assert forall i :: LatestAt(h, i, id) ==> LatestAt(g, i, id) && h[i] == g[i];
    assert forall i :: LatestSuccessAt(h, i, id) ==> LatestSuccessAt(g, i, id) && h[i] == g[i];
  }

  /** An event that neither omits nor successfully records id leaves the earlier records of id as they were. */
  lemma ExtendsBack(g: seq<Event>, e: Event, id: string)
    requires !Omits(e, id) && !Succeeds(e, id)
    ensures var h := g + [e];
      && (forall i :: 0 <= i < |g| ==> (KeptAt(h, i, id) <==> KeptAt(g, i, id)))
      && (forall i :: 0 <= i < |g| ==> (LatestSuccessAt(h, i, id) <==> LatestSuccessAt(g, i, id)))
      && (!Records(e, id) ==> forall i :: 0 <= i < |g| ==> (LatestAt(h, i, id) <==> LatestAt(g, i, id)))
      && !LatestSuccessAt(h, |g|, id)
  {
    var h := g + [e];
    assert forall i :: 0 <= i < |g| ==> h[i] == g[i];
    assert h[|g|] == e;
  }

  lemma {:induction false} KeysAfterRecords(h: seq<Event>, recs: seq<Event>)
    requires forall e :: e in recs ==> e.Record?
    ensures StatusAfter(h + recs).Keys == StatusAfter(h).Keys + (set e | e in recs && e.Record? :: e.res.target.vmID)
  {
    if recs == [] {
      assert h + recs == h;
    } else {
      var n := |recs| - 1;
      KeysAfterRecords(h, recs[..n]);
      assert (h + recs)[..|h + recs| - 1] == h + recs[..n];
      assert recs == recs[..n] + [recs[n]];
      assert forall e :: e in recs <==> e in recs[..n] || e == recs[n];
    }
  }
}
