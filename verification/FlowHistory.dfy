/**
  One aggregated flow over time: the state after any sequence of received records, resets,
  retries and callbacks, and what the stored end times are.
 */
module FlowHistory {
  import opened Bytes
  import opened FlowContent
  import opened FlowEffects
  import opened FlowMerge
  import opened FlowOpen
  import opened FlowAttempts

  /** What can happen to a flow: a record for its key arrives and is merged, its counters are reset, its expiry finds it
      not ready, it is handed to the expiry callback, which may set its flag, or the callback rewrites its record, in
      fields that the aggregation does not use or in others. A record may also be refused after part of the merge, and
      a reset after part of the fields. */
  datatype FlowEvent =
    | Received(rec: Record) | Cleared | Retried | CalledBack(correlated: bool)
    | Annotated(contents: Record) | Edited(contents: Record)
    | Spoilt(rec: Record) | HalfCleared

  datatype Flow = Flow(
    record: Record, ready: bool, retries: nat, correlated: bool, isIPv4: bool, history: seq<FlowEvent>)

  /** The configured element names and the fields to correlate. */
  datatype Rules = Rules(e: AggregationElements, fields: seq<string>)

  function Open(r: Rules, rec: Record, isIPv4: bool): Flow
    requires Aligned(r.e)
  {
    var required := CorrelationRequired(rec);
    Flow(Opened(r.e, rec), !required, 0, !required && Get8(rec, FLOW_TYPE) != INTER_NODE, isIPv4, [Received(rec)])
  }

  /** Whether a record is to be correlated with the stored one before it is merged. */
  predicate Correlating(f: Flow, rec: Record) {
    CorrelationRequired(rec) && !f.ready && !FromSameNode(rec, f.record)
  }

  function Merge(r: Rules, f: Flow, rec: Record): Flow
    requires Aligned(r.e)
  {
    var c := Correlating(f, rec);
    var base := if c then Correlate(r.fields, rec, f.record, 0) else f.record;
    f.(record := Aggregate(r.e, rec, base, Fills(rec, Source), Fills(rec, Destination)),
       ready := f.ready || c, correlated := f.correlated || c, history := f.history + [Received(rec)])
  }

  /** The first part of merging any record whatever: what is read of it, and the correlation. */
  function TryCorrelated(r: Rules, f: Flow, rec: Record): (Flow, Status) {
    if !ReadableType(rec) || (CorrelationRequired(rec) && !f.ready && !ReadableNodes(rec, f.record)) then (f, Panicked)
    else
      var c := Correlating(f, rec);
      var a := if c then TryCorrelate(r.fields, rec, f.record, 0) else Attempt(f.record, Done);
      if a.status != Done then (f.(record := a.rec), a.status)
      else (f.(record := a.rec, ready := f.ready || c, correlated := f.correlated || c), Done)
  }

  /** The second part. */
  function TryAggregated(r: Rules, f: Flow, rec: Record): (Flow, Status)
    requires Aligned(r.e)
  {
    if CorrelationRequired(rec) && !ReadableNode(rec, Source) then (f, Panicked)
    else
      var a := TryAggregate(r.e, rec, f.record, Fills(rec, Source), Fills(rec, Destination));
      (f.(record := a.rec), a.status)
  }

  /** Merging any record whatever: the flow as it is left, and how that ends. */
  function TryMerge(r: Rules, f: Flow, rec: Record): (Flow, Status)
    requires Aligned(r.e)
  {
    var (g, status) := TryCorrelated(r, f, rec);
    if status != Done then (g, status) else TryAggregated(r, g, rec)
  }

  /** A merge that runs through is the merge of the theorems. */
  lemma DoneMerges(r: Rules, f: Flow, rec: Record)
    requires Aligned(r.e) && TryMerge(r, f, rec).1 == Done
    ensures Merge(r, f, rec) == TryMerge(r, f, rec).0.(history := f.history + [Received(rec)])
  {
    hide ReadableType, ReadableNodes, ReadableNode, TryCorrelate, Correlate, TryAggregate, Aggregate, Fills,
      CorrelationRequired, FromSameNode;
    var c := Correlating(f, rec);
    DoneCorrelates(r.fields, rec, f.record, 0);
    var base := if c then Correlate(r.fields, rec, f.record, 0) else f.record;
    DoneAggregates(r.e, rec, base, Fills(rec, Source), Fills(rec, Destination));
  }

  /** The names that merges, resets and the readiness of a flow look at or write. */
  function Watched(e: AggregationElements): seq<string> {
    [FLOW_END, EndName(Source), EndName(Destination), FLOW_END_REASON, TCP_STATE, PodName(Source), PodName(Destination)]
      + e.stats + e.sourceStats + e.destinationStats + e.throughput + e.sourceThroughput + e.destinationThroughput
  }

  /** One record differs from the other only in fields that the aggregation does not use. */
  predicate Harmless(e: AggregationElements, a: Record, b: Record) {
    forall m :: m in Watched(e) ==> Find(a, m) == Find(b, m)
  }

  function Apply(r: Rules, f: Flow, ev: FlowEvent): (g: Flow)
    requires Aligned(r.e)
    ensures g.history == f.history + [ev] && g.isIPv4 == f.isIPv4
  {
    match ev
    case Received(rec) => Merge(r, f, rec)
    case Cleared => f.(record := Reset(r.e, f.record), history := f.history + [ev])
    case Retried => f.(retries := f.retries + 1, history := f.history + [ev])
    case CalledBack(correlated) => f.(correlated := correlated, history := f.history + [ev])
    case Annotated(contents) =>
      f.(record := if Harmless(r.e, f.record, contents) then contents else f.record, history := f.history + [ev])
    case Edited(contents) => f.(record := contents, history := f.history + [ev])
    case Spoilt(rec) => TryMerge(r, f, rec).0.(history := f.history + [ev])
    case HalfCleared => f.(record := TryReset(r.e, f.record).rec, history := f.history + [ev])
  }

  /** The flow after a history that begins with the record that opened it. */
  function Replay(r: Rules, isIPv4: bool, h: seq<FlowEvent>): (f: Flow)
    requires Aligned(r.e) && h != [] && h[0].Received?
    ensures f.history == h && f.isIPv4 == isIPv4
  {
    if |h| == 1 then Open(r, h[0].rec, isIPv4)
    else Apply(r, Replay(r, isIPv4, h[..|h| - 1]), h[|h| - 1])
  }

  /** An event that leaves the fields of the aggregation to the aggregation. */
  predicate Orderly(ev: FlowEvent) {
    !ev.Edited? && !ev.Spoilt? && !ev.HalfCleared?
  }

  /** Histories made of records as nodes send them, with no field of the aggregation rewritten since, under a usable
      configuration. */
  ghost predicate Proper(r: Rules, h: seq<FlowEvent>) {
    && Aligned(r.e) && Usable(r.e) && h != [] && h[0].Received?
    && (forall k :: 0 <= k < |h| && h[k].Received? ==> Incoming(r.e, h[k].rec))
    && forall k :: 0 <= k < |h| ==> Orderly(h[k])
  }

  lemma ProperPrefix(r: Rules, h: seq<FlowEvent>, n: nat)
    requires Proper(r, h) && 0 < n <= |h|
    ensures Proper(r, h[..n])
  {
    hide Usable, Incoming;
  }

  /** Correlation leaves every field of the aggregation alone: their types are not correlated. */
  lemma CorrelateKeeps(r: Rules, inc: Record, ex: Record)
    requires Aligned(r.e) && Incoming(r.e, inc) && Stored(r.e, ex)
    ensures var b := Correlate(r.fields, inc, ex, 0);
            && Stored(r.e, b)
            && (forall k :: 0 <= k < |r.e.stats| ==> SameStats(r.e, ex, b, k))
            && (forall k :: 0 <= k < |r.e.throughput| ==> SameRates(r.e, ex, b, k))
            && (forall m :: IsEnd(m) ==> Find(b, m) == Find(ex, m))
            && (FLOW_END_REASON !in r.fields ==> Find(b, FLOW_END_REASON) == Find(ex, FLOW_END_REASON))
            && (TCP_STATE !in r.fields ==> Find(b, TCP_STATE) == Find(ex, TCP_STATE))
  {
    hide NameOf, Find, Correlate;
    CorrelateEffect(r.fields, inc, ex, 0);
    var b := Correlate(r.fields, inc, ex, 0);
    forall k | 0 <= k < |r.e.stats|
      ensures SameStats(r.e, ex, b, k) && HasStats(r.e, b, k)
    {
      assert HasStats(r.e, ex, k);
    }
    forall k | 0 <= k < |r.e.throughput|
      ensures SameRates(r.e, ex, b, k) && HasRates(r.e, b, k)
    {
      assert HasRates(r.e, ex, k);
    }
  }

  /** The stored record that a received one is merged into. */
  ghost function Base(r: Rules, f: Flow, rec: Record): Record {
    if Correlating(f, rec) then Correlate(r.fields, rec, f.record, 0) else f.record
  }

  lemma BaseKeeps(r: Rules, f: Flow, rec: Record)
    requires Aligned(r.e) && Incoming(r.e, rec) && Stored(r.e, f.record)
    ensures var b := Base(r, f, rec);
            && Stored(r.e, b)
            && (forall k :: 0 <= k < |r.e.stats| ==> SameStats(r.e, f.record, b, k))
            && (forall k :: 0 <= k < |r.e.throughput| ==> SameRates(r.e, f.record, b, k))
            && (forall m :: IsEnd(m) ==> Find(b, m) == Find(f.record, m))
            && (FLOW_END_REASON !in r.fields ==> Find(b, FLOW_END_REASON) == Find(f.record, FLOW_END_REASON))
            && (TCP_STATE !in r.fields ==> Find(b, TCP_STATE) == Find(f.record, TCP_STATE))
  {
    hide NameOf, Find, Correlate, Incoming, Stored, Correlating;
    if Correlating(f, rec) {
      CorrelateKeeps(r, rec, f.record);
    }
  }

  /** One received record, in terms of the stored record before and after. */
  ghost predicate Merges(r: Rules, rec: Record, a: Record, b: Record)
    requires Aligned(r.e)
  {
    var fs, fd := Fills(rec, Source), Fills(rec, Destination);
    && Stored(r.e, b) && EndsMoved(rec, a, b, fs, fd)
    && (Later(rec, a, fs, fd) ==>
          forall k :: 0 <= k < |r.e.stats| ==> StatChanged(r.e, rec, a, b, fs, fd, Latest(rec, a), k))
    && (!Later(rec, a, fs, fd) ==> forall k :: 0 <= k < |r.e.stats| ==> SameStats(r.e, a, b, k))
    && (FLOW_END_REASON in r.e.nonStats && FLOW_END_REASON !in r.fields ==>
          Get8(b, FLOW_END_REASON) ==
          if Later(rec, a, fs, fd) && Get8(a, FLOW_END_REASON) != END_OF_FLOW then Get8(rec, FLOW_END_REASON)
          else Get8(a, FLOW_END_REASON))
    && (TCP_STATE in r.e.nonStats && TCP_STATE !in r.fields ==>
          GetText(b, TCP_STATE) ==
          if Later(rec, a, fs, fd) && Latest(rec, a) then GetText(rec, TCP_STATE) else GetText(a, TCP_STATE))
  }

  lemma SameGuards(a: Record, b: Record, rec: Record, fs: bool, fd: bool)
    requires forall m :: IsEnd(m) ==> Find(b, m) == Find(a, m)
    ensures Later(rec, a, fs, fd) == Later(rec, b, fs, fd) && Latest(rec, a) == Latest(rec, b)
    ensures Previous(rec, a, fs, fd) == Previous(rec, b, fs, fd)
    ensures forall c :: EndsMoved(rec, b, c, fs, fd) ==> EndsMoved(rec, a, c, fs, fd)
  {
    hide NameOf, Find;
    assert IsEnd(FLOW_END) && IsEnd(EndName(Source)) && IsEnd(EndName(Destination));
  }

  lemma OpenEffect(r: Rules, rec: Record)
    requires Aligned(r.e) && Usable(r.e) && Incoming(r.e, rec)
    ensures Stored(r.e, Opened(r.e, rec)) && Opens(r.e, rec, Opened(r.e, rec))
  {
    hide NameOf, Find, Assigns, Usable, Incoming, Stored, Opened, Opens, Foreign;
    var roles := RolesOf(r.e);
    OpenedEffect(r.e, roles, rec);
  }

  /** A reset, in terms of the stored record before and after. */
  ghost predicate Clears(r: Rules, a: Record, b: Record)
    requires Aligned(r.e)
  {
    && Stored(r.e, b)
    && (forall k :: 0 <= k < |r.e.stats| ==> StatsReset(r.e, a, b, k))
    && (forall m :: IsEnd(m) ==> Find(b, m) == Find(a, m))
    && Find(b, FLOW_END_REASON) == Find(a, FLOW_END_REASON) && Find(b, TCP_STATE) == Find(a, TCP_STATE)
  }

  lemma ClearEffect(r: Rules, rec: Record)
    requires Aligned(r.e) && Usable(r.e) && Stored(r.e, rec)
    ensures Clears(r, rec, Reset(r.e, rec))
  {
    hide NameOf, Find, Assigns, Usable, Stored, Reset, StatsReset, RatesOpened, Foreign;
    var roles := RolesOf(r.e);
    ResetEffect(r.e, roles, rec);
  }

  lemma AggregateMerges(e: AggregationElements, rec: Record, base: Record)
    requires Aligned(e) && Usable(e) && Stored(e, base)
    ensures Merges(Rules(e, []), rec, base, Aggregate(e, rec, base, Fills(rec, Source), Fills(rec, Destination)))
  {
    hide NameOf, Find, Assigns, Usable, Stored, Aggregate, Fills, StatChanged, Later, Latest, EndsMoved, Foreign;
    var roles := RolesOf(e);
    var fs, fd := Fills(rec, Source), Fills(rec, Destination);
    AggregateEffect(e, roles, rec, base, fs, fd);
    KnownRoles(e, roles);
    if !Later(rec, base, fs, fd) {
      KeepsStats(e, roles, base, Aggregate(e, rec, base, fs, fd));
    }
  }

  lemma MergeEffect(r: Rules, f: Flow, rec: Record)
    requires Aligned(r.e) && Usable(r.e) && Incoming(r.e, rec) && Stored(r.e, f.record)
    ensures Merges(r, rec, f.record, Merge(r, f, rec).record)
  {
    hide NameOf, Find, Usable, Incoming, Stored, Aggregate, Correlating, Correlate, Merges, SameStats, SameRates;
    BaseKeeps(r, f, rec);
    AggregateMerges(r.e, rec, Base(r, f, rec));
    MergesFrom(r, rec, f.record, Base(r, f, rec), Merge(r, f, rec).record);
  }

  lemma MergesFrom(r: Rules, rec: Record, a: Record, base: Record, b: Record)
    requires Aligned(r.e) && Merges(Rules(r.e, []), rec, base, b)
    requires forall k :: 0 <= k < |r.e.stats| ==> SameStats(r.e, a, base, k)
    requires forall m :: IsEnd(m) ==> Find(base, m) == Find(a, m)
    requires FLOW_END_REASON !in r.fields ==> Find(base, FLOW_END_REASON) == Find(a, FLOW_END_REASON)
    requires TCP_STATE !in r.fields ==> Find(base, TCP_STATE) == Find(a, TCP_STATE)
    ensures Merges(r, rec, a, b)
  {
    hide NameOf, Find, Stored, Fills, NewCommon, NewCounter, IsDelta, Later, Latest, EndsMoved;
    var fs, fd := Fills(rec, Source), Fills(rec, Destination);
    SameGuards(a, base, rec, fs, fd);
    forall k | 0 <= k < |r.e.stats|
      ensures Later(rec, a, fs, fd) ==> StatChanged(r.e, rec, a, b, fs, fd, Latest(rec, a), k)
      ensures !Later(rec, a, fs, fd) ==> SameStats(r.e, a, b, k)
    {
      assert SameStats(r.e, a, base, k);
      assert Later(rec, a, fs, fd) ==> StatChanged(r.e, rec, base, b, fs, fd, Latest(rec, base), k);
      assert !Later(rec, a, fs, fd) ==> SameStats(r.e, base, b, k);
    }
  }

  lemma AnnotationKeeps(r: Rules, a: Record, b: Record)
    requires Aligned(r.e) && Harmless(r.e, a, b)
    ensures forall k :: 0 <= k < |r.e.stats| ==> SameStats(r.e, a, b, k)
    ensures forall k :: 0 <= k < |r.e.throughput| ==> SameRates(r.e, a, b, k)
    ensures forall m :: IsEnd(m) ==> Find(b, m) == Find(a, m)
    ensures Find(b, FLOW_END_REASON) == Find(a, FLOW_END_REASON) && Find(b, TCP_STATE) == Find(a, TCP_STATE)
    ensures Find(b, PodName(Source)) == Find(a, PodName(Source))
    ensures Find(b, PodName(Destination)) == Find(a, PodName(Destination))
  {
    hide NameOf, Find;
    var w := Watched(r.e);
    assert w[0] in w && w[1] in w && w[2] in w && w[3] in w && w[4] in w && w[5] in w && w[6] in w;
  }

  lemma AnnotationIsStored(r: Rules, a: Record, b: Record)
    requires Aligned(r.e) && Harmless(r.e, a, b) && Stored(r.e, a)
    ensures Stored(r.e, b)
  {
    hide NameOf, Find, Harmless;
    AnnotationKeeps(r, a, b);
    assert IsEnd(FLOW_END) && IsEnd(EndName(Source)) && IsEnd(EndName(Destination));
    forall k | 0 <= k < |r.e.stats|
      ensures HasStats(r.e, b, k)
    {
      assert HasStats(r.e, a, k) && SameStats(r.e, a, b, k);
    }
    forall k | 0 <= k < |r.e.throughput|
      ensures HasRates(r.e, b, k)
    {
      assert HasRates(r.e, a, k) && SameRates(r.e, a, b, k);
    }
  }

  /** Every field that merging needs is present at every point of every history. */
  lemma {:induction false} AlwaysStored(r: Rules, v4: bool, h: seq<FlowEvent>)
    requires Proper(r, h)
    ensures Stored(r.e, Replay(r, v4, h).record)
  {
    hide NameOf, Find, Usable, Incoming, Stored, Opened, Opens, Merge, Reset, Harmless;
    if |h| == 1 {
      OpenEffect(r, h[0].rec);
    } else {
      var p := h[..|h| - 1];
      ProperPrefix(r, h, |h| - 1);
      AlwaysStored(r, v4, p);
      var f := Replay(r, v4, p);
      match h[|h| - 1]
      case Received(rec) => MergeEffect(r, f, rec);
      case Cleared => ClearEffect(r, f.record);
      case Annotated(contents) =>
        if Harmless(r.e, f.record, contents) {
          AnnotationIsStored(r, f.record, contents);
        }
      case Retried =>
      case CalledBack(_) =>
    }
  }

  // ---------- end times ----------

  function EndOf(rec: Record): u32 { Get32(rec, FLOW_END) }

  function StartOf(rec: Record): u32 { Get32(rec, FLOW_START) }

  /** The end time last received from a node, zero if none was. */
  function LastEnd(h: seq<FlowEvent>, node: Node): u32 {
    if h == [] then 0
    else
      var ev := h[|h| - 1];
      if ev.Received? && Fills(ev.rec, node) then EndOf(ev.rec) else LastEnd(h[..|h| - 1], node)
  }

  function NodeBefore(h: seq<FlowEvent>, rec: Record, node: Node): u32 {
    if LastEnd(h, node) == 0 then StartOf(rec) else LastEnd(h, node)
  }

  /** The time a record must be later than: that of the destination node if it reports for it. */
  function Before(h: seq<FlowEvent>, rec: Record): u32 {
    NodeBefore(h, rec, if Fills(rec, Destination) then Destination else Source)
  }

  /** Event `k` is a record that opened the flow or was later than its node's previous one. */
  predicate Accepted(h: seq<FlowEvent>, k: nat)
    requires k < |h|
  {
    h[k].Received? && (k == 0 || EndOf(h[k].rec) > Before(h[..k], h[k].rec))
  }

  /** Event `k` is a record that ended no earlier than anything received before it. */
  ghost predicate LatestAt(h: seq<FlowEvent>, k: nat)
    requires k < |h|
  {
    h[k].Received? && forall j :: 0 <= j < k && h[j].Received? ==> EndOf(h[j].rec) <= EndOf(h[k].rec)
  }

  /** `t` is the largest end time received. */
  ghost predicate IsLargestEnd(h: seq<FlowEvent>, t: int) {
    && (exists k :: 0 <= k < |h| && h[k].Received? && EndOf(h[k].rec) == t)
    && (forall k :: 0 <= k < |h| && h[k].Received? ==> EndOf(h[k].rec) <= t)
  }

  ghost predicate EndsAre(rec: Record, h: seq<FlowEvent>) {
    && IsLargestEnd(h, Get32(rec, FLOW_END))
    && Get32(rec, EndName(Source)) == LastEnd(h, Source)
    && Get32(rec, EndName(Destination)) == LastEnd(h, Destination)
  }

  lemma LargestExtends(h: seq<FlowEvent>, ev: FlowEvent, t: u32)
    requires IsLargestEnd(h, t)
    ensures IsLargestEnd(h + [ev], if ev.Received? then Max(t, EndOf(ev.rec)) else t)
  {
    hide EndOf;
    var k :| 0 <= k < |h| && h[k].Received? && EndOf(h[k].rec) == t;
    var g := h + [ev];
    if ev.Received? && t < EndOf(ev.rec) {
      assert g[|h|].Received?;
    } else {
      assert g[k] == h[k];
    }
  }

  lemma OnlyEnd(h: seq<FlowEvent>)
    requires |h| == 1 && h[0].Received?
    ensures IsLargestEnd(h, EndOf(h[0].rec))
    ensures forall node :: LastEnd(h, node) == if Fills(h[0].rec, node) then EndOf(h[0].rec) else 0
  {
    hide NameOf, Find, Fills, EndOf;
    assert h[..0] == [];
  }

  lemma EndsExtend(h: seq<FlowEvent>, rec: Record, a: Record, b: Record)
    requires EndsAre(a, h) && EndsMoved(rec, a, b, Fills(rec, Source), Fills(rec, Destination))
    ensures EndsAre(b, h + [Received(rec)])
  {
    hide NameOf, Find, Fills;
    LargestExtends(h, Received(rec), Get32(a, FLOW_END));
    assert (h + [Received(rec)])[..|h|] == h;
  }

  lemma EndsStay(h: seq<FlowEvent>, ev: FlowEvent, a: Record, b: Record)
    requires EndsAre(a, h) && !ev.Received? && forall m :: IsEnd(m) ==> Find(b, m) == Find(a, m)
    ensures EndsAre(b, h + [ev])
  {
    hide NameOf, Find, Fills;
    LargestExtends(h, ev, Get32(a, FLOW_END));
    assert (h + [ev])[..|h|] == h;
    assert IsEnd(FLOW_END) && IsEnd(EndName(Source)) && IsEnd(EndName(Destination));
  }

  /** Over every history, `flowEndSeconds` is the maximum over all records received, even those whose
      counters were skipped, and each per-node end time is the one last received from that node. */
  lemma {:induction false} EndTimes(r: Rules, v4: bool, h: seq<FlowEvent>)
    requires Proper(r, h)
    ensures EndsAre(Replay(r, v4, h).record, h)
  {
    hide NameOf, Find, Usable, Incoming, Stored, Opened, CountersOpened, RatesOpened, Merge, EndsMoved, Reset,
      StatsReset, Fills, IsLargestEnd, LastEnd, Harmless;
    if |h| == 1 {
      OpenEffect(r, h[0].rec);
      OnlyEnd(h);
    } else {
      var p, ev := h[..|h| - 1], h[|h| - 1];
      assert h == p + [ev];
      ProperPrefix(r, h, |h| - 1);
      EndTimes(r, v4, p);
      AlwaysStored(r, v4, p);
      var f := Replay(r, v4, p);
      match ev
      case Received(rec) =>
        MergeEffect(r, f, rec);
        EndsExtend(p, rec, f.record, Replay(r, v4, h).record);
      case Cleared =>
        ClearEffect(r, f.record);
        EndsStay(p, ev, f.record, Replay(r, v4, h).record);
      case Annotated(contents) =>
        if Harmless(r.e, f.record, contents) {
          AnnotationKeeps(r, f.record, contents);
        }
        EndsStay(p, ev, f.record, Replay(r, v4, h).record);
      case Retried => EndsStay(p, ev, f.record, f.record);
      case CalledBack(_) => EndsStay(p, ev, f.record, f.record);
    }
  }

  /** The guards inside a merge say, of the history alone, that the record was accepted and that it was the latest. */
  lemma GuardsMeanAccepted(r: Rules, v4: bool, h: seq<FlowEvent>, rec: Record)
    requires Proper(r, h) && Incoming(r.e, rec)
    ensures var a, fs, fd := Replay(r, v4, h).record, Fills(rec, Source), Fills(rec, Destination);
            && (Later(rec, a, fs, fd) <==> Accepted(h + [Received(rec)], |h|))
            && (Latest(rec, a) <==> LatestAt(h + [Received(rec)], |h|))
            && Previous(rec, a, fs, fd) == Before(h, rec)
  {
    hide NameOf, Find, Usable, Incoming, Replay, FromNode, CorrelationRequired;
    var g := h + [Received(rec)];
    assert g[..|h|] == h && g[|h|] == Received(rec);
    assert forall j :: 0 <= j < |h| ==> g[j] == h[j];
    EndTimes(r, v4, h);
  }
}
