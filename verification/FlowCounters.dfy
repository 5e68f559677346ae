/** Conservation of counters, maxima and the end reason over every history of a flow. */
module FlowCounters {
  import opened Bytes
  import opened FlowContent
  import opened FlowEffects
  import opened FlowOpen
  import opened FlowMerge
  import opened FlowHistory
  import opened FlowReadiness

  ghost function Side(e: AggregationElements, node: Node, k: nat): string
    requires Aligned(e) && k < |e.stats|
  {
    if node.Source? then e.sourceStats[k] else e.destinationStats[k]
  }

  /** What the last event of a history does to statistic `k`. */
  lemma StatStep(r: Rules, v4: bool, h: seq<FlowEvent>, k: nat)
    requires Proper(r, h) && |h| > 1 && k < |r.e.stats|
    ensures var n := |h| - 1;
            var a, b := Replay(r, v4, h[..n]).record, Replay(r, v4, h).record;
            if h[n].Received? && Accepted(h, n) then
              var rec := h[n].rec;
              StatChanged(r.e, rec, a, b, Fills(rec, Source), Fills(rec, Destination), LatestAt(h, n), k)
            else if h[n].Cleared? then StatsReset(r.e, a, b, k)
            else SameStats(r.e, a, b, k)
  {
    hide NameOf, Find, Usable, Incoming, Stored, Merge, Reset, Fills, NewCommon, NewCounter, IsDelta, Accepted,
      LatestAt, Harmless;
    var p, ev := h[..|h| - 1], h[|h| - 1];
    assert h == p + [ev];
    ProperPrefix(r, h, |h| - 1);
    AlwaysStored(r, v4, p);
    var f := Replay(r, v4, p);
    match ev
    case Received(rec) =>
      GuardsMeanAccepted(r, v4, p, rec);
      MergeEffect(r, f, rec);
    case Cleared =>
      ClearEffect(r, f.record);
    case Annotated(contents) =>
      if Harmless(r.e, f.record, contents) {
        AnnotationKeeps(r, f.record, contents);
      }
    case Retried =>
    case CalledBack(_) =>
  }

  // ---------- delta conservation ----------

  /** The sum of the deltas reported for `node` by all accepted records. */
  function Reported(e: AggregationElements, h: seq<FlowEvent>, node: Node, k: nat): nat
    requires k < |e.stats|
  {
    if h == [] then 0
    else
      var n := |h| - 1;
      Reported(e, h[..n], node, k) +
      if Accepted(h, n) && Fills(h[n].rec, node) then Get64(h[n].rec, e.stats[k]) else 0
  }

  /** The sum of the values of the per-node delta counter at the moments it was reset. */
  ghost function Handed(r: Rules, v4: bool, h: seq<FlowEvent>, node: Node, k: nat): nat
    requires Aligned(r.e) && k < |r.e.stats| && h != [] && h[0].Received?
  {
    if |h| == 1 then 0
    else
      var n := |h| - 1;
      Handed(r, v4, h[..n], node, k) +
      if h[n].Cleared? then Get64(Replay(r, v4, h[..n]).record, Side(r.e, node, k)) else 0
  }

  lemma OpenedStat(r: Rules, rec: Record, k: nat)
    requires Aligned(r.e) && Usable(r.e) && Incoming(r.e, rec) && k < |r.e.stats|
    ensures CountersOpened(r.e, rec, Opened(r.e, rec), Fills(rec, Source), Fills(rec, Destination), k)
  {
    hide NameOf, Find, Usable, Incoming, Stored, Opened, Fills;
    OpenEffect(r, rec);
  }

  lemma SameSum(handed: nat, was: nat, reported: nat, out: nat, gain: nat)
    requires (handed + was) % TWO64 == reported % TWO64 && out <= was
    ensures (handed + out + (was - out + gain) % TWO64) % TWO64 == (reported + gain) % TWO64
  {
  }

  /** The delta that the last event reports for `node`, and what it hands over. */
  function Gain(e: AggregationElements, h: seq<FlowEvent>, node: Node, k: nat): nat
    requires k < |e.stats| && h != []
  {
    if Accepted(h, |h| - 1) && Fills(h[|h| - 1].rec, node) then Get64(h[|h| - 1].rec, e.stats[k]) else 0
  }

  lemma TalliesGrow(r: Rules, v4: bool, h: seq<FlowEvent>, node: Node, k: nat)
    requires Aligned(r.e) && k < |r.e.stats| && |h| > 1 && h[0].Received?
    ensures var n := |h| - 1;
            && Handed(r, v4, h, node, k) == Handed(r, v4, h[..n], node, k) +
                 (if h[n].Cleared? then Get64(Replay(r, v4, h[..n]).record, Side(r.e, node, k)) else 0)
            && Reported(r.e, h, node, k) == Reported(r.e, h[..n], node, k) + Gain(r.e, h, node, k)
  {
    hide NameOf, Find, Fills, Replay, Accepted, Side;
  }

  lemma CounterStep(r: Rules, v4: bool, h: seq<FlowEvent>, node: Node, k: nat)
    requires Proper(r, h) && |h| > 1 && k < |r.e.stats| && IsDelta(r.e.stats[k])
    ensures var n := |h| - 1;
            var was, now := Get64(Replay(r, v4, h[..n]).record, Side(r.e, node, k)),
              Get64(Replay(r, v4, h).record, Side(r.e, node, k));
            now == (was - (if h[n].Cleared? then was else 0) + Gain(r.e, h, node, k)) % TWO64
  {
    hide NameOf, Find, Incoming, Stored, Replay, Fills, NewCommon, IsDelta, Accepted, LatestAt, Usable, Proper;
    var n := |h| - 1;
    StatStep(r, v4, h, k);
    if !h[n].Received? {
      NotAccepted(h, n);
    }
  }

  /** Nothing is lost and nothing is counted twice: over every history, what resets handed over plus what the
      per-node delta counter still holds is, modulo 2^64, the sum of the deltas of the accepted records of that node. */
  lemma {:induction false} DeltaConservation(r: Rules, v4: bool, h: seq<FlowEvent>, node: Node, k: nat)
    requires Proper(r, h) && k < |r.e.stats| && IsDelta(r.e.stats[k])
    ensures (Handed(r, v4, h, node, k) + Get64(Replay(r, v4, h).record, Side(r.e, node, k))) % TWO64
            == Reported(r.e, h, node, k) % TWO64
  {
    hide NameOf, Find, Incoming, Stored, Fills, IsDelta, Accepted, Usable, Handed, Reported, Replay, Side, Gain;
    var n := |h| - 1;
    if n == 0 {
      FirstConserved(r, v4, h, node, k);
    } else {
      ProperPrefix(r, h, n);
      DeltaConservation(r, v4, h[..n], node, k);
      TalliesGrow(r, v4, h, node, k);
      CounterStep(r, v4, h, node, k);
      var was := Get64(Replay(r, v4, h[..n]).record, Side(r.e, node, k));
      SameSum(Handed(r, v4, h[..n], node, k), was, Reported(r.e, h[..n], node, k), if h[n].Cleared? then was else 0,
        Gain(r.e, h, node, k));
    }
  }

  lemma FirstConserved(r: Rules, v4: bool, h: seq<FlowEvent>, node: Node, k: nat)
    requires Proper(r, h) && k < |r.e.stats| && IsDelta(r.e.stats[k]) && |h| == 1
    ensures Handed(r, v4, h, node, k) == 0
    ensures Get64(Replay(r, v4, h).record, Side(r.e, node, k)) == Reported(r.e, h, node, k)
  {
    hide NameOf, Find, Incoming, Stored, Apply, Opened, Fills, IsDelta, Accepted, Usable;
    OpenedStat(r, h[0].rec, k);
    assert h[..0] == [];
    OpeningAccepted(h);
  }

  lemma OpeningAccepted(h: seq<FlowEvent>)
    requires h != [] && h[0].Received?
    ensures Accepted(h, 0)
  {
  }

  lemma NotAccepted(h: seq<FlowEvent>, k: nat)
    requires k < |h| && !h[k].Received?
    ensures !Accepted(h, k)
  {
  }

  /** After an accepted record that is the latest, the common delta is the counter of the side that reported it. */
  lemma CommonDelta(r: Rules, v4: bool, h: seq<FlowEvent>, k: nat)
    requires Proper(r, h) && k < |r.e.stats| && IsDelta(r.e.stats[k])
    requires Accepted(h, |h| - 1) && LatestAt(h, |h| - 1)
    ensures var rec, now := h[|h| - 1].rec, Replay(r, v4, h).record;
            Get64(now, r.e.stats[k]) ==
              Get64(now, Side(r.e, if Fills(rec, Destination) then Destination else Source, k))
  {
    hide NameOf, Find, Incoming, Apply, Opened, FromNode, CorrelationRequired, IsDelta, Before, Usable;
    if |h| == 1 {
      OpenedStat(r, h[0].rec, k);
    } else {
      StatStep(r, v4, h, k);
    }
  }

  // ---------- totals ----------

  /** Record `j` opened the flow, or was accepted while being the latest. */
  ghost predicate Counts(h: seq<FlowEvent>, j: nat)
    requires j < |h|
  {
    Accepted(h, j) && LatestAt(h, j)
  }

  ghost predicate IsLargestTotal(h: seq<FlowEvent>, name: string, t: int) {
    && (exists j :: 0 <= j < |h| && Counts(h, j) && h[j].Received? && Get64(h[j].rec, name) == t)
    && (forall j :: 0 <= j < |h| && Counts(h, j) && h[j].Received? ==> Get64(h[j].rec, name) <= t)
  }

  lemma CountsPrefix(h: seq<FlowEvent>, n: nat, j: nat)
    requires j < n <= |h|
    ensures Counts(h[..n], j) == Counts(h, j) && Accepted(h[..n], j) == Accepted(h, j)
  {
    hide Before, EndOf;
    assert h[..n][..j] == h[..j];
    assert forall i :: 0 <= i < n ==> h[..n][i] == h[i];
  }

  /** Over every history, each common total is the maximum over the opening record and the accepted records that were
      the latest on arrival. */
  lemma {:induction false} TotalIsMaximum(r: Rules, v4: bool, h: seq<FlowEvent>, k: nat)
    requires Proper(r, h) && k < |r.e.stats| && !IsDelta(r.e.stats[k])
    ensures IsLargestTotal(h, r.e.stats[k], Get64(Replay(r, v4, h).record, r.e.stats[k]))
  {
    hide NameOf, Find, Incoming, Apply, Opened, Fills, IsDelta, Counts, Usable, Stored, Accepted, LatestAt;
    var n, name := |h| - 1, r.e.stats[k];
    var now := Get64(Replay(r, v4, h).record, name);
    if n == 0 {
      OpenedStat(r, h[0].rec, k);
      assert Counts(h, 0) by { OpeningCounts(h); }
    } else {
      var p := h[..n];
      ProperPrefix(r, h, n);
      TotalIsMaximum(r, v4, p, k);
      StatStep(r, v4, h, k);
      var was := Get64(Replay(r, v4, p).record, name);
      CountsLast(h);
      LargestExtends(h, name, was, now);
    }
  }

  lemma LargestExtends(h: seq<FlowEvent>, name: string, was: int, now: int)
    requires h != [] && IsLargestTotal(h[..|h| - 1], name, was)
    requires Counts(h, |h| - 1) ==> h[|h| - 1].Received?
    requires var n := |h| - 1;
             now == if Counts(h, n) && was < Get64(h[n].rec, name) then Get64(h[n].rec, name) else was
    ensures IsLargestTotal(h, name, now)
  {
    hide Counts, Get64;
    var n := |h| - 1;
    var p := h[..n];
    forall j | 0 <= j < n
      ensures Counts(p, j) == Counts(h, j) && p[j] == h[j]
    {
      CountsPrefix(h, n, j);
    }
    var j :| 0 <= j < |p| && Counts(p, j) && p[j].Received? && Get64(p[j].rec, name) == was;
    assert Counts(h, if now == was then j else n);
  }

  lemma OpeningCounts(h: seq<FlowEvent>)
    requires h != [] && h[0].Received?
    ensures Counts(h, 0)
  {
  }

  lemma CountsLast(h: seq<FlowEvent>)
    requires h != []
    ensures Counts(h, |h| - 1) == (Accepted(h, |h| - 1) && LatestAt(h, |h| - 1))
    ensures Accepted(h, |h| - 1) ==> h[|h| - 1].Received?
  {
  }

  // ---------- end reason ----------

  /** Some accepted record reported the end of the flow. */
  ghost predicate Ended(h: seq<FlowEvent>) {
    exists j :: 0 <= j < |h| && Accepted(h, j) && Get8(h[j].rec, FLOW_END_REASON) == END_OF_FLOW
  }

  lemma EndedExtends(h: seq<FlowEvent>, n: nat)
    requires n == |h| - 1 && 0 <= n
    ensures Ended(h) <==> Ended(h[..n]) || (Accepted(h, n) && Get8(h[n].rec, FLOW_END_REASON) == END_OF_FLOW)
  {
    hide NameOf, Find, Before, EndOf, Counts;
    var p := h[..n];
    forall j | 0 <= j < n
      ensures Accepted(p, j) == Accepted(h, j) && p[j] == h[j]
    {
      CountsPrefix(h, n, j);
    }
    if Ended(p) {
      var j :| 0 <= j < |p| && Accepted(p, j) && Get8(p[j].rec, FLOW_END_REASON) == END_OF_FLOW;
      assert Accepted(h, j);
    }
    if Ended(h) {
      var j :| 0 <= j < |h| && Accepted(h, j) && Get8(h[j].rec, FLOW_END_REASON) == END_OF_FLOW;
      assert j < n ==> Accepted(p, j);
    }
  }

  lemma ReasonStep(r: Rules, v4: bool, h: seq<FlowEvent>)
    requires Proper(r, h) && |h| > 1 && FLOW_END_REASON in r.e.nonStats && FLOW_END_REASON !in r.fields
    ensures var n := |h| - 1;
            var a, b := Get8(Replay(r, v4, h[..n]).record, FLOW_END_REASON),
              Get8(Replay(r, v4, h).record, FLOW_END_REASON);
            b == if Accepted(h, n) && a != END_OF_FLOW then Get8(h[n].rec, FLOW_END_REASON) else a
  {
    hide NameOf, Find, Usable, Incoming, Stored, Merge, Reset, Fills, Accepted, LatestAt, Harmless;
    var p, ev := h[..|h| - 1], h[|h| - 1];
    assert h == p + [ev];
    ProperPrefix(r, h, |h| - 1);
    AlwaysStored(r, v4, p);
    var f := Replay(r, v4, p);
    match ev
    case Received(rec) =>
      GuardsMeanAccepted(r, v4, p, rec);
      MergeEffect(r, f, rec);
    case Cleared =>
      NotAccepted(h, |h| - 1);
      ClearEffect(r, f.record);
    case Retried =>
      NotAccepted(h, |h| - 1);
    case CalledBack(_) =>
      NotAccepted(h, |h| - 1);
    case Annotated(contents) =>
      NotAccepted(h, |h| - 1);
      if Harmless(r.e, f.record, contents) {
        AnnotationKeeps(r, f.record, contents);
      }
  }

  /** The end reason is EndOfFlow exactly when some accepted record said so; in particular it never changes back. */
  lemma {:induction false} EndReasonAbsorbs(r: Rules, v4: bool, h: seq<FlowEvent>)
    requires Proper(r, h) && FLOW_END_REASON in r.e.nonStats && FLOW_END_REASON !in r.fields
    ensures Get8(Replay(r, v4, h).record, FLOW_END_REASON) == END_OF_FLOW <==> Ended(h)
  {
    hide NameOf, Find, Usable, Incoming, Apply, Opened, Accepted, Ended;
    var n := |h| - 1;
    EndedExtends(h, n);
    if n == 0 {
      OpenEffect(r, h[0].rec);
      OpeningAccepted(h);
      NothingEnded();
      assert h[..0] == [];
    } else {
      ProperPrefix(r, h, n);
      EndReasonAbsorbs(r, v4, h[..n]);
      ReasonStep(r, v4, h);
    }
  }

  // ---------- connection state ----------

  /** The state in the last record that was accepted while being the latest. */
  ghost function LastState(h: seq<FlowEvent>): seq<byte>
    requires h != [] ==> h[0].Received?
  {
    if h == [] then []
    else
      var n := |h| - 1;
      if Counts(h, n) && h[n].Received? then GetText(h[n].rec, TCP_STATE) else LastState(h[..n])
  }

  lemma StateStep(r: Rules, v4: bool, h: seq<FlowEvent>)
    requires Proper(r, h) && |h| > 1 && TCP_STATE in r.e.nonStats && TCP_STATE !in r.fields
    ensures var n := |h| - 1;
            var a, b := GetText(Replay(r, v4, h[..n]).record, TCP_STATE), GetText(Replay(r, v4, h).record, TCP_STATE);
            b == if h[n].Received? && Accepted(h, n) && LatestAt(h, n) then GetText(h[n].rec, TCP_STATE) else a
  {
    hide NameOf, Find, Usable, Incoming, Stored, Merge, Reset, Fills, Accepted, LatestAt, Harmless;
    var p, ev := h[..|h| - 1], h[|h| - 1];
    assert h == p + [ev];
    ProperPrefix(r, h, |h| - 1);
    AlwaysStored(r, v4, p);
    var f := Replay(r, v4, p);
    match ev
    case Received(rec) =>
      GuardsMeanAccepted(r, v4, p, rec);
      MergeEffect(r, f, rec);
    case Cleared =>
      ClearEffect(r, f.record);
    case Annotated(contents) =>
      if Harmless(r.e, f.record, contents) {
        AnnotationKeeps(r, f.record, contents);
      }
    case Retried =>
    case CalledBack(_) =>
  }

  /** Over every history `tcpState` is the state in the last record that was accepted while being the latest. */
  lemma {:induction false} StateIsLatest(r: Rules, v4: bool, h: seq<FlowEvent>)
    requires Proper(r, h) && TCP_STATE in r.e.nonStats && TCP_STATE !in r.fields
    ensures GetText(Replay(r, v4, h).record, TCP_STATE) == LastState(h)
  {
    hide NameOf, Find, Usable, Incoming, Apply, Opened, Accepted, LatestAt, Counts, GetText;
    var n := |h| - 1;
    if n == 0 {
      OpenedState(r, h[0].rec);
      OpeningCounts(h);
    } else {
      ProperPrefix(r, h, n);
      StateIsLatest(r, v4, h[..n]);
      StateStep(r, v4, h);
      CountsLast(h);
    }
  }

  lemma OpenedState(r: Rules, rec: Record)
    requires Aligned(r.e) && Usable(r.e) && Incoming(r.e, rec)
    ensures GetText(Opened(r.e, rec), TCP_STATE) == GetText(rec, TCP_STATE)
  {
    hide NameOf, Find, Usable, Incoming, Stored, Opened;
    OpenEffect(r, rec);
  }

  lemma NothingEnded()
    ensures !Ended([])
  {
  }

  // ---------- why reason and state must not be correlated ----------

  /** The second record of a flow, from the other node, with a set value of correlate field `m`. */
  ghost predicate Correlated(r: Rules, a: Record, b: Record, m: string)
    requires Aligned(r.e)
  {
    && Usable(r.e) && Incoming(r.e, a) && Incoming(r.e, b) && m in r.fields && m in r.e.nonStats
    && CorrelationRequired(a) && CorrelationRequired(b) && !FromSameNode(b, a)
    && Find(b, m).Some? && IsSet(Find(b, m).value)
  }

  /** It is merged into a record that has that value already. */
  lemma SecondIsCorrelated(r: Rules, v4: bool, a: Record, b: Record, m: string)
    requires Aligned(r.e) && Correlated(r, a, b, m) && (m == FLOW_END_REASON || m == TCP_STATE)
    ensures Proper(r, [Received(a), Received(b)])
    ensures var f := Open(r, a, v4);
            && Stored(r.e, Base(r, f, b))
            && Find(Base(r, f, b), m).Some? && Find(Base(r, f, b), m).value.value == Find(b, m).value.value
            && Replay(r, v4, [Received(a), Received(b)]).record ==
               Aggregate(r.e, b, Base(r, f, b), Fills(b, Source), Fills(b, Destination))
            && forall n :: IsEnd(n) ==> Find(Base(r, f, b), n) == Find(f.record, n)
  {
    hide NameOf, Find, Usable, Incoming, Stored, Opened, Aggregate, Correlate, Fills, CorrelationRequired,
      FromSameNode, IsSet, CountersOpened, RatesOpened;
    var h := [Received(a), Received(b)];
    assert h[..1] == [Received(a)] && h[1] == Received(b);
    var f := Open(r, a, v4);
    OpenEffect(r, a);
    PodsUntouched(r, a, a);
    SamePodsSameNode(a, f.record, b);
    assert Correlating(f, b);
    CorrelateKeeps(r, b, f.record);
    HasNonStat(r.e, a, m);
    CorrelatedField(r.fields, b, f.record, m);
  }

  lemma HasNonStat(e: AggregationElements, rec: Record, m: string)
    requires Aligned(e) && Incoming(e, rec) && m in e.nonStats
    ensures Find(rec, m).Some?
  {
    hide NameOf, Find;
  }

  /** With the end reason among the correlate fields it is not absorbing: the first record has ended the flow, and the
      second, from the other node, overwrites that. */
  lemma CorrelatedReasonForgets(r: Rules, v4: bool, a: Record, b: Record)
    requires Aligned(r.e) && Correlated(r, a, b, FLOW_END_REASON)
    requires Get8(a, FLOW_END_REASON) == END_OF_FLOW && Get8(b, FLOW_END_REASON) != END_OF_FLOW
    ensures var h := [Received(a), Received(b)];
            Ended(h) && Get8(Replay(r, v4, h).record, FLOW_END_REASON) != END_OF_FLOW
  {
    hide NameOf, Find, Usable, Incoming, Stored, Replay, Aggregate, Open, Base, Fills, CorrelationRequired,
      FromSameNode, IsSet, EndsMoved, Later, StatChanged, Foreign, StateMerged;
    var h := [Received(a), Received(b)];
    OpeningAccepted(h);
    assert Accepted(h, 0) && Get8(h[0].rec, FLOW_END_REASON) == END_OF_FLOW;
    SecondIsCorrelated(r, v4, a, b, FLOW_END_REASON);
    var base := Base(r, Open(r, a, v4), b);
    SameByte(base, b, FLOW_END_REASON);
    var roles := RolesOf(r.e);
    AggregateEffect(r.e, roles, b, base, Fills(b, Source), Fills(b, Destination));
    EndsApart(r.e, roles);
    SameByteAfter(base, Aggregate(r.e, b, base, Fills(b, Source), Fills(b, Destination)), FLOW_END_REASON);
  }

  lemma SameByte(a: Record, b: Record, m: string)
    requires Find(a, m).Some? && Find(b, m).Some? && Find(a, m).value.value == Find(b, m).value.value
    ensures Get8(a, m) == Get8(b, m) && GetText(a, m) == GetText(b, m)
  {
  }

  lemma SameByteAfter(a: Record, b: Record, m: string)
    ensures Find(a, m) == Find(b, m) ==> Get8(a, m) == Get8(b, m) && GetText(a, m) == GetText(b, m)
  {
  }

  lemma EndsApart(e: AggregationElements, roles: Roles)
    requires Assigns(roles, e)
    ensures !IsEnd(FLOW_END_REASON) && !IsEnd(TCP_STATE)
  {
    hide NameOf;
    KnownRoles(e, roles);
  }

  /** With the connection state among the correlate fields it is not that of the latest record: the second record ended
      before the first, and yet its state is kept. */
  lemma CorrelatedStateIsOlder(r: Rules, v4: bool, a: Record, b: Record)
    requires Aligned(r.e) && Correlated(r, a, b, TCP_STATE)
    requires EndOf(b) < EndOf(a) && GetText(a, TCP_STATE) != GetText(b, TCP_STATE)
    ensures var h := [Received(a), Received(b)];
            && LastState(h) == GetText(a, TCP_STATE)
            && GetText(Replay(r, v4, h).record, TCP_STATE) == GetText(b, TCP_STATE)
  {
    hide NameOf, Find, Usable, Incoming, Stored, Replay, Aggregate, Open, Base, Fills, CorrelationRequired,
      FromSameNode, IsSet, EndsMoved, Later, StatChanged, Foreign, ReasonMerged;
    OlderIsNotLatest(a, b);
    SecondIsCorrelated(r, v4, a, b, TCP_STATE);
    var base := Base(r, Open(r, a, v4), b);
    SameByte(base, b, TCP_STATE);
    var roles := RolesOf(r.e);
    AggregateEffect(r.e, roles, b, base, Fills(b, Source), Fills(b, Destination));
    EndsApart(r.e, roles);
    SameByteAfter(base, Aggregate(r.e, b, base, Fills(b, Source), Fills(b, Destination)), TCP_STATE);
  }

  lemma OlderIsNotLatest(a: Record, b: Record)
    requires EndOf(b) < EndOf(a)
    ensures LastState([Received(a), Received(b)]) == GetText(a, TCP_STATE)
  {
    hide NameOf, Find, EndOf, Before;
    var h := [Received(a), Received(b)];
    assert h[..1] == [Received(a)] && [Received(a)][0] == h[0] == Received(a) && h[1] == Received(b);
    OpeningCounts(h);
    OpeningCounts([Received(a)]);
    assert !LatestAt(h, 1);
  }
}
