/** The throughput fields integrate back to the octets reported, up to one bit per second elapsed. */
module FlowThroughput {
  import opened Bytes
  import opened FlowContent
  import opened FlowEffects
  import opened FlowMerge
  import opened FlowOpen
  import opened FlowHistory
  import opened FlowCounters

  function RateIndex(reverse: bool): nat { if reverse then 1 else 0 }

  ghost function RateName(e: AggregationElements, node: Node, reverse: bool): string
    requires Aligned(e) && RateIndex(reverse) < |e.throughput|
  {
    if node.Source? then e.sourceThroughput[RateIndex(reverse)] else e.destinationThroughput[RateIndex(reverse)]
  }

  /** The total in the last accepted record of a node, zero if there was none. */
  function LastTotal(h: seq<FlowEvent>, node: Node, name: string): u64 {
    if h == [] then 0
    else
      var n := |h| - 1;
      if Accepted(h, n) && Fills(h[n].rec, node) then Get64(h[n].rec, name) else LastTotal(h[..n], node, name)
  }

  /** The start time in the first record of a node. */
  function FirstStart(h: seq<FlowEvent>, node: Node): Option<u32> {
    if h == [] then None
    else
      var n := |h| - 1;
      if FirstStart(h[..n], node).Some? then FirstStart(h[..n], node)
      else if h[n].Received? && Fills(h[n].rec, node) then Some(StartOf(h[n].rec))
      else None
  }

  /** The sum, over the accepted records of a node, of the throughput stored then times the seconds it stands for. */
  ghost function Volume(r: Rules, v4: bool, h: seq<FlowEvent>, node: Node, reverse: bool): int
    requires Aligned(r.e) && RateIndex(reverse) < |r.e.throughput| && (h != [] ==> h[0].Received?)
  {
    if h == [] then 0
    else
      var n := |h| - 1;
      Volume(r, v4, h[..n], node, reverse) +
      if Accepted(h, n) && Fills(h[n].rec, node) then
        Get64(Replay(r, v4, h).record,
          RateName(r.e, node, reverse)) * (EndOf(h[n].rec) - NodeBefore(h[..n], h[n].rec, node))
      else 0
  }

  /** Either every record reports for one node, or every record reports for both. */
  ghost predicate Uniform(h: seq<FlowEvent>) {
    || (forall j :: 0 <= j < |h| && h[j].Received? ==> CorrelationRequired(h[j].rec))
    || (forall j :: 0 <= j < |h| && h[j].Received? ==> !CorrelationRequired(h[j].rec))
  }

  /** Record `j` follows its node's earlier ones: its end is not before theirs (and, for the first, after its
      own start), its total is not below theirs, and eight times it fits 64 bits. */
  ghost predicate Follows(h: seq<FlowEvent>, j: nat, node: Node, name: string)
    requires j < |h|
  {
    h[j].Received? && Fills(h[j].rec, node) ==>
      && (if LastEnd(h[..j], node) == 0 then EndOf(h[j].rec) > StartOf(h[j].rec)
         else EndOf(h[j].rec) >= LastEnd(h[..j], node))
      && LastTotal(h[..j], node, name) <= Get64(h[j].rec, name)
      && 8 * Get64(h[j].rec, name) < TWO64
  }

  ghost predicate InOrder(h: seq<FlowEvent>, node: Node, name: string) {
    forall j :: 0 <= j < |h| ==> Follows(h, j, node, name)
  }

  /** If record `j` reports for `node`, it is measured against the end time and total that `node` had. */
  ghost predicate OwnAt(h: seq<FlowEvent>, j: nat, node: Node, name: string)
    requires j < |h|
  {
    h[j].Received? && Fills(h[j].rec, node) ==>
      && Before(h[..j], h[j].rec) == NodeBefore(h[..j], h[j].rec, node)
      && LastTotal(h[..j], Measured(h[j].rec), name) == LastTotal(h[..j], node, name)
  }

  ghost predicate Own(h: seq<FlowEvent>, node: Node, name: string) {
    forall j :: 0 <= j < |h| ==> OwnAt(h, j, node, name)
  }

  lemma InOrderPrefix(h: seq<FlowEvent>, n: nat, node: Node, name: string)
    requires InOrder(h, node, name) && Own(h, node, name) && n <= |h|
    ensures InOrder(h[..n], node, name) && Own(h[..n], node, name)
  {
    hide LastTotal, LastEnd, Fills, NameOf, Find, Before;
    forall j | 0 <= j < n
      ensures Follows(h[..n], j, node, name) && OwnAt(h[..n], j, node, name)
    {
      assert h[..n][..j] == h[..j] && Follows(h, j, node, name) && OwnAt(h, j, node, name);
    }
  }

  // ---------- one side at a time ----------

  /** When every record reports for both nodes, both sides see the same times and totals. */
  lemma {:induction false} SidesAgree(h: seq<FlowEvent>, name: string)
    requires forall j :: 0 <= j < |h| && h[j].Received? ==> !CorrelationRequired(h[j].rec)
    ensures LastEnd(h, Source) == LastEnd(h, Destination)
    ensures LastTotal(h, Source, name) == LastTotal(h, Destination, name)
  {
    hide NameOf, Find, Before, FromNode, CorrelationRequired;
    if h != [] {
      SidesAgree(h[..|h| - 1], name);
    }
  }

  /** The destination is always measured against itself; the source is, unless records that report for both nodes are
      mixed with records that report for one. */
  lemma MeasuredOwn(h: seq<FlowEvent>, node: Node, name: string)
    requires node.Destination? || Uniform(h)
    ensures Own(h, node, name)
  {
    hide NameOf, Find, Accepted, FromNode, CorrelationRequired, LastEnd, LastTotal;
    forall n | 0 <= n < |h|
      ensures OwnAt(h, n, node, name)
    {
      if node.Source? && h[n].Received? && !CorrelationRequired(h[n].rec) {
        SidesAgree(h[..n], name);
      }
    }
  }

  /** A per-node total is always the one last accepted from that node. */
  lemma {:induction false} CounterIsLastTotal(r: Rules, v4: bool, h: seq<FlowEvent>, node: Node, k: nat)
    requires Proper(r, h) && k < |r.e.stats| && !IsDelta(r.e.stats[k])
    ensures Get64(Replay(r, v4, h).record, Side(r.e, node, k)) == LastTotal(h, node, r.e.stats[k])
  {
    hide NameOf, Find, Incoming, Apply, Opened, Fills, IsDelta, Accepted, LatestAt, Usable, NewCommon;
    var n := |h| - 1;
    if n == 0 {
      OpenedStat(r, h[0].rec, k);
      OpeningAccepted(h);
      assert h[..0] == [];
    } else {
      ProperPrefix(r, h, n);
      CounterIsLastTotal(r, v4, h[..n], node, k);
      StatStep(r, v4, h, k);
      if !h[n].Received? {
        NotAccepted(h, n);
      }
    }
  }

  // ---------- one rate ----------

  lemma RateBound(bytes: u64, seconds: u32)
    requires seconds > 0 && 8 * bytes < TWO64
    ensures 8 * bytes - seconds < Rate(bytes, seconds) * seconds <= 8 * bytes
  {
    var q := 8 * bytes / seconds;
    assert bytes * 8 % TWO64 == 8 * bytes;
    assert 8 * bytes == q * seconds + 8 * bytes % seconds;
  }

  /** `rate` is what the code computes when the octet total goes from `was` to `v` in `seconds`. */
  ghost predicate IsRate(rate: u64, v: u64, was: u64, seconds: int) {
    0 < seconds < 0x1_0000_0000 && rate == Rate((v - was) % TWO64, seconds)
  }

  /** The side whose previous total and end time a record is measured against. */
  function Measured(rec: Record): Node {
    if Fills(rec, Destination) then Destination else Source
  }

  ghost predicate RateMerged(r: Rules, rec: Record, a: Record, b: Record, node: Node, o: nat, reverse: bool)
    requires Aligned(r.e) && RateIndex(reverse) < |r.e.throughput| && o < |r.e.stats|
  {
    IsRate(Get64(b, RateName(r.e, node, reverse)), Get64(rec, r.e.stats[o]), Get64(a, Side(r.e, Measured(rec), o)),
           Get32(rec, FLOW_END) - Previous(rec, a, Fills(rec, Source), Fills(rec, Destination)))
  }

  lemma AggregateRateMerged(r: Rules, rec: Record, base: Record, node: Node, o: nat, reverse: bool)
    requires Aligned(r.e) && Usable(r.e) && Stored(r.e, base)
    requires OctetsAt(r.e, o, reverse) && RateIndex(reverse) < |r.e.throughput|
    requires Fills(rec, node) && Later(rec, base, Fills(rec, Source), Fills(rec, Destination))
    ensures RateMerged(r, rec, base, Aggregate(r.e, rec, base, Fills(rec, Source), Fills(rec, Destination)), node, o,
            reverse)
  {
    hide NameOf, Find, Assigns, Usable, Stored, Aggregate, Rate, FromNode, CorrelationRequired, IsDelta, Previous;
    var roles := RolesOf(r.e);
    AggregateRates(r.e, roles, rec, base, Fills(rec, Source), Fills(rec, Destination), o, reverse);
  }

  /** What an accepted merge stores as throughput on the sides the record reports for. */
  lemma MergeRates(r: Rules, f: Flow, rec: Record, node: Node, o: nat, reverse: bool)
    requires Aligned(r.e) && Usable(r.e) && Incoming(r.e, rec) && Stored(r.e, f.record)
    requires OctetsAt(r.e, o, reverse) && RateIndex(reverse) < |r.e.throughput|
    requires Fills(rec, node) && Later(rec, f.record, Fills(rec, Source), Fills(rec, Destination))
    ensures RateMerged(r, rec, f.record, Merge(r, f, rec).record, node, o, reverse)
  {
    hide NameOf, Find, Usable, Incoming, Stored, Aggregate, Correlating, Correlate, IsRate, Fills, Later, IsDelta,
      Previous;
    var base := Base(r, f, rec);
    BaseKeeps(r, f, rec);
    SameGuards(f.record, base, rec, Fills(rec, Source), Fills(rec, Destination));
    assert SameStats(r.e, f.record, base, o);
    AggregateRateMerged(r, rec, base, node, o, reverse);
  }

  /** What the last record of a history stores as a node's throughput is the rate of its octets since the node's
      previous total. */
  ghost predicate OwnRate(r: Rules, v4: bool, h: seq<FlowEvent>, node: Node, name: string, reverse: bool)
    requires Aligned(r.e) && RateIndex(reverse) < |r.e.throughput|
    requires h != [] && h[0].Received? && h[|h| - 1].Received?
  {
    var n := |h| - 1;
    IsRate(Get64(Replay(r, v4, h).record, RateName(r.e, node, reverse)), Get64(h[n].rec, name),
           LastTotal(h[..n], node, name), EndOf(h[n].rec) - NodeBefore(h[..n], h[n].rec, node))
  }

  /** The throughput stored by the last record of a history, if it is accepted, is the rate of its octets since the
      node's previous total. */
  lemma StoredRate(r: Rules, v4: bool, h: seq<FlowEvent>, node: Node, o: nat, reverse: bool)
    requires Proper(r, h) && OctetsAt(r.e, o, reverse) && RateIndex(reverse) < |r.e.throughput|
    requires h[|h| - 1].Received? && Accepted(h, |h| - 1) && Fills(h[|h| - 1].rec, node)
    requires Follows(h, |h| - 1, node, r.e.stats[o]) && OwnAt(h, |h| - 1, node, r.e.stats[o])
    ensures OwnRate(r, v4, h, node, r.e.stats[o], reverse)
  {
    hide NameOf, Find, Usable, Incoming, IsRate, Fills, Replay, Before, LastTotal, LastEnd, IsDelta, Accepted;
    var n, name := |h| - 1, r.e.stats[o];
    if n == 0 {
      assert h[..0] == [];
      FirstRate(r, v4, h, node, o, reverse);
    } else {
      LaterRate(r, v4, h, node, o, reverse);
    }
  }

  lemma FirstRate(r: Rules, v4: bool, h: seq<FlowEvent>, node: Node, o: nat, reverse: bool)
    requires Proper(r, h) && OctetsAt(r.e, o, reverse) && RateIndex(reverse) < |r.e.throughput| && |h| == 1
    requires Fills(h[0].rec, node) && Follows(h, 0, node, r.e.stats[o])
    ensures IsRate(Get64(Replay(r, v4, h).record, RateName(r.e, node, reverse)), Get64(h[0].rec, r.e.stats[o]),
                   LastTotal([], node, r.e.stats[o]), EndOf(h[0].rec) - NodeBefore([], h[0].rec, node))
  {
    hide NameOf, Find, Usable, Incoming, Rate, Fills, IsDelta, Opened;
    assert h[..0] == [];
    OpenRate(r, h[0].rec, node, o, reverse);
  }

  lemma LaterRate(r: Rules, v4: bool, h: seq<FlowEvent>, node: Node, o: nat, reverse: bool)
    requires Proper(r, h) && OctetsAt(r.e, o, reverse) && RateIndex(reverse) < |r.e.throughput| && |h| > 1
    requires Accepted(h, |h| - 1) && Fills(h[|h| - 1].rec, node)
    ensures var n, name := |h| - 1, r.e.stats[o];
            IsRate(Get64(Replay(r, v4, h).record, RateName(r.e, node, reverse)), Get64(h[n].rec, name),
                   LastTotal(h[..n], Measured(h[n].rec), name), EndOf(h[n].rec) - Before(h[..n], h[n].rec))
  {
    hide NameOf, Find, Usable, Incoming, Stored, IsRate, Fills, LastTotal, IsDelta, Merge, Later, Latest, LatestAt,
      Before, Previous, Measured;
    var n := |h| - 1;
    var rec, p := h[n].rec, h[..n];
    ProperPrefix(r, h, n);
    assert h == p + [Received(rec)];
    AlwaysStored(r, v4, p);
    GuardsMeanAccepted(r, v4, p, rec);
    MergeRates(r, Replay(r, v4, p), rec, node, o, reverse);
    CounterIsLastTotal(r, v4, p, Measured(rec), o);
  }

  lemma OpenRate(r: Rules, rec: Record, node: Node, o: nat, reverse: bool)
    requires Aligned(r.e) && Usable(r.e) && Incoming(r.e, rec) && Fills(rec, node)
    requires OctetsAt(r.e, o, reverse) && RateIndex(reverse) < |r.e.throughput|
    requires EndOf(rec) > StartOf(rec)
    ensures Get64(Opened(r.e, rec), RateName(r.e, node, reverse)) ==
            Rate(Get64(rec, r.e.stats[o]), EndOf(rec) - StartOf(rec))
  {
    hide NameOf, Find, Usable, Incoming, Stored, Opened, Fills, Rate, CountersOpened, IsDelta;
    OpenEffect(r, rec);
    var k := RateIndex(reverse);
    assert RatesOpened(r.e, Opened(r.e, rec), FirstRates(rec)[k], Fills(rec, Source), Fills(rec, Destination), k);
  }

  // ---------- the bound ----------

  /** Nothing yet, or a volume short of eight times the total by less than one per second since the start. */
  ghost predicate Within(start: Option<u32>, last: u32, total: u64, volume: int) {
    match start
    case None => last == total == volume == 0
    case Some(s) => s < last && 8 * total - (last - s) < volume <= 8 * total
  }

  lemma WithinStep(start: Option<u32>, last: u32, total: u64, volume: int,
                   s: u32, t: u32, v: u64, rate: u64, seconds: int)
    requires Within(start, last, total, volume)
    requires seconds == t - (if last == 0 then s else last)
    requires IsRate(rate, v, total, seconds) && total <= v && 8 * v < TWO64
    ensures Within(if start.Some? then start else Some(s), t, v, volume + rate * seconds)
  {
    hide Rate;
    RateBound(v - total, seconds);
    assert (v - total) % TWO64 == v - total;
    var gained := rate * seconds;
    assert 8 * (v - total) - seconds < gained <= 8 * (v - total);
  }

  /** Over every history in which a node's records come in order and are measured against that node, the throughput
      stored at each of its accepted records, times the seconds it stands for, adds up to eight times the node's total,
      short by less than one per elapsed second. */
  lemma {:induction false} ThroughputBound(r: Rules, v4: bool, h: seq<FlowEvent>, node: Node, o: nat, reverse: bool)
    requires h != [] ==> Proper(r, h)
    requires Aligned(r.e) && OctetsAt(r.e, o, reverse) && RateIndex(reverse) < |r.e.throughput|
    requires InOrder(h, node, r.e.stats[o]) && Own(h, node, r.e.stats[o])
    ensures Within(FirstStart(h, node), LastEnd(h, node), LastTotal(h, node, r.e.stats[o]),
            Volume(r, v4, h, node, reverse))
  {
    hide NameOf, Find, Usable, Incoming, IsRate, Fills, Before, IsDelta, Replay, Volume, LastTotal, LastEnd,
      FirstStart, RateName;
    if h == [] {
      NothingWithin(r, v4, node, r.e.stats[o], reverse);
    } else {
      var n, name := |h| - 1, r.e.stats[o];
      if n > 0 {
        ProperPrefix(r, h, n);
      }
      InOrderPrefix(h, n, node, name);
      ThroughputBound(r, v4, h[..n], node, o, reverse);
      assert Follows(h, n, node, name) && OwnAt(h, n, node, name);
      Unfolded(r, v4, h, node, name, reverse);
      if h[n].Received? && Fills(h[n].rec, node) {
        if Accepted(h, n) {
          var rec := h[n].rec;
          StoredRate(r, v4, h, node, o, reverse);
          WithinStep(FirstStart(h[..n], node), LastEnd(h[..n], node), LastTotal(h[..n], node, name),
                     Volume(r, v4, h[..n], node, reverse), StartOf(rec), EndOf(rec), Get64(rec, name),
                     Get64(Replay(r, v4, h).record, RateName(r.e, node, reverse)),
                       EndOf(rec) - NodeBefore(h[..n], rec, node));
        } else {
          NotAcceptedIsSameEnd(h, node, name);
        }
      }
    }
  }

  lemma NothingWithin(r: Rules, v4: bool, node: Node, name: string, reverse: bool)
    requires Aligned(r.e) && RateIndex(reverse) < |r.e.throughput|
    ensures Within(FirstStart([], node), LastEnd([], node), LastTotal([], node, name), Volume(r, v4, [], node, reverse))
  {
  }

  /** What the last event of a history does to the quantities of the bound. */
  lemma Unfolded(r: Rules, v4: bool, h: seq<FlowEvent>, node: Node, name: string, reverse: bool)
    requires Aligned(r.e) && RateIndex(reverse) < |r.e.throughput| && h != [] && h[0].Received?
    ensures var n := |h| - 1;
            var start, mine := FirstStart(h[..n], node), h[n].Received? && Fills(h[n].rec, node);
            && FirstStart(h, node) == (if mine && start.None? then Some(StartOf(h[n].rec)) else start)
            && LastEnd(h, node) == (if mine then EndOf(h[n].rec) else LastEnd(h[..n], node))
            && LastTotal(h, node, name) ==
                 (if mine && Accepted(h, n) then Get64(h[n].rec, name) else LastTotal(h[..n], node, name))
            && Volume(r, v4, h, node, reverse) == Volume(r, v4, h[..n], node, reverse) +
                 if mine && Accepted(h, n) then
                   Get64(Replay(r, v4, h).record,
                     RateName(r.e, node, reverse)) * (EndOf(h[n].rec) - NodeBefore(h[..n], h[n].rec, node))
                 else 0
  {
    hide NameOf, Find, Fills, Before, Replay, RateName;
  }

  /** A record in order that is not accepted ends when its node's previous one did. */
  lemma NotAcceptedIsSameEnd(h: seq<FlowEvent>, node: Node, name: string)
    requires h != [] && h[|h| - 1].Received? && Fills(h[|h| - 1].rec, node) && !Accepted(h, |h| - 1)
    requires Follows(h, |h| - 1, node, name) && OwnAt(h, |h| - 1, node, name)
    ensures var n := |h| - 1;
            EndOf(h[n].rec) == LastEnd(h[..n], node) > 0
  {
    hide NameOf, Find, Fills, LastTotal, LastEnd;
  }

  // ---------- why the source must be measured against itself ----------

  /** A record of the source node from 5 to 10 with 100 octets, then one that reports for both nodes, up to 20 with
      200. */
  ghost predicate MixedPair(a: Record, b: Record, name: string) {
    && CorrelationRequired(a) && FromNode(a, Source) && StartOf(a) == 5 && EndOf(a) == 10 && Get64(a, name) == 100
    && !CorrelationRequired(b) && StartOf(b) == 5 && EndOf(b) == 20 && Get64(b, name) == 200
  }

  lemma MixedTimes(a: Record, b: Record, name: string)
    requires MixedPair(a, b, name)
    ensures var p, h := [Received(a)], [Received(a), Received(b)];
            && h[..1] == p && p[..0] == [] && Fills(a, Source) && Fills(b, Source) && Measured(b) == Destination
            && LastEnd([], Source) == 0 && LastEnd(p, Source) == 10 && LastEnd(h, Source) == 20
               && LastEnd(p, Destination) == 0
            && Accepted(p, 0) && Accepted(h, 1) && Before(p, b) == 5
            && LastTotal([], Source, name) == 0 && LastTotal(p, Source, name) == 100
               && LastTotal(h, Source, name) == 200
            && LastTotal(p, Destination, name) == 0
            && FirstStart(p, Source) == Some(5) && FirstStart(h, Source) == Some(5)
  {
    hide NameOf, Find, FromNode, CorrelationRequired;
    var p, h := [Received(a)], [Received(a), Received(b)];
    assert h[..1] == p && p[..0] == [] && h[1] == Received(b) && p[0] == Received(a);
    assert LastEnd([], Source) == 0 && LastEnd(p, Source) == 10
      && LastEnd(p, Destination) == LastEnd([], Destination) == 0;
    assert LastEnd(h, Source) == 20;
  }

  lemma MixedRates(ra: u64, rb: u64)
    requires IsRate(ra, 100, 0, 5) && IsRate(rb, 200, 0, 15)
    ensures ra * 5 + rb * 10 == 1860
  {
  }

  /** Without that condition the bound fails: such a pair is in order for the source, but the second rate of the source
      is measured against the destination, which has reported nothing, so that the first hundred octets count twice. */
  lemma MixedBreaksBound(r: Rules, v4: bool, a: Record, b: Record, o: nat)
    requires Proper(r, [Received(a), Received(b)]) && OctetsAt(r.e, o, false) && 0 < |r.e.throughput|
    requires MixedPair(a, b, r.e.stats[o])
    ensures var h, name := [Received(a), Received(b)], r.e.stats[o];
            var volume := Volume(r, v4, h, Source, false);
            && InOrder(h, Source, name) && volume == 1860
            && !Within(FirstStart(h, Source), LastEnd(h, Source), LastTotal(h, Source, name), volume)
  {
    hide NameOf, Find, Usable, Incoming, Fills, IsDelta, Replay, IsRate, RateName, LastTotal, LastEnd, FirstStart,
      Volume,
      MixedPair, Before, Accepted;
    var p, h, name := [Received(a)], [Received(a), Received(b)], r.e.stats[o];
    MixedTimes(a, b, name);
    MixedValues(a, b, name);
    assert forall j :: 0 <= j < |h| ==> Follows(h, j, Source, name);
    ProperPrefix(r, h, 1);
    assert Follows(p, 0, Source, name);
    FirstRate(r, v4, p, Source, o, false);
    LaterRate(r, v4, h, Source, o, false);
    Unfolded(r, v4, p, Source, name, false);
    Unfolded(r, v4, h, Source, name, false);
    NothingWithin(r, v4, Source, name, false);
    MixedRates(Get64(Replay(r, v4, p).record, RateName(r.e, Source, false)),
      Get64(Replay(r, v4, h).record, RateName(r.e, Source, false)));
  }

  lemma MixedValues(a: Record, b: Record, name: string)
    requires MixedPair(a, b, name)
    ensures StartOf(a) == 5 && EndOf(a) == 10 && Get64(a, name) == 100 && StartOf(b) == 5 && EndOf(b) == 20
            && Get64(b, name) == 200
  {
  }
}
