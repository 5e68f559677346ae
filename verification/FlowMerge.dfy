/** What a whole merge does to a flow record, field by field. */
module FlowMerge {
  import opened Bytes
  import opened Elements
  import opened FlowContent
  import opened FlowEffects

  predicate Latest(inc: Record, ex: Record) {
    Get32(inc, FLOW_END) >= Get32(ex, FLOW_END)
  }

  predicate Later(inc: Record, ex: Record, fs: bool, fd: bool) {
    Get32(inc, FLOW_END) > Previous(inc, ex, fs, fd)
  }

  ghost function Counted(e: AggregationElements, inc: Record, ex: Record, fs: bool, fd: bool): Tally
    requires Aligned(e)
  {
    CountStats(e, inc, Tally(Prepared(e, inc, ex, fs, fd), 0, 0), fs, fd, Latest(inc, ex), 0)
  }

  lemma AggregateShape(e: AggregationElements, roles: Roles, inc: Record, ex: Record, fs: bool, fd: bool)
    requires Aligned(e) && Assigns(roles, e) && Stored(e, ex)
    ensures !Later(inc, ex, fs, fd) ==> Aggregate(e, inc, ex, fs, fd) == TouchEnds(inc, ex, fs, fd).0
    ensures Later(inc, ex, fs, fd) ==>
              var t, s := Counted(e, inc, ex, fs, fd), Get32(inc, FLOW_END) - Previous(inc, ex, fs, fd);
              Aggregate(e, inc, ex, fs, fd) ==
                SetThroughput(e, t.rec, [Rate(t.total, s), Rate(t.reverse, s)], fs, fd, Latest(inc, ex), 0)
  {
    hide NameOf, Find, Put, Assigns, TouchEnds, MergeNonStats, CountStats, SetThroughput;
    TouchEndsEffect(e, roles, inc, ex, fs, fd);
  }

  lemma CountedStats(e: AggregationElements, roles: Roles, inc: Record, ex: Record, fs: bool, fd: bool)
    requires Aligned(e) && Assigns(roles, e) && Stored(e, ex)
    ensures var p, r := Prepared(e, inc, ex, fs, fd), Counted(e, inc, ex, fs, fd).rec;
            && (forall k :: 0 <= k < |e.stats| ==> StatChanged(e, inc, ex, r, fs, fd, Latest(inc, ex), k))
            && forall m :: !StatFrom(RoleOf(roles, m), 0) ==> Find(r, m) == Find(p, m)
  {
    hide NameOf, Find, Put, Assigns, Prepared, CountStats, NewCommon, NewCounter, IsDelta, Stored;
    PreparedStats(e, roles, inc, ex, fs, fd);
    var p := Prepared(e, inc, ex, fs, fd);
    CountStatsEffect(e, roles, inc, Tally(p, 0, 0), fs, fd, Latest(inc, ex), 0);
    var r := Counted(e, inc, ex, fs, fd).rec;
    forall k | 0 <= k < |e.stats|
      ensures StatChanged(e, inc, ex, r, fs, fd, Latest(inc, ex), k)
    {
      assert SameStats(e, ex, p, k) && StatChanged(e, inc, p, r, fs, fd, Latest(inc, ex), k);
    }
  }

  lemma CountedEffect(e: AggregationElements, roles: Roles, inc: Record, ex: Record, fs: bool, fd: bool)
    requires Aligned(e) && Assigns(roles, e) && Stored(e, ex)
    ensures var r := Counted(e, inc, ex, fs, fd).rec;
            && EndsMoved(inc, ex, r, fs, fd)
            && Mergeable(e, r, FLOW_END_REASON, Unsigned8) && Mergeable(e, r, TCP_STATE, String)
            && ReasonMerged(e, inc, ex, r) && StateMerged(e, inc, ex, r)
            && (forall k :: 0 <= k < |e.stats| ==> StatChanged(e, inc, ex, r, fs, fd, Latest(inc, ex), k))
            && (forall k :: 0 <= k < |e.throughput| ==> HasRates(e, r, k) && SameRates(e, ex, r, k))
            && (forall m :: Foreign(RoleOf(roles, m)) ==> Find(r, m) == Find(ex, m))
  {
    hide NameOf, Find, Put, Assigns, Prepared, Counted, StatChanged;
    KnownRoles(e, roles);
    PreparedEffect(e, roles, inc, ex, fs, fd);
    CountedStats(e, roles, inc, ex, fs, fd);
    var r := Counted(e, inc, ex, fs, fd).rec;
    forall k | 0 <= k < |e.throughput|
      ensures HasRates(e, r, k) && SameRates(e, ex, r, k)
    {
      assert HasRates(e, ex, k);
      RateRoles(e, roles, k);
    }
  }

  /** Setting the throughput fields leaves every other field alone. */
  lemma RatedKeeps(e: AggregationElements, roles: Roles, c: Record, vals: seq<u64>, fs: bool, fd: bool, latest: bool)
    requires Aligned(e) && Assigns(roles, e) && |vals| == 2 && Has32(c, FLOW_END)
    requires forall k :: 0 <= k < |e.throughput| ==> HasRates(e, c, k)
    ensures var b := SetThroughput(e, c, vals, fs, fd, latest, 0);
            && (forall k :: 0 <= k < |e.stats| ==> SameStats(e, c, b, k))
            && (forall k :: 0 <= k < |e.throughput| ==> RatesSet(e, c, b, vals[k], fs, fd, latest, k))
            && (forall m :: Foreign(RoleOf(roles, m)) || IsEnd(m) ==> Find(b, m) == Find(c, m))
            && Find(b, FLOW_END_REASON) == Find(c, FLOW_END_REASON) && Find(b, TCP_STATE) == Find(c, TCP_STATE)
  {
    hide NameOf, Find, Put, Assigns, SetThroughput;
    KnownRoles(e, roles);
    SetThroughputEffect(e, roles, c, vals, fs, fd, latest, 0);
    forall k | 0 <= k < |e.stats|
      ensures SameStats(e, c, SetThroughput(e, c, vals, fs, fd, latest, 0), k)
    {
      StatRoles(e, roles, k);
    }
  }

  /** `flowEndReason` takes the incoming value unless the flow has already ended. */
  ghost predicate ReasonMerged(e: AggregationElements, inc: Record, a: Record, b: Record) {
    Get8(b, FLOW_END_REASON) ==
    if FLOW_END_REASON in e.nonStats && Get8(a, FLOW_END_REASON) != END_OF_FLOW
    then Get8(inc, FLOW_END_REASON) else Get8(a, FLOW_END_REASON)
  }

  /** `tcpState` takes the incoming value if the record is the latest. */
  ghost predicate StateMerged(e: AggregationElements, inc: Record, a: Record, b: Record) {
    GetText(b, TCP_STATE) ==
    if TCP_STATE in e.nonStats && Latest(inc, a) then GetText(inc, TCP_STATE) else GetText(a, TCP_STATE)
  }

  /** A merge moves the end times; only when the record is later than its node's previous one
      does it also update the counters, the end reason and the throughput. */
  lemma AggregateEffect(e: AggregationElements, roles: Roles, inc: Record, ex: Record, fs: bool, fd: bool)
    requires Aligned(e) && Assigns(roles, e) && Stored(e, ex)
    ensures var b := Aggregate(e, inc, ex, fs, fd);
            && Stored(e, b) && EndsMoved(inc, ex, b, fs, fd)
            && (forall m :: Foreign(RoleOf(roles, m)) ==> Find(b, m) == Find(ex, m))
    ensures !Later(inc, ex, fs, fd) ==> forall m :: !IsEnd(m) ==> Find(Aggregate(e, inc, ex, fs, fd), m) == Find(ex, m)
    ensures Later(inc, ex, fs, fd) ==>
              && ReasonMerged(e, inc, ex, Aggregate(e, inc, ex, fs, fd))
                 && StateMerged(e, inc, ex, Aggregate(e, inc, ex, fs, fd))
              && forall k :: 0 <= k < |e.stats| ==>
                   StatChanged(e, inc, ex, Aggregate(e, inc, ex, fs, fd), fs, fd, Latest(inc, ex), k)
  {
    hide NameOf, Find, Put, Assigns, Aggregate, TouchEnds, Counted, SetThroughput, NewCommon, NewCounter, IsDelta, Rate;
    KnownRoles(e, roles);
    AggregateShape(e, roles, inc, ex, fs, fd);
    var b := Aggregate(e, inc, ex, fs, fd);
    if !Later(inc, ex, fs, fd) {
      TouchEndsEffect(e, roles, inc, ex, fs, fd);
      KeepsStats(e, roles, ex, b);
    } else {
      CountedEffect(e, roles, inc, ex, fs, fd);
      var t, s := Counted(e, inc, ex, fs, fd), Get32(inc, FLOW_END) - Previous(inc, ex, fs, fd);
      var vals := [Rate(t.total, s), Rate(t.reverse, s)];
      RatedKeeps(e, roles, t.rec, vals, fs, fd, Latest(inc, ex));
      forall k | 0 <= k < |e.stats|
        ensures HasStats(e, b, k) && StatChanged(e, inc, ex, b, fs, fd, Latest(inc, ex), k)
      {
        assert StatChanged(e, inc, ex, t.rec, fs, fd, Latest(inc, ex), k) && SameStats(e, t.rec, b, k);
      }
      forall k | 0 <= k < |e.throughput|
        ensures HasRates(e, b, k)
      {
        assert RatesSet(e, t.rec, b, vals[k], fs, fd, Latest(inc, ex), k);
      }
    }
  }

  lemma KeepsStats(e: AggregationElements, roles: Roles, a: Record, b: Record)
    requires Aligned(e) && Assigns(roles, e) && Stored(e, a)
    requires forall m :: !IsEnd(m) ==> Find(b, m) == Find(a, m)
    ensures forall k :: 0 <= k < |e.stats| ==> HasStats(e, b, k) && SameStats(e, a, b, k)
    ensures forall k :: 0 <= k < |e.throughput| ==> HasRates(e, b, k) && SameRates(e, a, b, k)
  {
    hide NameOf, Find, Assigns;
    KnownRoles(e, roles);
    forall k | 0 <= k < |e.stats|
      ensures HasStats(e, b, k) && SameStats(e, a, b, k)
    {
      assert HasStats(e, a, k);
      StatRoles(e, roles, k);
    }
    forall k | 0 <= k < |e.throughput|
      ensures HasRates(e, b, k) && SameRates(e, a, b, k)
    {
      assert HasRates(e, a, k);
      RateRoles(e, roles, k);
    }
  }

  lemma PreparedStats(e: AggregationElements, roles: Roles, inc: Record, ex: Record, fs: bool, fd: bool)
    requires Aligned(e) && Assigns(roles, e) && Stored(e, ex)
    ensures var p := Prepared(e, inc, ex, fs, fd);
            forall k :: 0 <= k < |e.stats| ==> HasStats(e, p, k) && SameStats(e, ex, p, k)
  {
    hide NameOf, Find, Put, Assigns, Prepared, IsDelta;
    KnownRoles(e, roles);
    PreparedEffect(e, roles, inc, ex, fs, fd);
    forall k | 0 <= k < |e.stats|
      ensures HasStats(e, Prepared(e, inc, ex, fs, fd), k) && SameStats(e, ex, Prepared(e, inc, ex, fs, fd), k)
    {
      assert HasStats(e, ex, k);
      StatRoles(e, roles, k);
    }
  }

  /** The octets gained that the counting loop hands to the rate: against the destination's total if that side is
      filled. */
  lemma CountedDifference(e: AggregationElements, roles: Roles, inc: Record, ex: Record, fs: bool, fd: bool, o: nat,
      reverse: bool)
    requires Aligned(e) && Assigns(roles, e) && Stored(e, ex) && OctetsAt(e, o, reverse) && (fs || fd)
    ensures Difference(Counted(e, inc, ex, fs, fd), reverse) ==
            (Get64(inc, e.stats[o]) - Get64(ex, if fd then e.destinationStats[o] else e.sourceStats[o])) % TWO64
  {
    hide NameOf, Find, Put, Assigns, CountStats, Prepared, Stored, Difference;
    PreparedStats(e, roles, inc, ex, fs, fd);
    var p := Prepared(e, inc, ex, fs, fd);
    assert SameStats(e, ex, p, o);
    CountStatsDifference(e, roles, inc, Tally(p, 0, 0), fs, fd, Latest(inc, ex), 0, o, reverse);
  }

  lemma CountedEnd(e: AggregationElements, inc: Record, ex: Record, fs: bool, fd: bool)
    requires Aligned(e) && EndsMoved(inc, ex, Counted(e, inc, ex, fs, fd).rec, fs, fd)
    ensures Has32(Counted(e, inc, ex, fs, fd).rec, FLOW_END)
  {
    hide NameOf, Find, Counted;
  }

  /** The throughput fields after an accepted merge: eight times the octets gained, in 64-bit
      arithmetic, over the seconds since the previous record; untouched otherwise. */
  lemma AggregateRates(e: AggregationElements, roles: Roles, inc: Record, ex: Record, fs: bool, fd: bool,
                       o: nat, reverse: bool)
    requires Aligned(e) && Assigns(roles, e) && Stored(e, ex) && OctetsAt(e, o, reverse) && (fs || fd)
    requires (if reverse then 1 else 0) < |e.throughput|
    ensures var b, k := Aggregate(e, inc, ex, fs, fd), if reverse then 1 else 0;
            var was := Get64(ex, if fd then e.destinationStats[o] else e.sourceStats[o]);
            if Later(inc, ex, fs, fd) then
              var v := Rate((Get64(inc, e.stats[o]) - was) % TWO64, Get32(inc, FLOW_END) - Previous(inc, ex, fs, fd));
              RatesSet(e, ex, b, v, fs, fd, Latest(inc, ex), k)
            else SameRates(e, ex, b, k)
  {
    hide NameOf, Find, Put, Assigns, Aggregate, TouchEnds, Counted, SetThroughput, Rate, Previous, Mergeable,
      ReasonMerged, EndsMoved, StatChanged, HasStats, OctetsAt;
    KnownRoles(e, roles);
    AggregateShape(e, roles, inc, ex, fs, fd);
    var b := Aggregate(e, inc, ex, fs, fd);
    if !Later(inc, ex, fs, fd) {
      TouchEndsEffect(e, roles, inc, ex, fs, fd);
      KeepsStats(e, roles, ex, b);
    } else {
      CountedEffect(e, roles, inc, ex, fs, fd);
      CountedEnd(e, inc, ex, fs, fd);
      CountedDifference(e, roles, inc, ex, fs, fd, o, reverse);
      var t, s := Counted(e, inc, ex, fs, fd), Get32(inc, FLOW_END) - Previous(inc, ex, fs, fd);
      var vals, k := [Rate(t.total, s), Rate(t.reverse, s)], if reverse then 1 else 0;
      RatedKeeps(e, roles, t.rec, vals, fs, fd, Latest(inc, ex));
      assert SameRates(e, ex, t.rec, k) && RatesSet(e, t.rec, b, vals[k], fs, fd, Latest(inc, ex), k);
    }
  }
}
