/**
  What one merge, one opening and one reset do to each named field of a flow record,
  for every configuration whose names each play one role.
 */
module FlowEffects {
  import opened Bytes
  import opened Elements
  import opened FlowContent

  /** The role a name plays in the aggregation. */
  datatype Role =
    | FlowStart | FlowEnd | EndReason | TcpState | Pod(node: Node) | NodeEnd(node: Node)
    | Common(i: nat) | Counter(node: Node, i: nat)
    | Throughput(i: nat) | NodeThroughput(node: Node, i: nat)

  type Roles = map<string, Role>

  ghost function RoleOf(roles: Roles, name: string): Option<Role> {
    if name in roles then Some(roles[name]) else None
  }

  /** Every configured name plays exactly the role of its list and position. */
  ghost predicate Assigns(roles: Roles, e: AggregationElements) {
    && RoleOf(roles, FLOW_START) == Some(FlowStart) && RoleOf(roles, FLOW_END) == Some(FlowEnd)
    && RoleOf(roles, FLOW_END_REASON) == Some(EndReason) && RoleOf(roles, TCP_STATE) == Some(TcpState)
    && RoleOf(roles, EndName(Source)) == Some(NodeEnd(Source))
    && RoleOf(roles, EndName(Destination)) == Some(NodeEnd(Destination))
    && RoleOf(roles, PodName(Source)) == Some(Pod(Source))
    && RoleOf(roles, PodName(Destination)) == Some(Pod(Destination))
    && (forall i :: 0 <= i < |e.stats| ==> RoleOf(roles, e.stats[i]) == Some(Common(i)))
    && (forall i :: 0 <= i < |e.sourceStats| ==> RoleOf(roles, e.sourceStats[i]) == Some(Counter(Source, i)))
    && (forall i :: 0 <= i < |e.destinationStats| ==>
          RoleOf(roles, e.destinationStats[i]) == Some(Counter(Destination, i)))
    && (forall i :: 0 <= i < |e.throughput| ==> RoleOf(roles, e.throughput[i]) == Some(Throughput(i)))
    && (forall i :: 0 <= i < |e.sourceThroughput| ==>
          RoleOf(roles, e.sourceThroughput[i]) == Some(NodeThroughput(Source, i)))
    && (forall i :: 0 <= i < |e.destinationThroughput| ==>
          RoleOf(roles, e.destinationThroughput[i]) == Some(NodeThroughput(Destination, i)))
  }

  ghost predicate Describes(e: AggregationElements) {
    forall name :: IeOf(e, name).name == name
  }

  /** A usable configuration: lists aligned, no name used twice, both per-node end times kept,
      and a registry that describes a name by an element of that name. */
  ghost predicate Usable(e: AggregationElements) {
    && Aligned(e)
    && e.endSeconds == [EndName(Source), EndName(Destination)]
    && Describes(e)
    && exists roles :: Assigns(roles, e)
  }

  lemma RolesOf(e: AggregationElements) returns (roles: Roles)
    requires Usable(e)
    ensures Assigns(roles, e) && Describes(e) && e.endSeconds == [EndName(Source), EndName(Destination)]
  {
    hide Assigns;
    roles :| Assigns(roles, e);
  }

  ghost predicate HasStats(e: AggregationElements, rec: Record, i: nat)
    requires Aligned(e) && i < |e.stats|
  {
    Has64(rec, e.stats[i]) && Has64(rec, e.sourceStats[i]) && Has64(rec, e.destinationStats[i])
  }

  ghost predicate HasRates(e: AggregationElements, rec: Record, k: nat)
    requires Aligned(e) && k < |e.throughput|
  {
    Has64(rec, e.throughput[k]) && Has64(rec, e.sourceThroughput[k]) && Has64(rec, e.destinationThroughput[k])
  }

  /** If `name` is to be merged it is there, with a value of the right type. */
  ghost predicate Mergeable(e: AggregationElements, rec: Record, name: string, t: DataType) {
    name in e.nonStats ==> Find(rec, name).Some? && HasType(Find(rec, name).value.value, t)
  }

  /** A record as a node sends it: it carries what is configured, of the right types,
      and none of the fields that the aggregation adds. */
  ghost predicate Incoming(e: AggregationElements, rec: Record)
    requires Aligned(e)
  {
    && Has32(rec, FLOW_START) && Has32(rec, FLOW_END) && Has64(rec, OCTETS) && Has64(rec, REVERSE_OCTETS)
    && (forall i :: 0 <= i < |e.stats| ==> Has64(rec, e.stats[i]))
    && (forall i :: 0 <= i < |e.nonStats| ==> Find(rec, e.nonStats[i]).Some?)
    && Mergeable(e, rec, FLOW_END_REASON, Unsigned8) && Mergeable(e, rec, TCP_STATE, String)
    && Find(rec, EndName(Source)).None? && Find(rec, EndName(Destination)).None?
    && (forall i :: 0 <= i < |e.stats| ==>
          Find(rec, e.sourceStats[i]).None? && Find(rec, e.destinationStats[i]).None?)
    && (forall i :: 0 <= i < |e.throughput| ==>
          Find(rec, e.throughput[i]).None? && Find(rec, e.sourceThroughput[i]).None?
            && Find(rec, e.destinationThroughput[i]).None?)
    && (forall i :: 0 <= i < |rec| ==> HasType(rec[i].value, rec[i].ie.dataType))
  }

  /** A record as the process keeps it: every field that merging reads or writes is there. */
  ghost predicate Stored(e: AggregationElements, rec: Record)
    requires Aligned(e)
  {
    && Has32(rec, FLOW_END) && Has32(rec, EndName(Source)) && Has32(rec, EndName(Destination))
    && (forall k :: 0 <= k < |e.stats| ==> HasStats(e, rec, k))
    && (forall k :: 0 <= k < |e.throughput| ==> HasRates(e, rec, k))
    && Mergeable(e, rec, FLOW_END_REASON, Unsigned8) && Mergeable(e, rec, TCP_STATE, String)
  }

  // ---------- counters ----------

  function NewCounter(delta: bool, was: u64, v: u64, fills: bool): u64 {
    if !fills then was else if delta then (v + was) % TWO64 else v
  }

  function NewCommon(delta: bool, was: u64, v: u64, latest: bool, fs: bool, fd: bool, src: u64, dst: u64): u64 {
    if !latest then was
    else if !delta then if was < v then v else was
    else if fd then dst else if fs then src else was
  }

  ghost predicate StatFrom(role: Option<Role>, i: nat) {
    role.Some? && ((role.value.Common? && role.value.i >= i) || (role.value.Counter? && role.value.i >= i))
  }

  lemma CountNodeEffect(e: AggregationElements, v: u64, t: Tally, node: Node, i: nat)
    requires Aligned(e) && i < |e.stats| && Has64(t.rec, CounterNames(e, node)[i])
    ensures var r := CountNode(e, v, t, node, i).rec;
            && (forall m :: m != CounterNames(e, node)[i] ==> Find(r, m) == Find(t.rec, m))
            && Has64(r, CounterNames(e, node)[i])
            && Get64(r, CounterNames(e, node)[i]) ==
                 NewCounter(IsDelta(e.stats[i]), Get64(t.rec, CounterNames(e, node)[i]), v, true)
  {
    hide NameOf, Find, Put;
  }

  lemma CountCommonEffect(e: AggregationElements, v: u64, rec: Record, fs: bool, fd: bool, latest: bool, i: nat)
    requires Aligned(e) && i < |e.stats| && HasStats(e, rec, i)
    requires e.stats[i] != e.sourceStats[i] && e.stats[i] != e.destinationStats[i]
    ensures var r := CountCommon(e, v, rec, fs, fd, latest, i);
            && (forall m :: m != e.stats[i] ==> Find(r, m) == Find(rec, m))
            && Has64(r, e.stats[i])
            && Get64(r, e.stats[i]) ==
                 NewCommon(IsDelta(e.stats[i]), Get64(rec, e.stats[i]), v, latest, fs, fd,
                           Get64(rec, e.sourceStats[i]), Get64(rec, e.destinationStats[i]))
  {
    hide NameOf, Find, Put;
  }

  lemma CountStepEffect(e: AggregationElements, roles: Roles, inc: Record, t: Tally,
                        fs: bool, fd: bool, latest: bool, i: nat)
    requires Aligned(e) && Assigns(roles, e) && i < |e.stats| && HasStats(e, t.rec, i)
    ensures var r := CountStep(e, inc, t, fs, fd, latest, i).rec;
            && (forall m :: m != e.stats[i] && m != e.sourceStats[i] && m != e.destinationStats[i] ==>
                  Find(r, m) == Find(t.rec, m))
            && StatChanged(e, inc, t.rec, r, fs, fd, latest, i)
  {
    hide NameOf, Find, Put;
    StatRoles(e, roles, i);
    var v := Get64(inc, e.stats[i]);
    if fs {
      CountNodeEffect(e, v, t, Source, i);
    }
    var t1 := if fs then CountNode(e, v, t, Source, i) else t;
    if fd {
      CountNodeEffect(e, v, t1, Destination, i);
    }
    var t2 := if fd then CountNode(e, v, t1, Destination, i) else t1;
    CountCommonEffect(e, v, t2.rec, fs, fd, latest, i);
  }

  lemma {:induction false} CountStatsEffect(e: AggregationElements, roles: Roles, inc: Record, t: Tally,
                                            fs: bool, fd: bool, latest: bool, i: nat)
    requires Aligned(e) && Assigns(roles, e) && i <= |e.stats|
    requires forall k :: i <= k < |e.stats| ==> HasStats(e, t.rec, k)
    ensures var r := CountStats(e, inc, t, fs, fd, latest, i).rec;
            && (forall m :: !StatFrom(RoleOf(roles, m), i) ==> Find(r, m) == Find(t.rec, m))
            && (forall k :: i <= k < |e.stats| ==> StatChanged(e, inc, t.rec, r, fs, fd, latest, k))
    decreases |e.stats| - i
  {
    hide NameOf, Assigns, Find, Put, CountStep, NewCommon, NewCounter, IsDelta;
    if i < |e.stats| {
      var s := CountStep(e, inc, t, fs, fd, latest, i);
      CountStepEffect(e, roles, inc, t, fs, fd, latest, i);
      forall k | i < k < |e.stats|
        ensures HasStats(e, s.rec, k) && SameStats(e, t.rec, s.rec, k)
      {
        assert HasStats(e, t.rec, k);
        SeparateStats(e, roles, i, k);
      }
      CountStatsEffect(e, roles, inc, s, fs, fd, latest, i + 1);
      StatRoles(e, roles, i);
      var r := CountStats(e, inc, s, fs, fd, latest, i + 1).rec;
      assert SameStats(e, s.rec, r, i);
      forall k | i <= k < |e.stats|
        ensures StatChanged(e, inc, t.rec, r, fs, fd, latest, k)
      {
        if k > i {
          assert SameStats(e, t.rec, s.rec, k) && StatChanged(e, inc, s.rec, r, fs, fd, latest, k);
        }
      }
    }
  }

  ghost predicate SameStats(e: AggregationElements, a: Record, b: Record, k: nat)
    requires Aligned(e) && k < |e.stats|
  {
    && Find(a, e.stats[k]) == Find(b, e.stats[k])
    && Find(a, e.sourceStats[k]) == Find(b, e.sourceStats[k])
    && Find(a, e.destinationStats[k]) == Find(b, e.destinationStats[k])
  }

  /** How the common counter and both per-node counters of statistic `k` change in an accepted merge. */
  ghost predicate StatChanged(e: AggregationElements, inc: Record, a: Record, b: Record,
                              fs: bool, fd: bool, latest: bool, k: nat)
    requires Aligned(e) && k < |e.stats|
  {
    var v, delta := Get64(inc, e.stats[k]), IsDelta(e.stats[k]);
    && HasStats(e, b, k)
    && Get64(b, e.sourceStats[k]) == NewCounter(delta, Get64(a, e.sourceStats[k]), v, fs)
    && Get64(b, e.destinationStats[k]) == NewCounter(delta, Get64(a, e.destinationStats[k]), v, fd)
    && Get64(b, e.stats[k]) ==
         NewCommon(delta, Get64(a, e.stats[k]), v, latest, fs, fd,
                   Get64(b, e.sourceStats[k]), Get64(b, e.destinationStats[k]))
  }

  lemma StatRoles(e: AggregationElements, roles: Roles, i: nat)
    requires Aligned(e) && Assigns(roles, e) && i < |e.stats|
    ensures RoleOf(roles, e.stats[i]) == Some(Common(i))
    ensures RoleOf(roles, e.sourceStats[i]) == Some(Counter(Source, i))
    ensures RoleOf(roles, e.destinationStats[i]) == Some(Counter(Destination, i))
  {
    hide NameOf;
  }

  lemma SeparateStats(e: AggregationElements, roles: Roles, i: nat, k: nat)
    requires Aligned(e) && Assigns(roles, e) && i < |e.stats| && k < |e.stats| && i != k
    ensures {e.stats[i], e.sourceStats[i], e.destinationStats[i]}
         !! {e.stats[k], e.sourceStats[k], e.destinationStats[k]}
  {
    hide NameOf, Find, Put;
    StatRoles(e, roles, i);
    StatRoles(e, roles, k);
  }

  // ---------- octet differences ----------

  function Difference(t: Tally, reverse: bool): u64 {
    if reverse then t.reverse else t.total
  }

  function TotalName(node: Node, reverse: bool): string {
    if reverse then ReverseOctetName(node) else OctetName(node)
  }

  /** Statistic `o` is the (reverse) octet total that throughput is computed from. */
  ghost predicate OctetsAt(e: AggregationElements, o: nat, reverse: bool) {
    && o < |e.stats| == |e.sourceStats| == |e.destinationStats| && !IsDelta(e.stats[o])
    && e.stats[o] == (if reverse then REVERSE_OCTETS else OCTETS)
    && e.sourceStats[o] == TotalName(Source, reverse)
    && e.destinationStats[o] == TotalName(Destination, reverse)
  }

  lemma CountStepDifference(e: AggregationElements, roles: Roles, inc: Record, t: Tally,
                            fs: bool, fd: bool, latest: bool, i: nat, o: nat, reverse: bool)
    requires Aligned(e) && Assigns(roles, e) && i < |e.stats| && OctetsAt(e, o, reverse) && HasStats(e, t.rec, i)
    ensures var d := Difference(CountStep(e, inc, t, fs, fd, latest, i), reverse);
            var v := Get64(inc, e.stats[o]);
            d == if i != o || (!fs && !fd) then Difference(t, reverse)
                 else if fd then (v - Get64(t.rec, e.destinationStats[o])) % TWO64
                 else (v - Get64(t.rec, e.sourceStats[o])) % TWO64
  {
    hide NameOf, Assigns, Find, Put, CountCommon;
    StatRoles(e, roles, i);
    StatRoles(e, roles, o);
  }

  lemma {:induction false} CountStatsDifference(
    e: AggregationElements, roles: Roles, inc: Record, t: Tally,
    fs: bool, fd: bool, latest: bool, i: nat, o: nat, reverse: bool)
    requires Aligned(e) && Assigns(roles, e) && i <= |e.stats| && OctetsAt(e, o, reverse)
    requires forall k :: i <= k < |e.stats| ==> HasStats(e, t.rec, k)
    ensures var d := Difference(CountStats(e, inc, t, fs, fd, latest, i), reverse);
            var v := Get64(inc, e.stats[o]);
            d == if o < i || (!fs && !fd) then Difference(t, reverse)
                 else if fd then (v - Get64(t.rec, e.destinationStats[o])) % TWO64
                 else (v - Get64(t.rec, e.sourceStats[o])) % TWO64
    decreases |e.stats| - i
  {
    hide NameOf, Assigns, Find, Put, CountStep;
    if i < |e.stats| {
      CountStepEffect(e, roles, inc, t, fs, fd, latest, i);
      CountStepDifference(e, roles, inc, t, fs, fd, latest, i, o, reverse);
      forall k | i < k < |e.stats|
        ensures HasStats(e, CountStep(e, inc, t, fs, fd, latest, i).rec, k)
      {
        assert HasStats(e, t.rec, k);
        SeparateStats(e, roles, i, k);
      }
      if i != o {
        SeparateStats(e, roles, i, o);
      }
      CountStatsDifference(e, roles, inc, CountStep(e, inc, t, fs, fd, latest, i), fs, fd, latest, i + 1, o, reverse);
    }
  }

  // ---------- end times ----------

  function NodePrevious(inc: Record, ex: Record, node: Node): u32 {
    var t := Get32(ex, EndName(node));
    if t == 0 then Get32(inc, FLOW_START) else t
  }

  /** The end time that a merge compares with: the destination's when both nodes are filled. */
  function Previous(inc: Record, ex: Record, fs: bool, fd: bool): u32 {
    if fd then NodePrevious(inc, ex, Destination)
    else if fs then NodePrevious(inc, ex, Source) else 0
  }

  function Max(a: int, b: int): int {
    if a < b then b else a
  }

  ghost predicate EndsMoved(inc: Record, a: Record, b: Record, fs: bool, fd: bool) {
    && Has32(b, FLOW_END) && Get32(b, FLOW_END) == Max(Get32(a, FLOW_END), Get32(inc, FLOW_END))
    && NodeEndMoved(inc, a, b, Source, fs) && NodeEndMoved(inc, a, b, Destination, fd)
  }

  ghost predicate NodeEndMoved(inc: Record, a: Record, b: Record, node: Node, fills: bool) {
    Has32(b, EndName(node)) &&
    Get32(b, EndName(node)) == if fills then Get32(inc, FLOW_END) else Get32(a, EndName(node))
  }

  ghost predicate IsEnd(name: string) {
    name == FLOW_END || name == EndName(Source) || name == EndName(Destination)
  }

  lemma TouchEndsEffect(e: AggregationElements, roles: Roles, inc: Record, ex: Record, fs: bool, fd: bool)
    requires Assigns(roles, e) && Has32(ex, FLOW_END)
    requires Has32(ex, EndName(Source)) && Has32(ex, EndName(Destination))
    ensures var (r, prev) := TouchEnds(inc, ex, fs, fd);
            && prev == Previous(inc, ex, fs, fd) && EndsMoved(inc, ex, r, fs, fd)
            && forall m :: !IsEnd(m) ==> Find(r, m) == Find(ex, m)
  {
    hide NameOf, Find, Put;
  }

  // ---------- reason and state ----------

  lemma {:induction false} MergeNonStatsEffect(
    e: AggregationElements, roles: Roles, inc: Record, ex: Record, latest: bool, i: nat)
    requires Assigns(roles, e) && i <= |e.nonStats|
    requires Mergeable(e, ex, FLOW_END_REASON, Unsigned8) && Mergeable(e, ex, TCP_STATE, String)
    ensures var r := MergeNonStats(e, inc, ex, latest, i);
            && (forall m :: m != FLOW_END_REASON && m != TCP_STATE ==> Find(r, m) == Find(ex, m))
            && Mergeable(e, r, FLOW_END_REASON, Unsigned8) && Mergeable(e, r, TCP_STATE, String)
            && Get8(r, FLOW_END_REASON) ==
               (if FLOW_END_REASON in e.nonStats[i..] && Get8(ex, FLOW_END_REASON) != END_OF_FLOW
                then Get8(inc, FLOW_END_REASON) else Get8(ex, FLOW_END_REASON))
            && GetText(r, TCP_STATE) ==
               if TCP_STATE in e.nonStats[i..] && latest then GetText(inc, TCP_STATE) else GetText(ex, TCP_STATE)
    decreases |e.nonStats| - i
  {
    hide NameOf, Find, Put;
    if i < |e.nonStats| {
      var name := e.nonStats[i];
      assert e.nonStats[i..] == [name] + e.nonStats[i + 1..];
      var r :=
        if name == FLOW_END_REASON then
          if Get8(ex, name) != END_OF_FLOW then Put(ex, name, U8(Get8(inc, name))) else ex
        else if name == TCP_STATE then
          if latest then Put(ex, name, Str(GetText(inc, name))) else ex
        else ex;
      MergeNonStatsEffect(e, roles, inc, r, latest, i + 1);
    }
  }

  // ---------- throughput ----------

  ghost predicate RateFrom(role: Option<Role>, i: nat) {
    role.Some? && ((role.value.Throughput? && role.value.i >= i) || (role.value.NodeThroughput? && role.value.i >= i))
  }

  ghost predicate RatesSet(e: AggregationElements, a: Record, b: Record, v: u64,
                           fs: bool, fd: bool, latest: bool, k: nat)
    requires Aligned(e) && k < |e.throughput|
  {
    && HasRates(e, b, k)
    && Get64(b, e.sourceThroughput[k]) == (if fs then v else Get64(a, e.sourceThroughput[k]))
    && Get64(b, e.destinationThroughput[k]) == (if fd then v else Get64(a, e.destinationThroughput[k]))
    && Get64(b, e.throughput[k]) == (if latest then v else Get64(a, e.throughput[k]))
  }

  lemma RateRoles(e: AggregationElements, roles: Roles, i: nat)
    requires Aligned(e) && Assigns(roles, e) && i < |e.throughput|
    ensures RoleOf(roles, e.throughput[i]) == Some(Throughput(i))
    ensures RoleOf(roles, e.sourceThroughput[i]) == Some(NodeThroughput(Source, i))
    ensures RoleOf(roles, e.destinationThroughput[i]) == Some(NodeThroughput(Destination, i))
  {
    hide NameOf;
  }

  lemma SetRateEffect(e: AggregationElements, ex: Record, v: u64, fs: bool, fd: bool, latest: bool, i: nat)
    requires Aligned(e) && i < |e.throughput| && HasRates(e, ex, i)
    requires e.throughput[i] != e.sourceThroughput[i] && e.throughput[i] != e.destinationThroughput[i]
    requires e.sourceThroughput[i] != e.destinationThroughput[i]
    ensures var r := SetRate(e, ex, v, fs, fd, latest, i);
            && RatesSet(e, ex, r, v, fs, fd, latest, i)
            && forall m :: m != e.throughput[i] && m != e.sourceThroughput[i] && m != e.destinationThroughput[i] ==>
                 Find(r, m) == Find(ex, m)
  {
  }

  lemma {:induction false} SetThroughputEffect(
    e: AggregationElements, roles: Roles, ex: Record, vals: seq<u64>, fs: bool, fd: bool, latest: bool, i: nat)
    requires Aligned(e) && Assigns(roles, e) && |vals| == 2 && i <= |e.throughput|
    requires forall k :: i <= k < |e.throughput| ==> HasRates(e, ex, k)
    ensures var r := SetThroughput(e, ex, vals, fs, fd, latest, i);
            && (forall m :: !RateFrom(RoleOf(roles, m), i) ==> Find(r, m) == Find(ex, m))
            && (forall k :: i <= k < |e.throughput| ==> RatesSet(e, ex, r, vals[k], fs, fd, latest, k))
    decreases |e.throughput| - i
  {
    hide NameOf, Assigns, Find, Put, SetRate;
    if i < |e.throughput| {
      RateRoles(e, roles, i);
      var r3 := SetRate(e, ex, vals[i], fs, fd, latest, i);
      SetRateEffect(e, ex, vals[i], fs, fd, latest, i);
      forall k | i < k < |e.throughput|
        ensures HasRates(e, r3, k) && SameRates(e, ex, r3, k)
      {
        assert HasRates(e, ex, k);
        RateRoles(e, roles, k);
      }
      SetThroughputEffect(e, roles, r3, vals, fs, fd, latest, i + 1);
      var r := SetThroughput(e, r3, vals, fs, fd, latest, i + 1);
      assert SameRates(e, r3, r, i);
      forall k | i <= k < |e.throughput|
        ensures RatesSet(e, ex, r, vals[k], fs, fd, latest, k)
      {
        if k > i {
          assert SameRates(e, ex, r3, k) && RatesSet(e, r3, r, vals[k], fs, fd, latest, k);
        }
      }
    }
  }

  ghost predicate SameRates(e: AggregationElements, a: Record, b: Record, k: nat)
    requires Aligned(e) && k < |e.throughput|
  {
    && Find(a, e.throughput[k]) == Find(b, e.throughput[k])
    && Find(a, e.sourceThroughput[k]) == Find(b, e.sourceThroughput[k])
    && Find(a, e.destinationThroughput[k]) == Find(b, e.destinationThroughput[k])
  }

  // ---------- one merge ----------

  /** Names that no merge, opening or reset writes. */
  ghost predicate Foreign(role: Option<Role>) {
    role.None? || role.value.FlowStart? || role.value.Pod?
  }

  /** The record just before its counters are updated. */
  ghost function Prepared(e: AggregationElements, inc: Record, ex: Record, fs: bool, fd: bool): Record {
    MergeNonStats(e, inc, TouchEnds(inc, ex, fs, fd).0, Get32(inc, FLOW_END) >= Get32(ex, FLOW_END), 0)
  }

  lemma KnownRoles(e: AggregationElements, roles: Roles)
    requires Assigns(roles, e)
    ensures RoleOf(roles, FLOW_END) == Some(FlowEnd) && RoleOf(roles, FLOW_START) == Some(FlowStart)
    ensures RoleOf(roles, FLOW_END_REASON) == Some(EndReason) && RoleOf(roles, TCP_STATE) == Some(TcpState)
    ensures RoleOf(roles, EndName(Source)) == Some(NodeEnd(Source))
    ensures RoleOf(roles, EndName(Destination)) == Some(NodeEnd(Destination))
    ensures RoleOf(roles, PodName(Source)) == Some(Pod(Source))
    ensures RoleOf(roles, PodName(Destination)) == Some(Pod(Destination))
  {
    hide NameOf;
  }

  lemma PreparedEffect(e: AggregationElements, roles: Roles, inc: Record, ex: Record, fs: bool, fd: bool)
    requires Aligned(e) && Assigns(roles, e) && Stored(e, ex)
    ensures var r := Prepared(e, inc, ex, fs, fd);
            && EndsMoved(inc, ex, r, fs, fd)
            && Mergeable(e, r, FLOW_END_REASON, Unsigned8) && Mergeable(e, r, TCP_STATE, String)
            && Get8(r, FLOW_END_REASON) ==
               (if FLOW_END_REASON in e.nonStats && Get8(ex, FLOW_END_REASON) != END_OF_FLOW
                then Get8(inc, FLOW_END_REASON) else Get8(ex, FLOW_END_REASON))
            && GetText(r, TCP_STATE) ==
               (if TCP_STATE in e.nonStats && Get32(inc, FLOW_END) >= Get32(ex, FLOW_END)
                then GetText(inc, TCP_STATE) else GetText(ex, TCP_STATE))
            && forall m :: !IsEnd(m) && m != FLOW_END_REASON && m != TCP_STATE ==>
                 Find(r, m) == Find(ex, m)
  {
    hide NameOf, Assigns, Find, Put, TouchEnds, MergeNonStats;
    KnownRoles(e, roles);
    TouchEndsEffect(e, roles, inc, ex, fs, fd);
    var t := TouchEnds(inc, ex, fs, fd).0;
    MergeNonStatsEffect(e, roles, inc, t, Get32(inc, FLOW_END) >= Get32(ex, FLOW_END), 0);
    assert e.nonStats[0..] == e.nonStats;
  }
}
