/**
  The contents of one aggregated flow record, on values: how a first record is extended with
  the aggregation fields, how a later record is correlated and merged into it, and how its
  delta and throughput fields are reset. A record is its ordered list of elements, and an
  element is looked up by name, first match first.
 */
module FlowContent {
  import opened Bytes
  import opened Elements

  type Record = seq<Element>

  const TWO64: nat := 0x1_0000_0000_0000_0000

  /** The two nodes that may report a flow. */
  datatype Node = Source | Destination

  /** The element names that the code spells out. */
  datatype KnownName =
    | FlowStartSeconds | FlowEndSeconds | FlowEndReason | TcpStateName
    | OctetTotalCount | ReverseOctetTotalCount
    | FlowType | EgressRuleAction | IngressRuleAction
    | EndFrom(node: Node) | OctetsFrom(node: Node) | ReverseOctetsFrom(node: Node) | PodOf(node: Node)

  function NameOf(k: KnownName): string {
    match k
    case FlowStartSeconds => "flowStartSeconds"
    case FlowEndSeconds => "flowEndSeconds"
    case FlowEndReason => "flowEndReason"
    case TcpStateName => "tcpState"
    case OctetTotalCount => "octetTotalCount"
    case ReverseOctetTotalCount => "reverseOctetTotalCount"
    case FlowType => "flowType"
    case EgressRuleAction => "egressNetworkPolicyRuleAction"
    case IngressRuleAction => "ingressNetworkPolicyRuleAction"
    case EndFrom(Source) => "flowEndSecondsFromSourceNode"
    case EndFrom(Destination) => "flowEndSecondsFromDestinationNode"
    case OctetsFrom(Source) => "octetTotalCountFromSourceNode"
    case OctetsFrom(Destination) => "octetTotalCountFromDestinationNode"
    case ReverseOctetsFrom(Source) => "reverseOctetTotalCountFromSourceNode"
    case ReverseOctetsFrom(Destination) => "reverseOctetTotalCountFromDestinationNode"
    case PodOf(Source) => "sourcePodName"
    case PodOf(Destination) => "destinationPodName"
  }

  const FLOW_START := NameOf(FlowStartSeconds)
  const FLOW_END := NameOf(FlowEndSeconds)
  const FLOW_END_REASON := NameOf(FlowEndReason)
  const TCP_STATE := NameOf(TcpStateName)
  const OCTETS := NameOf(OctetTotalCount)
  const REVERSE_OCTETS := NameOf(ReverseOctetTotalCount)
  const FLOW_TYPE := NameOf(FlowType)
  const EGRESS_ACTION := NameOf(EgressRuleAction)
  const INGRESS_ACTION := NameOf(IngressRuleAction)

  function EndName(node: Node): string { NameOf(EndFrom(node)) }

  function OctetName(node: Node): string { NameOf(OctetsFrom(node)) }

  function ReverseOctetName(node: Node): string { NameOf(ReverseOctetsFrom(node)) }

  function PodName(node: Node): string { NameOf(PodOf(node)) }

  const INTER_NODE: byte := 2
  const ACTION_DROP: byte := 2
  const ACTION_REJECT: byte := 3
  const END_OF_FLOW: byte := 3

  /** The configured element names; `describe` is the registry's lookup by name, which may fail. */
  datatype AggregationElements = AggregationElements(
    nonStats: seq<string>,
    stats: seq<string>, sourceStats: seq<string>, destinationStats: seq<string>,
    endSeconds: seq<string>,
    throughput: seq<string>, sourceThroughput: seq<string>, destinationThroughput: seq<string>,
    describe: string -> Option<InfoElement>)

  /** The element that the registry has under a name, or one of that name that it does not have. */
  function IeOf(e: AggregationElements, name: string): InfoElement {
    match e.describe(name)
    case Some(ie) => ie
    case None => InfoElement(name, 0, InvalidDataType, 0, 0)
  }

  function CounterNames(e: AggregationElements, node: Node): seq<string> {
    if node.Source? then e.sourceStats else e.destinationStats
  }

  /** The checks of `InitAggregationProcess`, and the two throughput values the code computes. */
  predicate Aligned(e: AggregationElements) {
    && |e.stats| == |e.sourceStats| == |e.destinationStats|
    && |e.throughput| == |e.sourceThroughput| == |e.destinationThroughput| <= 2
  }

  // ---------- access by name ----------

  function Find(rec: Record, name: string): Option<Element> {
    if rec == [] then None
    else if rec[0].ie.name == name then Some(rec[0])
    else Find(rec[1..], name)
  }

  /** Sets the value of the first element called `name`, if there is one. */
  function Put(rec: Record, name: string, v: Value): (r: Record)
    ensures forall m :: Find(r, m) ==
                        if m == name && Find(rec, name).Some?
                        then Some(Find(rec, name).value.(value := v)) else Find(rec, m)
  {
    if rec == [] then []
    else if rec[0].ie.name == name then
      var r := [rec[0].(value := v)] + rec[1..];
      assert r[1..] == rec[1..];
      r
    else
      var r := [rec[0]] + Put(rec[1..], name, v);
      assert r[1..] == Put(rec[1..], name, v);
      r
  }

  /** Adding an element hides nothing: an earlier one of the same name still wins. */
  function Add(rec: Record, e: Element): (r: Record)
    ensures forall m :: Find(r, m) ==
                        if Find(rec, m).Some? then Find(rec, m)
                        else if m == e.ie.name then Some(e) else None
  {
    AddFinds(rec, e);
    rec + [e]
  }

  lemma {:induction false} AddFinds(rec: Record, e: Element)
    ensures forall m :: Find(rec + [e], m) ==
                        if Find(rec, m).Some? then Find(rec, m)
                        else if m == e.ie.name then Some(e) else None
  {
    if rec == [] {
      assert rec + [e] == [e] && [e][1..] == [];
    } else {
      AddFinds(rec[1..], e);
      assert (rec + [e])[1..] == rec[1..] + [e];
    }
  }

  predicate Has64(rec: Record, name: string) {
    Find(rec, name).Some? && Find(rec, name).value.value.U64?
  }

  predicate Has32(rec: Record, name: string) {
    Find(rec, name).Some? && Find(rec, name).value.value.U32?
  }

  function Get64(rec: Record, name: string): u64 {
    if Has64(rec, name) then Find(rec, name).value.value.n64 else 0
  }

  function Get32(rec: Record, name: string): u32 {
    if Has32(rec, name) then Find(rec, name).value.value.n32 else 0
  }

  function Get8(rec: Record, name: string): byte {
    match Find(rec, name)
    case Some(e) => if e.value.U8? then e.value.n8 else 0
    case None => 0
  }

  function GetText(rec: Record, name: string): seq<byte> {
    match Find(rec, name)
    case Some(e) => if e.value.Str? then e.value.text else []
    case None => []
  }

  // ---------- which node a record comes from ----------

  predicate FromNode(rec: Record, node: Node) {
    var other := if node.Source? then Destination else Source;
    GetText(rec, PodName(node)) != [] && GetText(rec, PodName(other)) == []
  }

  predicate FromSameNode(a: Record, b: Record) {
    (FromNode(a, Source) && FromNode(b, Source)) || (FromNode(a, Destination) && FromNode(b, Destination))
  }

  predicate CorrelationRequired(rec: Record) {
    && Get8(rec, FLOW_TYPE) == INTER_NODE
    && Get8(rec, EGRESS_ACTION) != ACTION_DROP && Get8(rec, EGRESS_ACTION) != ACTION_REJECT
    && Get8(rec, INGRESS_ACTION) != ACTION_REJECT
  }

  /** Whether a record updates the fields kept for `node`. */
  predicate Fills(rec: Record, node: Node) {
    !CorrelationRequired(rec) || FromNode(rec, Source) == node.Source?
  }

  predicate OccursAt(s: string, sub: string, i: nat) {
    i + |sub| <= |s| && s[i..i + |sub|] == sub
  }

  predicate Contains(s: string, sub: string) {
    exists i :: 0 <= i <= |s| && OccursAt(s, sub, i)
  }

  predicate IsDelta(name: string) {
    Contains(name, "Delta")
  }

  // ---------- first record of a flow ----------

  function AddCounters(e: AggregationElements, rec: Record, fs: bool, fd: bool, i: nat): Record
    requires Aligned(e) && i < |e.stats|
  {
    var v := Get64(rec, e.stats[i]);
    var r := Add(rec, Element(IeOf(e, e.sourceStats[i]), U64(if fs then v else 0)));
    Add(r, Element(IeOf(e, e.destinationStats[i]), U64(if fd then v else 0)))
  }

  function AddStats(e: AggregationElements, rec: Record, fs: bool, fd: bool, i: nat): Record
    requires Aligned(e) && i <= |e.stats|
    decreases |e.stats| - i
  {
    if i == |e.stats| then rec
    else if Find(rec, e.stats[i]).None? then AddStats(e, rec, fs, fd, i + 1)
    else AddStats(e, AddCounters(e, rec, fs, fd, i), fs, fd, i + 1)
  }

  function AddEnds(e: AggregationElements, rec: Record, t: u32, fs: bool, fd: bool, i: nat): Record
    requires i <= |e.endSeconds|
    decreases |e.endSeconds| - i
  {
    if i == |e.endSeconds| then rec
    else
      var name := e.endSeconds[i];
      var v := if (fs && Contains(name, "Source")) || (fd && Contains(name, "Destination")) then t else 0;
      AddEnds(e, Add(rec, Element(IeOf(e, name), U32(v))), t, fs, fd, i + 1)
  }

  function AddRate(e: AggregationElements, rec: Record, v: u64, fs: bool, fd: bool, i: nat): Record
    requires Aligned(e) && i < |e.throughput|
  {
    var r1 := Add(rec, Element(IeOf(e, e.throughput[i]), U64(v)));
    var r2 := Add(r1, Element(IeOf(e, e.sourceThroughput[i]), U64(if fs then v else 0)));
    Add(r2, Element(IeOf(e, e.destinationThroughput[i]), U64(if fd then v else 0)))
  }

  function AddThroughput(e: AggregationElements, rec: Record, vals: seq<u64>, fs: bool, fd: bool, i: nat): Record
    requires Aligned(e) && |vals| == 2 && i <= |e.throughput|
    decreases |e.throughput| - i
  {
    if i == |e.throughput| then rec
    else AddThroughput(e, AddRate(e, rec, vals[i], fs, fd, i), vals, fs, fd, i + 1)
  }

  /** `bytes * 8 / seconds` in 64-bit arithmetic. */
  function Rate(bytes: u64, seconds: u32): u64
    requires seconds > 0
  {
    bytes * 8 % TWO64 / seconds
  }

  function FirstRates(rec: Record): (vals: seq<u64>)
    ensures |vals| == 2
  {
    var start, end := Get32(rec, FLOW_START), Get32(rec, FLOW_END);
    if end > start then [Rate(Get64(rec, OCTETS), end - start), Rate(Get64(rec, REVERSE_OCTETS), end - start)]
    else [0, 0]
  }

  /** The record as stored when it opens a flow. */
  function Opened(e: AggregationElements, rec: Record): Record
    requires Aligned(e)
  {
    var fs, fd := Fills(rec, Source), Fills(rec, Destination);
    var r := AddStats(e, rec, fs, fd, 0);
    AddThroughput(e, AddEnds(e, r, Get32(r, FLOW_END), fs, fd, 0), FirstRates(r), fs, fd, 0)
  }

  // ---------- correlation ----------

  /** The six types that correlation copies, each with its own notion of an unset value. */
  predicate Correlates(e: Element) {
    match e.ie.dataType
    case String => e.value.Str? && e.value.text != []
    case Unsigned8 => e.value.U8? && e.value.n8 != 0
    case Unsigned16 => e.value.U16? && e.value.n16 != 0
    case Signed32 => e.value.S32? && e.value.s32 != 0
    case Ipv4Address => e.value.IP? && To4(e.value.ip) != Some([0, 0, 0, 0])
    case Ipv6Address => e.value.IP? && To16(e.value.ip) != Some(seq(16, i => 0))
    case _ => false
  }

  function Correlate(fields: seq<string>, inc: Record, ex: Record, i: nat): Record
    requires i <= |fields|
    decreases |fields| - i
  {
    if i == |fields| then ex
    else
      match Find(inc, fields[i])
      case Some(el) =>
        Correlate(fields, inc, if Correlates(el) then Put(ex, fields[i], el.value) else ex, i + 1)
      case None => Correlate(fields, inc, ex, i + 1)
  }

  // ---------- merging a later record ----------

  /** The stored end time of a node becomes the incoming one; the previous one is returned,
      or the incoming start time if there was none. */
  function TouchNodeEnd(inc: Record, ex: Record, node: Node): (Record, u32) {
    var was := Get32(ex, EndName(node));
    (Put(ex, EndName(node), U32(Get32(inc, FLOW_END))), if was == 0 then Get32(inc, FLOW_START) else was)
  }

  function TouchEnds(inc: Record, ex: Record, fs: bool, fd: bool): (Record, u32) {
    var t := Get32(inc, FLOW_END);
    var r1 := if t >= Get32(ex, FLOW_END) then Put(ex, FLOW_END, U32(t)) else ex;
    var r2 := if fs then TouchNodeEnd(inc, r1, Source) else (r1, 0);
    if fd then TouchNodeEnd(inc, r2.0, Destination) else r2
  }

  function MergeNonStats(e: AggregationElements, inc: Record, ex: Record, latest: bool, i: nat): Record
    requires i <= |e.nonStats|
    decreases |e.nonStats| - i
  {
    if i == |e.nonStats| then ex
    else
      var name := e.nonStats[i];
      var r :=
        if name == FLOW_END_REASON then
          if Get8(ex, name) != END_OF_FLOW then Put(ex, name, U8(Get8(inc, name))) else ex
        else if name == TCP_STATE then
          if latest then Put(ex, name, Str(GetText(inc, name))) else ex
        else ex;
      MergeNonStats(e, inc, r, latest, i + 1)
  }

  /** The record being merged and the two octet differences seen so far. */
  datatype Tally = Tally(rec: Record, total: u64, reverse: u64)

  function CountNode(e: AggregationElements, v: u64, t: Tally, node: Node, i: nat): Tally
    requires Aligned(e) && i < |e.stats|
  {
    var name := CounterNames(e, node)[i];
    var was := Get64(t.rec, name);
    if IsDelta(e.stats[i]) then t.(rec := Put(t.rec, name, U64((v + was) % TWO64)))
    else
      var d := (v - was) % TWO64;
      Tally(Put(t.rec, name, U64(v)),
            if name == OctetName(node) then d else t.total,
            if name == ReverseOctetName(node) then d else t.reverse)
  }

  function CountCommon(e: AggregationElements, v: u64, rec: Record, fs: bool, fd: bool, latest: bool, i: nat): Record
    requires Aligned(e) && i < |e.stats|
  {
    var name := e.stats[i];
    if !latest then rec
    else if !IsDelta(name) then if Get64(rec, name) < v then Put(rec, name, U64(v)) else rec
    else
      var r := if fs then Put(rec, name, U64(Get64(rec, e.sourceStats[i]))) else rec;
      if fd then Put(r, name, U64(Get64(r, e.destinationStats[i]))) else r
  }

  function CountStep(e: AggregationElements, inc: Record, t: Tally, fs: bool, fd: bool, latest: bool, i: nat): Tally
    requires Aligned(e) && i < |e.stats|
  {
    var v := Get64(inc, e.stats[i]);
    var t1 := if fs then CountNode(e, v, t, Source, i) else t;
    var t2 := if fd then CountNode(e, v, t1, Destination, i) else t1;
    t2.(rec := CountCommon(e, v, t2.rec, fs, fd, latest, i))
  }

  function CountStats(e: AggregationElements, inc: Record, t: Tally, fs: bool, fd: bool, latest: bool, i: nat): Tally
    requires Aligned(e) && i <= |e.stats|
    decreases |e.stats| - i
  {
    if i == |e.stats| then t
    else CountStats(e, inc, CountStep(e, inc, t, fs, fd, latest, i), fs, fd, latest, i + 1)
  }

  function SetRate(e: AggregationElements, rec: Record, v: u64, fs: bool, fd: bool, latest: bool, i: nat): Record
    requires Aligned(e) && i < |e.throughput|
  {
    var r1 := if fs then Put(rec, e.sourceThroughput[i], U64(v)) else rec;
    var r2 := if fd then Put(r1, e.destinationThroughput[i], U64(v)) else r1;
    if latest then Put(r2, e.throughput[i], U64(v)) else r2
  }

  function SetThroughput(e: AggregationElements, rec: Record, vals: seq<u64>, fs: bool, fd: bool, latest: bool,
      i: nat): Record
    requires Aligned(e) && |vals| == 2 && i <= |e.throughput|
    decreases |e.throughput| - i
  {
    if i == |e.throughput| then rec
    else SetThroughput(e, SetRate(e, rec, vals[i], fs, fd, latest, i), vals, fs, fd, latest, i + 1)
  }

  /** `aggregateRecords`: a record that is not later than its node's previous one only moves end times. */
  function Aggregate(e: AggregationElements, inc: Record, ex: Record, fs: bool, fd: bool): Record
    requires Aligned(e)
  {
    var latest := Get32(inc, FLOW_END) >= Get32(ex, FLOW_END);
    var (r, prev) := TouchEnds(inc, ex, fs, fd);
    if Get32(inc, FLOW_END) <= prev then r
    else
      var seconds := Get32(inc, FLOW_END) - prev;
      var t := CountStats(e, inc, Tally(MergeNonStats(e, inc, r, latest, 0), 0, 0), fs, fd, latest, 0);
      SetThroughput(e, t.rec, [Rate(t.total, seconds), Rate(t.reverse, seconds)], fs, fd, latest, 0)
  }

  // ---------- reset ----------

  /** `ResetValue`: the empty value of the same kind. */
  function Zero(v: Value): (z: Value)
    ensures IsValueEmpty(z)
    ensures IsValueEmpty(v) <==> v == z || v == F32(0x8000_0000) || v == F64(0x8000_0000_0000_0000)
  {
    match v
    case U8(_) => U8(0)
    case U16(_) => U16(0)
    case U32(_) => U32(0)
    case U64(_) => U64(0)
    case S8(_) => S8(0)
    case S16(_) => S16(0)
    case S32(_) => S32(0)
    case S64(_) => S64(0)
    case F32(_) => F32(0)
    case F64(_) => F64(0)
    case Bool(_) => Bool(false)
    case Mac(_) => Mac([])
    case Str(_) => Str([])
    case IP(_) => IP([])
  }

  /** Resets the first element called `name`, if there is one. */
  function Wipe(rec: Record, name: string): (r: Record)
    ensures forall m :: Find(r, m) ==
                        if m == name && Find(rec, name).Some?
                        then Some(Find(rec, name).value.(value := Zero(Find(rec, name).value.value))) else Find(rec, m)
  {
    match Find(rec, name)
    case Some(el) => Put(rec, name, Zero(el.value))
    case None => rec
  }

  function ResetStats(e: AggregationElements, rec: Record, i: nat): Record
    requires Aligned(e) && i <= |e.stats|
    decreases |e.stats| - i
  {
    if i == |e.stats| then rec
    else if !IsDelta(e.stats[i]) then ResetStats(e, rec, i + 1)
    else
      var r := Wipe(Wipe(Wipe(rec, e.stats[i]), e.sourceStats[i]), e.destinationStats[i]);
      ResetStats(e, r, i + 1)
  }

  function ResetThroughput(e: AggregationElements, rec: Record, i: nat): Record
    requires Aligned(e) && i <= |e.throughput|
    decreases |e.throughput| - i
  {
    if i == |e.throughput| then rec
    else
      var r := Wipe(Wipe(Wipe(rec, e.throughput[i]), e.sourceThroughput[i]), e.destinationThroughput[i]);
      ResetThroughput(e, r, i + 1)
  }

  function Reset(e: AggregationElements, rec: Record): Record
    requires Aligned(e)
  {
    ResetThroughput(e, ResetStats(e, rec, 0), 0)
  }
}
