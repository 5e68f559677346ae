/**
  Which side of a flow a record counts for, said of the record's own fields: its flow type, its rule actions and the two
  pod names. Opening and merging write the fields of that side and leave those of the other.
 */
module FlowSides {
  import opened Bytes
  import opened FlowContent
  import opened FlowEffects
  import opened FlowMerge
  import opened FlowOpen
  import opened FlowOutcomes
  import opened FlowAttempts
  import opened FlowHistory
  import opened FlowCounters
  import opened FlowThroughput

  // ---------- what a record says of itself ----------

  /** An inter-node flow whose egress action is neither drop nor reject and whose ingress action is not reject. */
  predicate InterNode(rec: Record) {
    && Get8(rec, "flowType") == 2
    && Get8(rec, "egressNetworkPolicyRuleAction") != 2 && Get8(rec, "egressNetworkPolicyRuleAction") != 3
    && Get8(rec, "ingressNetworkPolicyRuleAction") != 3
  }

  predicate SourcePodOnly(rec: Record) {
    GetText(rec, "sourcePodName") != [] && GetText(rec, "destinationPodName") == []
  }

  predicate DestinationPodOnly(rec: Record) {
    GetText(rec, "destinationPodName") != [] && GetText(rec, "sourcePodName") == []
  }

  /** A record of an inter-node flow counts for the source if it names the source pod alone, else for the destination;
      any other record counts for both. */
  predicate CountsFor(rec: Record, node: Node) {
    InterNode(rec) ==> (SourcePodOnly(rec) <==> node == Source)
  }

  function EndKey(node: Node): string {
    match node
    case Source => "flowEndSecondsFromSourceNode"
    case Destination => "flowEndSecondsFromDestinationNode"
  }

  function CounterKey(e: AggregationElements, node: Node, k: nat): string
    requires Aligned(e) && k < |e.stats|
  {
    match node
    case Source => e.sourceStats[k]
    case Destination => e.destinationStats[k]
  }

  function RateKey(e: AggregationElements, node: Node, k: nat): string
    requires Aligned(e) && k < |e.throughput|
  {
    match node
    case Source => e.sourceThroughput[k]
    case Destination => e.destinationThroughput[k]
  }

  lemma Spelled()
    ensures FLOW_START == "flowStartSeconds" && FLOW_END == "flowEndSeconds"
    ensures OCTETS == "octetTotalCount" && REVERSE_OCTETS == "reverseOctetTotalCount"
    ensures forall node :: EndName(node) == EndKey(node)
    ensures PodName(Source) == "sourcePodName" && PodName(Destination) == "destinationPodName"
    ensures OctetName(Source) == "octetTotalCountFromSourceNode"
    ensures OctetName(Destination) == "octetTotalCountFromDestinationNode"
    ensures ReverseOctetName(Source) == "reverseOctetTotalCountFromSourceNode"
    ensures ReverseOctetName(Destination) == "reverseOctetTotalCountFromDestinationNode"
    ensures FLOW_END_REASON == "flowEndReason" && END_OF_FLOW == 3 && TCP_STATE == "tcpState"
  {
  }

  /** A delta counter has "Delta" somewhere in its name. */
  lemma DeltaNamed(name: string)
    ensures IsDelta(name) <==> exists a, b :: name == a + "Delta" + b
  {
    if IsDelta(name) {
      var i :| 0 <= i <= |name| && OccursAt(name, "Delta", i);
      assert name == name[..i] + "Delta" + name[i + 5..];
    }
    if a, b :| name == a + "Delta" + b {
      assert OccursAt(name, "Delta", |a|);
    }
  }

  /** So of the octet counters of a flow one is a delta and one a total. */
  lemma DeltaAndTotal()
    ensures IsDelta("octetDeltaCount") && !IsDelta("octetTotalCount")
  {
    hide IsDelta;
    assert "octetDeltaCount" == "octet" + "Delta" + "Count";
    DeltaNamed("octetDeltaCount");
    NoDelta("octetTotalCount");
  }

  lemma NoDelta(name: string)
    requires 'D' !in name
    ensures !IsDelta(name)
  {
    DeltaNamed(name);
    forall a, b
      ensures name != a + "Delta" + b
    {
      assert (a + "Delta" + b)[|a|] == 'D';
    }
  }

  /** Which records need correlation, and which flows are open to be sent at once: all but inter-node flows that are not
      denied. The flag that the correlated fields are filled is set for every flow that is not inter-node. */
  lemma OpensReady(r: Rules, rec: Record, v4: bool)
    requires Aligned(r.e)
    ensures CorrelationRequired(rec) <==> InterNode(rec)
    ensures var f := Open(r, rec, v4);
            && (f.ready <==> !InterNode(rec)) && (f.correlated <==> Get8(rec, "flowType") != 2)
            && f.retries == 0 && f.isIPv4 == v4
  {
    hide Find, Opened;
  }

  lemma FillsIsCountsFor(rec: Record)
    ensures forall node :: Fills(rec, node) <==> CountsFor(rec, node)
    ensures FromNode(rec, Source) <==> SourcePodOnly(rec)
    ensures FromNode(rec, Destination) <==> DestinationPodOnly(rec)
  {
    hide Find;
  }

  /** Whether a record is from the source can be asked if the source pod is a text, or not there, and so is the
      destination pod; of a record that names no source pod the other is not looked at. */
  lemma AskableSource(rec: Record)
    ensures ReadableNode(rec, Source) <==>
              var s, d := Find(rec, "sourcePodName"), Find(rec, "destinationPodName");
              || s.None?
              || (s.value.value.Str? && (s.value.value.text == [] || d.None? || d.value.value.Str?))
  {
    hide Find;
  }

  // ---------- opening ----------

  /** On the side of `node` the opened record has the values of its first record, or zeros. */
  ghost predicate SideOpened(e: AggregationElements, rec: Record, b: Record, node: Node, on: bool)
    requires Aligned(e)
  {
    && (forall k :: 0 <= k < |e.stats| ==>
          Get64(b, CounterKey(e, node, k)) == if on then Get64(rec, e.stats[k]) else 0)
    && Get32(b, EndKey(node)) == (if on then Get32(rec, "flowEndSeconds") else 0)
    && (forall k :: 0 <= k < |e.throughput| ==>
          Get64(b, RateKey(e, node, k)) == if on then Get64(b, e.throughput[k]) else 0)
  }

  /** What the first record of a flow gives as throughput: eight times its octets over its duration, nothing if it has
      none. */
  function FirstThroughput(rec: Record, k: nat): int {
    var start, end := Get32(rec, "flowStartSeconds"), Get32(rec, "flowEndSeconds");
    var octets := Get64(rec, if k == 0 then "octetTotalCount" else "reverseOctetTotalCount");
    if start < end then octets * 8 % 0x1_0000_0000_0000_0000 / (end - start) else 0
  }

  /** A record that opens a flow gives the sides that it counts for its own values and the other side zeros. */
  lemma OpensItsSides(r: Rules, rec: Record, v4: bool)
    requires Aligned(r.e) && Usable(r.e) && Incoming(r.e, rec)
    ensures var b := Open(r, rec, v4).record;
            && (forall node :: SideOpened(r.e, rec, b, node, CountsFor(rec, node)))
            && (forall k :: 0 <= k < |r.e.stats| ==> Get64(b, r.e.stats[k]) == Get64(rec, r.e.stats[k]))
            && (forall k :: 0 <= k < |r.e.throughput| ==> Get64(b, r.e.throughput[k]) == FirstThroughput(rec, k))
  {
    hide NameOf, Find, Usable, Incoming, Stored, Opened, Fills, CountsFor, SideOpened, Opens, FirstThroughput;
    var b := Opened(r.e, rec);
    FillsIsCountsFor(rec);
    OpenEffect(r, rec);
    forall node
      ensures SideOpened(r.e, rec, b, node, CountsFor(rec, node))
    {
      OpensSide(r.e, rec, b, node);
    }
    OpensCommon(r.e, rec, b);
  }

  lemma OpensSide(e: AggregationElements, rec: Record, b: Record, node: Node)
    requires Aligned(e) && Opens(e, rec, b)
    ensures SideOpened(e, rec, b, node, Fills(rec, node))
  {
    hide NameOf, Find, Fills, FirstRates;
    Spelled();
    var fs, fd := Fills(rec, Source), Fills(rec, Destination);
    forall k | 0 <= k < |e.stats|
      ensures Get64(b, CounterKey(e, node, k)) == if Fills(rec, node) then Get64(rec, e.stats[k]) else 0
    {
      assert CountersOpened(e, rec, b, fs, fd, k);
    }
    forall k | 0 <= k < |e.throughput|
      ensures Get64(b, RateKey(e, node, k)) == if Fills(rec, node) then Get64(b, e.throughput[k]) else 0
    {
      assert RatesOpened(e, b, FirstRates(rec)[k], fs, fd, k);
    }
  }

  lemma OpensCommon(e: AggregationElements, rec: Record, b: Record)
    requires Aligned(e) && Opens(e, rec, b)
    ensures forall k :: 0 <= k < |e.stats| ==> Get64(b, e.stats[k]) == Get64(rec, e.stats[k])
    ensures forall k :: 0 <= k < |e.throughput| ==> Get64(b, e.throughput[k]) == FirstThroughput(rec, k)
  {
    hide NameOf, Find, Fills, FirstRates, FirstThroughput;
    var fs, fd := Fills(rec, Source), Fills(rec, Destination);
    forall k | 0 <= k < |e.stats|
      ensures Get64(b, e.stats[k]) == Get64(rec, e.stats[k])
    {
      assert CountersOpened(e, rec, b, fs, fd, k);
    }
    forall k | 0 <= k < |e.throughput|
      ensures Get64(b, e.throughput[k]) == FirstThroughput(rec, k)
    {
      assert RatesOpened(e, b, FirstRates(rec)[k], fs, fd, k);
      FirstRateIs(rec, k);
    }
  }

  lemma FirstRateIs(rec: Record, k: nat)
    requires k < 2
    ensures FirstRates(rec)[k] == FirstThroughput(rec, k)
  {
    hide NameOf, Find;
    Spelled();
  }

  /** An inter-node record that names only the destination pod opens the destination side and leaves zeros on the
      source side; one that names only the source pod does the converse. */
  lemma OnePodOpensOneSide(r: Rules, rec: Record, v4: bool)
    requires Aligned(r.e) && Usable(r.e) && Incoming(r.e, rec) && InterNode(rec)
    ensures var b := Open(r, rec, v4).record;
            && (DestinationPodOnly(rec) ==>
                  SideOpened(r.e, rec, b, Destination, true) && SideOpened(r.e, rec, b, Source, false))
            && (SourcePodOnly(rec) ==>
                  SideOpened(r.e, rec, b, Source, true) && SideOpened(r.e, rec, b, Destination, false))
  {
    hide Find, Usable, Incoming, Open, SideOpened, InterNode;
    OpensItsSides(r, rec, v4);
    var b := Open(r, rec, v4).record;
    assert SideOpened(r.e, rec, b, Source, CountsFor(rec, Source));
    assert SideOpened(r.e, rec, b, Destination, CountsFor(rec, Destination));
  }

  // ---------- merging ----------

  /** The time that a record must be later than to be accepted on the side of `node`. */
  function LastOn(rec: Record, a: Record, node: Node): u32 {
    if Get32(a, EndKey(node)) == 0 then Get32(rec, "flowStartSeconds") else Get32(a, EndKey(node))
  }

  /** The record is later than the previous one of the side that it counts for, the destination if it counts for
      both. */
  predicate IsLater(rec: Record, a: Record) {
    Get32(rec, "flowEndSeconds") > LastOn(rec, a, if CountsFor(rec, Destination) then Destination else Source)
  }

  /** On the side of `node` nothing has changed. */
  ghost predicate SideKept(e: AggregationElements, a: Record, b: Record, node: Node)
    requires Aligned(e)
  {
    && (forall k :: 0 <= k < |e.stats| ==> Get64(b, CounterKey(e, node, k)) == Get64(a, CounterKey(e, node, k)))
    && Get32(b, EndKey(node)) == Get32(a, EndKey(node))
    && (forall k :: 0 <= k < |e.throughput| ==> Get64(b, RateKey(e, node, k)) == Get64(a, RateKey(e, node, k)))
  }

  /** On the side of `node` the end time is the record's; if the record is later, deltas have grown by its deltas, and
      totals are its totals. */
  ghost predicate SideMerged(e: AggregationElements, rec: Record, a: Record, b: Record, node: Node, later: bool)
    requires Aligned(e)
  {
    && Get32(b, EndKey(node)) == Get32(rec, "flowEndSeconds")
    && forall k :: 0 <= k < |e.stats| ==>
         Get64(b, CounterKey(e, node, k)) ==
         if !later then Get64(a, CounterKey(e, node, k))
         else if IsDelta(e.stats[k]) then
           (Get64(a, CounterKey(e, node, k)) + Get64(rec, e.stats[k])) % 0x1_0000_0000_0000_0000
         else Get64(rec, e.stats[k])
  }

  /** The throughput fields of a side that is not filled stay. */
  lemma OtherRatesStay(e: AggregationElements, roles: Roles, inc: Record, ex: Record, fs: bool, fd: bool, k: nat)
    requires Aligned(e) && Assigns(roles, e) && Stored(e, ex) && k < |e.throughput|
    ensures var b := Aggregate(e, inc, ex, fs, fd);
            && (!fs ==> Get64(b, e.sourceThroughput[k]) == Get64(ex, e.sourceThroughput[k]))
            && (!fd ==> Get64(b, e.destinationThroughput[k]) == Get64(ex, e.destinationThroughput[k]))
  {
    hide NameOf, Find, Put, Assigns, Aggregate, TouchEnds, FlowMerge.Counted, SetThroughput, Rate, Previous, Mergeable,
      ReasonMerged, EndsMoved, StatChanged, HasStats;
    AggregateShape(e, roles, inc, ex, fs, fd);
    var b := Aggregate(e, inc, ex, fs, fd);
    if !Later(inc, ex, fs, fd) {
      TouchEndsEffect(e, roles, inc, ex, fs, fd);
      KeepsStats(e, roles, ex, b);
      assert SameRates(e, ex, b, k);
    } else {
      CountedEffect(e, roles, inc, ex, fs, fd);
      CountedEnd(e, inc, ex, fs, fd);
      var t, s := FlowMerge.Counted(e, inc, ex, fs, fd), Get32(inc, FLOW_END) - Previous(inc, ex, fs, fd);
      var vals := [Rate(t.total, s), Rate(t.reverse, s)];
      RatedKeeps(e, roles, t.rec, vals, fs, fd, Latest(inc, ex));
      assert SameRates(e, ex, t.rec, k) && RatesSet(e, t.rec, b, vals[k], fs, fd, Latest(inc, ex), k);
    }
  }

  lemma MergedRates(r: Rules, f: Flow, rec: Record, k: nat)
    requires Aligned(r.e) && Usable(r.e) && Incoming(r.e, rec) && Stored(r.e, f.record) && k < |r.e.throughput|
    ensures forall node :: !Fills(rec, node) ==>
              Get64(Merge(r, f, rec).record, RateKey(r.e, node, k)) == Get64(f.record, RateKey(r.e, node, k))
  {
    hide NameOf, Find, Assigns, Usable, Incoming, Stored, Aggregate, Correlating, Correlate, Fills;
    var base := Base(r, f, rec);
    BaseKeeps(r, f, rec);
    assert SameRates(r.e, f.record, base, k);
    var roles := RolesOf(r.e);
    OtherRatesStay(r.e, roles, rec, base, Fills(rec, Source), Fills(rec, Destination), k);
  }

  lemma LaterIsIsLater(rec: Record, a: Record)
    ensures Later(rec, a, Fills(rec, Source), Fills(rec, Destination)) <==> IsLater(rec, a)
  {
    hide NameOf, Find, Fills, CountsFor;
    Spelled();
    FillsIsCountsFor(rec);
    OneSide(rec);
  }

  lemma OneSide(rec: Record)
    ensures CountsFor(rec, Source) || CountsFor(rec, Destination)
    ensures InterNode(rec) ==> !(CountsFor(rec, Source) && CountsFor(rec, Destination))
  {
  }

  /** A record that is merged changes the sides that it counts for, with its own values, and no field of the other. */
  lemma MergesItsSides(r: Rules, f: Flow, rec: Record)
    requires Aligned(r.e) && Usable(r.e) && Incoming(r.e, rec) && Stored(r.e, f.record)
    ensures var a, b := f.record, Merge(r, f, rec).record;
            && (forall node :: CountsFor(rec, node) ==> SideMerged(r.e, rec, a, b, node, IsLater(rec, a)))
            && (forall node :: !CountsFor(rec, node) ==> SideKept(r.e, a, b, node))
  {
    hide NameOf, Find, Usable, Incoming, Stored, Merge, Merges, Fills, CountsFor, IsLater, Later, SideMerged, SideKept;
    MergeEffect(r, f, rec);
    FillsIsCountsFor(rec);
    LaterIsIsLater(rec, f.record);
    forall node | CountsFor(rec, node)
      ensures SideMerged(r.e, rec, f.record, Merge(r, f, rec).record, node, IsLater(rec, f.record))
    {
      MergesSide(r, rec, f.record, Merge(r, f, rec).record, node);
    }
    forall node | !CountsFor(rec, node)
      ensures SideKept(r.e, f.record, Merge(r, f, rec).record, node)
    {
      KeepsSide(r, f, rec, node);
    }
  }

  lemma MergesSide(r: Rules, rec: Record, a: Record, b: Record, node: Node)
    requires Aligned(r.e) && Merges(r, rec, a, b) && Fills(rec, node)
    ensures SideMerged(r.e, rec, a, b, node, Later(rec, a, Fills(rec, Source), Fills(rec, Destination)))
  {
    hide NameOf, Find, Stored, Fills, Later, Latest, IsDelta, NewCommon;
    Spelled();
    var fs, fd := Fills(rec, Source), Fills(rec, Destination);
    forall k | 0 <= k < |r.e.stats|
      ensures Get64(b, CounterKey(r.e, node, k)) ==
              if !Later(rec, a, fs, fd) then Get64(a, CounterKey(r.e, node, k))
              else if IsDelta(r.e.stats[k]) then
                (Get64(a, CounterKey(r.e, node, k)) + Get64(rec, r.e.stats[k])) % 0x1_0000_0000_0000_0000
              else Get64(rec, r.e.stats[k])
    {
      assert Later(rec, a, fs, fd) ==> StatChanged(r.e, rec, a, b, fs, fd, Latest(rec, a), k);
      assert !Later(rec, a, fs, fd) ==> SameStats(r.e, a, b, k);
    }
  }

  lemma KeepsSide(r: Rules, f: Flow, rec: Record, node: Node)
    requires Aligned(r.e) && Usable(r.e) && Incoming(r.e, rec) && Stored(r.e, f.record) && !Fills(rec, node)
    requires Merges(r, rec, f.record, Merge(r, f, rec).record)
    ensures SideKept(r.e, f.record, Merge(r, f, rec).record, node)
  {
    hide NameOf, Find, Usable, Incoming, Stored, Merge, Fills, Later, Latest, IsDelta, NewCommon;
    Spelled();
    var a, b, fs, fd := f.record, Merge(r, f, rec).record, Fills(rec, Source), Fills(rec, Destination);
    forall k | 0 <= k < |r.e.stats|
      ensures Get64(b, CounterKey(r.e, node, k)) == Get64(a, CounterKey(r.e, node, k))
    {
      assert Later(rec, a, fs, fd) ==> StatChanged(r.e, rec, a, b, fs, fd, Latest(rec, a), k);
      assert !Later(rec, a, fs, fd) ==> SameStats(r.e, a, b, k);
    }
    forall k | 0 <= k < |r.e.throughput|
      ensures Get64(b, RateKey(r.e, node, k)) == Get64(a, RateKey(r.e, node, k))
    {
      MergedRates(r, f, rec, k);
    }
  }

  /** The throughput that a later record stores on each side that it counts for: eight times the octets since the
      previous total, over the seconds since the previous end, both of the destination if it counts for that. */
  lemma MergedThroughput(r: Rules, f: Flow, rec: Record, node: Node, o: nat, reverse: bool)
    requires Aligned(r.e) && Usable(r.e) && Incoming(r.e, rec) && Stored(r.e, f.record)
    requires OctetsAt(r.e, o, reverse) && RateIndex(reverse) < |r.e.throughput|
    requires CountsFor(rec, node) && IsLater(rec, f.record)
    ensures var own := if CountsFor(rec, Destination) then Destination else Source;
            var gained := (Get64(rec, r.e.stats[o]) - Get64(f.record, CounterKey(r.e, own, o))) %
              0x1_0000_0000_0000_0000;
            Get64(Merge(r, f, rec).record, RateKey(r.e, node, if reverse then 1 else 0)) ==
            gained * 8 % 0x1_0000_0000_0000_0000 / (Get32(rec, "flowEndSeconds") - LastOn(rec, f.record, own))
  {
    hide NameOf, Find, Usable, Incoming, Stored, Merge, Fills, CountsFor, IsDelta;
    Spelled();
    FillsIsCountsFor(rec);
    LaterIsIsLater(rec, f.record);
    OneSide(rec);
    MergeRates(r, f, rec, node, o, reverse);
  }

  // ---------- pairing ----------

  /** The flow still waits for its other node, and the record may be from there: it is of an inter-node flow, and the
      two records do not name the same pod alone. */
  predicate PairsUp(f: Flow, rec: Record) {
    && InterNode(rec) && !f.ready
    && !(SourcePodOnly(rec) && SourcePodOnly(f.record)) && !(DestinationPodOnly(rec) && DestinationPodOnly(f.record))
  }

  /** A flow becomes ready, and its correlated fields count as filled, with the first record that pairs up; nothing
      takes that back, and no other flag changes. */
  lemma PairingMakesReady(r: Rules, f: Flow, rec: Record)
    requires Aligned(r.e)
    ensures var g := Merge(r, f, rec);
            && (g.ready <==> f.ready || PairsUp(f, rec)) && (g.correlated <==> f.correlated || PairsUp(f, rec))
            && g.retries == f.retries && g.isIPv4 == f.isIPv4
  {
    hide Find, Aggregate, Correlate, GetText, CorrelationRequired, InterNode;
    OpensReady(r, rec, f.isIPv4);
    FillsIsCountsFor(rec);
    FillsIsCountsFor(f.record);
  }

  /** A field that the aggregation does not write changes exactly if it is a correlate field, the record pairs up and
      has it set; then it has the record's value. */
  lemma PairingFillsFields(r: Rules, roles: Roles, f: Flow, rec: Record, m: string)
    requires Aligned(r.e) && Assigns(roles, r.e) && Incoming(r.e, rec) && Stored(r.e, f.record)
    requires Foreign(RoleOf(roles, m)) && Find(f.record, m).Some?
    ensures var after := Find(Merge(r, f, rec).record, m);
            && after.Some?
            && after.value.value ==
               if PairsUp(f, rec) && m in r.fields && Find(rec, m).Some? && IsSet(Find(rec, m).value) then
                 Find(rec, m).value.value
               else Find(f.record, m).value.value
  {
    hide NameOf, Find, Assigns, Incoming, Stored, Aggregate, Correlate, Fills, Foreign, RoleOf, EndsMoved, Later,
      StatChanged, ReasonMerged, StateMerged, IsSet, PairsUp, Correlating;
    PairingIsCorrelating(f, rec);
    BaseKeeps(r, f, rec);
    CorrelatedField(r.fields, rec, f.record, m);
    AggregateEffect(r.e, roles, rec, Base(r, f, rec), Fills(rec, Source), Fills(rec, Destination));
  }

  lemma PairingIsCorrelating(f: Flow, rec: Record)
    ensures PairsUp(f, rec) <==> Correlating(f, rec)
  {
    hide Find, GetText;
    FillsIsCountsFor(rec);
    FillsIsCountsFor(f.record);
  }

  // ---------- refused records ----------

  /** A record that is refused by a flow that it is not correlated with has moved the end times nevertheless. */
  lemma RefusedMoves(r: Rules, f: Flow, rec: Record)
    requires Aligned(r.e) && Usable(r.e) && Stored(r.e, f.record) && !Correlating(f, rec)
    requires TryMerge(r, f, rec).1 == Refused && Has32(rec, "flowEndSeconds")
    ensures var b, t := Apply(r, f, Spoilt(rec)).record, Get32(rec, "flowEndSeconds");
            && Has32(b, "flowEndSeconds") && Get32(b, "flowEndSeconds") == Max(Get32(f.record, "flowEndSeconds"), t)
            && forall node :: Has32(b, EndKey(node)) &&
                 Get32(b, EndKey(node)) == if CountsFor(rec, node) then t else Get32(f.record, EndKey(node))
  {
    hide NameOf, Find, Usable, Stored, TryAggregate, Fills, CountsFor, EndKey;
    Spelled();
    FillsIsCountsFor(rec);
    RefusedMovesEnds(r.e, rec, f.record, Fills(rec, Source), Fills(rec, Destination));
    var b := Apply(r, f, Spoilt(rec)).record;
    forall node
      ensures Has32(b, EndKey(node))
      ensures Get32(b, EndKey(node)) ==
              if CountsFor(rec, node) then Get32(rec, "flowEndSeconds") else Get32(f.record, EndKey(node))
    {
      assert EndName(node) == EndKey(node);
      match node
      case Source => assert NodeEndMoved(rec, f.record, b, Source, Fills(rec, Source));
      case Destination => assert NodeEndMoved(rec, f.record, b, Destination, Fills(rec, Destination));
    }
  }

  /** So what a node reports again for that time, complete or not, no longer counts: nothing but end times changes. */
  lemma SentAgain(r: Rules, f: Flow, rec: Record, again: Record)
    requires Aligned(r.e) && Usable(r.e) && Stored(r.e, f.record) && f.ready
    requires TryMerge(r, f, rec).1 == Refused && Has32(rec, "flowEndSeconds") && Get32(rec, "flowEndSeconds") > 0
    requires Get32(again, "flowEndSeconds") <= Get32(rec, "flowEndSeconds")
    requires forall node :: CountsFor(again, node) <==> CountsFor(rec, node)
    ensures var g := Apply(r, f, Spoilt(rec));
            forall m :: !IsEnd(m) ==> Find(Merge(r, g, again).record, m) == Find(g.record, m)
  {
    hide NameOf, Find, Put, Usable, Stored, TryAggregate, Fills, CountsFor, TouchEnds, EndKey, Apply;
    Spelled();
    FillsIsCountsFor(again);
    OneSide(again);
    RefusedMoves(r, f, rec);
    var g := Apply(r, f, Spoilt(rec));
    SpoiltIsReady(r, f, rec);
    assert forall node :: EndName(node) == EndKey(node);
    var roles := RolesOf(r.e);
    TouchEndsEffect(r.e, roles, again, g.record, Fills(again, Source), Fills(again, Destination));
  }

  lemma SpoiltIsReady(r: Rules, f: Flow, rec: Record)
    requires Aligned(r.e) && f.ready
    ensures Apply(r, f, Spoilt(rec)).ready
  {
    hide TryAggregate, TryCorrelate;
  }

  // ---------- conservation, by pods ----------

  /** The record is from `node`: it names that pod alone. */
  predicate PodIs(rec: Record, node: Node) {
    match node
    case Source => SourcePodOnly(rec)
    case Destination => DestinationPodOnly(rec)
  }

  /** The end time last received from a pod, zero if none was. */
  function LastFrom(h: seq<FlowEvent>, node: Node): u32 {
    if h == [] then 0
    else
      var ev := h[|h| - 1];
      if ev.Received? && PodIs(ev.rec, node) then Get32(ev.rec, "flowEndSeconds") else LastFrom(h[..|h| - 1], node)
  }

  /** Event `k` is a record from `node` that opened the flow, or ended later than the previous one from there, or than
      its own start if there was none. */
  predicate TakenFrom(h: seq<FlowEvent>, k: nat, node: Node)
    requires k < |h|
  {
    && h[k].Received? && PodIs(h[k].rec, node)
    && (k == 0 ||
        Get32(h[k].rec, "flowEndSeconds") >
        if LastFrom(h[..k], node) == 0 then Get32(h[k].rec, "flowStartSeconds") else LastFrom(h[..k], node))
  }

  /** The sum of the values of `name` in the records taken from `node`. */
  function SumFrom(h: seq<FlowEvent>, node: Node, name: string): nat {
    if h == [] then 0
    else
      var n := |h| - 1;
      SumFrom(h[..n], node, name) + if TakenFrom(h, n, node) then Get64(h[n].rec, name) else 0
  }

  /** Every record is of an inter-node flow and names one pod. */
  ghost predicate OnePodEach(h: seq<FlowEvent>) {
    forall k :: 0 <= k < |h| && h[k].Received? ==>
      InterNode(h[k].rec) && (SourcePodOnly(h[k].rec) || DestinationPodOnly(h[k].rec))
  }

  lemma {:induction false} SameLastEnd(h: seq<FlowEvent>, node: Node)
    requires OnePodEach(h)
    ensures LastEnd(h, node) == LastFrom(h, node)
  {
    hide NameOf, Find, Fills, InterNode;
    Spelled();
    if h != [] {
      SameLastEnd(h[..|h| - 1], node);
      if h[|h| - 1].Received? {
        FillsByPod(h[|h| - 1].rec);
      }
    }
  }

  lemma FillsByPod(rec: Record)
    requires InterNode(rec) && (SourcePodOnly(rec) || DestinationPodOnly(rec))
    ensures forall node :: Fills(rec, node) <==> PodIs(rec, node)
  {
    hide Find, Fills, InterNode;
    FillsIsCountsFor(rec);
    assert CountsFor(rec, Source) <==> SourcePodOnly(rec);
    assert CountsFor(rec, Destination) <==> !SourcePodOnly(rec);
  }

  lemma SameTaken(h: seq<FlowEvent>, n: nat, node: Node)
    requires OnePodEach(h) && n < |h|
    ensures TakenFrom(h, n, node) <==> h[n].Received? && Accepted(h, n) && Fills(h[n].rec, node)
  {
    hide NameOf, Find, Fills, InterNode, SourcePodOnly, DestinationPodOnly, LastEnd, LastFrom, PodIs;
    Spelled();
    SameLastEnd(h[..n], Source);
    SameLastEnd(h[..n], Destination);
    if h[n].Received? {
      FillsByPod(h[n].rec);
      NotBoth(h[n].rec);
    }
  }

  lemma NotBoth(rec: Record)
    ensures !(PodIs(rec, Source) && PodIs(rec, Destination))
  {
  }

  lemma {:induction false} SameReported(e: AggregationElements, h: seq<FlowEvent>, node: Node, k: nat)
    requires OnePodEach(h) && k < |e.stats|
    ensures Reported(e, h, node, k) == SumFrom(h, node, e.stats[k])
  {
    hide NameOf, Find, Fills, Accepted, TakenFrom, InterNode, SourcePodOnly, DestinationPodOnly;
    if h != [] {
      var n := |h| - 1;
      SameReported(e, h[..n], node, k);
      SameTaken(h, n, node);
      if !h[n].Received? {
        NotAccepted(h, n);
      }
    }
  }

  /** Conservation by pods: over every history of records that name one pod each, what resets handed over of a node's
      delta counter plus what it still holds is, modulo 2^64, the sum of the deltas in the records from that node's
      pod that were later than the one before. */
  lemma DeltasByPod(r: Rules, v4: bool, h: seq<FlowEvent>, node: Node, k: nat)
    requires Proper(r, h) && OnePodEach(h) && k < |r.e.stats| && IsDelta(r.e.stats[k])
    ensures (Handed(r, v4, h, node, k) + Get64(Replay(r, v4, h).record, CounterKey(r.e, node, k)))
            % 0x1_0000_0000_0000_0000 == SumFrom(h, node, r.e.stats[k]) % 0x1_0000_0000_0000_0000
  {
    hide NameOf, Find, Usable, Incoming, Replay, Handed, Reported, SumFrom, OnePodEach, IsDelta, Get64;
    DeltaConservation(r, v4, h, node, k);
    SameReported(r.e, h, node, k);
  }
}
