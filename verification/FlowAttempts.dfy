/**
  How far the record loops get on any record whatever. The code returns an error where an element is missing that it
  asks for, and panics where an element has a value of another kind or where it writes one that is not there; the
  record stays as the loop has left it by then. Where the code does neither it computes what `FlowContent` says.
 */
module FlowAttempts {
  import opened Bytes
  import opened Elements
  import opened FlowContent

  /** How a record loop ends: it runs through, it returns an error, or it panics. */
  datatype Status = Done | Refused | Panicked

  /** The record as a loop leaves it, and how the loop ends. */
  datatype Attempt = Attempt(rec: Record, status: Status)

  // ---------- reading ----------

  /** Reading a 32-bit value by name. */
  function Read32(rec: Record, name: string): Status {
    if Find(rec, name).None? then Refused else if Has32(rec, name) then Done else Panicked
  }

  function Read64(rec: Record, name: string): Status {
    if Find(rec, name).None? then Refused else if Has64(rec, name) then Done else Panicked
  }

  /** An element that is looked at only if it is there. */
  predicate ReadableByte(rec: Record, name: string) {
    Find(rec, name).Some? ==> Find(rec, name).value.value.U8?
  }

  predicate ReadableText(rec: Record, name: string) {
    Find(rec, name).Some? ==> Find(rec, name).value.value.Str?
  }

  /** Reading the flow type and the rule actions does not panic. */
  predicate ReadableType(rec: Record) {
    && ReadableByte(rec, FLOW_TYPE)
    && (Get8(rec, FLOW_TYPE) == INTER_NODE ==>
          && ReadableByte(rec, EGRESS_ACTION)
          && (Get8(rec, EGRESS_ACTION) != ACTION_DROP && Get8(rec, EGRESS_ACTION) != ACTION_REJECT ==>
                ReadableByte(rec, INGRESS_ACTION)))
  }

  /** Asking whether a record is from `node` does not panic; the other pod's name is read only if this one is set. */
  predicate ReadableNode(rec: Record, node: Node) {
    var other := if node.Source? then Destination else Source;
    && ReadableText(rec, PodName(node))
    && (GetText(rec, PodName(node)) != [] ==> ReadableText(rec, PodName(other)))
  }

  /** Asking whether two records are from the same node does not panic. */
  predicate ReadableNodes(a: Record, b: Record) {
    && ReadableNode(a, Source) && (FromNode(a, Source) ==> ReadableNode(b, Source))
    && ((FromNode(a, Source) && FromNode(b, Source)) ||
        (ReadableNode(a, Destination) && (FromNode(a, Destination) ==> ReadableNode(b, Destination))))
  }

  // ---------- first record of a flow ----------

  /** One more element, if the registry has it. */
  function TryAdd(e: AggregationElements, rec: Record, name: string, v: Value): Attempt {
    if e.describe(name).None? then Attempt(rec, Refused) else Attempt(Add(rec, Element(IeOf(e, name), v)), Done)
  }

  function TryAddCounter(e: AggregationElements, rec: Record, node: Node, fills: bool, i: nat): Attempt
    requires Aligned(e) && i < |e.stats|
  {
    var name := CounterNames(e, node)[i];
    if e.describe(name).Some? && fills && !Has64(rec, e.stats[i]) then Attempt(rec, Panicked)
    else TryAdd(e, rec, name, U64(if fills then Get64(rec, e.stats[i]) else 0))
  }

  function TryAddStats(e: AggregationElements, rec: Record, fs: bool, fd: bool, i: nat): Attempt
    requires Aligned(e) && i <= |e.stats|
    decreases |e.stats| - i
  {
    if i == |e.stats| then Attempt(rec, Done)
    else if Find(rec, e.stats[i]).None? then TryAddStats(e, rec, fs, fd, i + 1)
    else
      var a := TryAddCounter(e, rec, Source, fs, i);
      if a.status != Done then a
      else
        var b := TryAddCounter(e, a.rec, Destination, fd, i);
        if b.status != Done then b else TryAddStats(e, b.rec, fs, fd, i + 1)
  }

  function TryAddEnds(e: AggregationElements, rec: Record, t: u32, fs: bool, fd: bool, i: nat): Attempt
    requires i <= |e.endSeconds|
    decreases |e.endSeconds| - i
  {
    if i == |e.endSeconds| then Attempt(rec, Done)
    else
      var name := e.endSeconds[i];
      var v := if (fs && Contains(name, "Source")) || (fd && Contains(name, "Destination")) then t else 0;
      var a := TryAdd(e, rec, name, U32(v));
      if a.status != Done then a else TryAddEnds(e, a.rec, t, fs, fd, i + 1)
  }

  function TryAddRate(e: AggregationElements, rec: Record, v: u64, fs: bool, fd: bool, i: nat): Attempt
    requires Aligned(e) && i < |e.throughput|
  {
    var a := TryAdd(e, rec, e.throughput[i], U64(v));
    if a.status != Done then a
    else
      var b := TryAdd(e, a.rec, e.sourceThroughput[i], U64(if fs then v else 0));
      if b.status != Done then b else TryAdd(e, b.rec, e.destinationThroughput[i], U64(if fd then v else 0))
  }

  function TryAddThroughput(e: AggregationElements, rec: Record, vals: seq<u64>, fs: bool, fd: bool, i: nat): Attempt
    requires Aligned(e) && |vals| == 2 && i <= |e.throughput|
    decreases |e.throughput| - i
  {
    if i == |e.throughput| then Attempt(rec, Done)
    else
      var a := TryAddRate(e, rec, vals[i], fs, fd, i);
      if a.status != Done then a else TryAddThroughput(e, a.rec, vals, fs, fd, i + 1)
  }

  /** The four values that the first throughput is computed from, in the order in which they are asked for. */
  function ReadInputs(rec: Record): Status {
    if Read32(rec, FLOW_START) != Done then Read32(rec, FLOW_START)
    else if Read32(rec, FLOW_END) != Done then Read32(rec, FLOW_END)
    else if Read64(rec, OCTETS) != Done then Read64(rec, OCTETS)
    else Read64(rec, REVERSE_OCTETS)
  }

  function TryAddFields(e: AggregationElements, rec: Record, fs: bool, fd: bool): Attempt
    requires Aligned(e)
  {
    if ReadInputs(rec) != Done then Attempt(rec, ReadInputs(rec))
    else
      var a := TryAddEnds(e, rec, Get32(rec, FLOW_END), fs, fd, 0);
      if a.status != Done then a else TryAddThroughput(e, a.rec, FirstRates(rec), fs, fd, 0)
  }

  /** Opening a flow with a record. */
  function TryOpened(e: AggregationElements, rec: Record): Attempt
    requires Aligned(e)
  {
    if !ReadableType(rec) || (CorrelationRequired(rec) && !ReadableNode(rec, Source)) then Attempt(rec, Panicked)
    else
      var fs, fd := Fills(rec, Source), Fills(rec, Destination);
      var a := TryAddStats(e, rec, fs, fd, 0);
      if a.status != Done then a else TryAddFields(e, a.rec, fs, fd)
  }

  // ---------- correlation ----------

  /** The types of fields that correlation looks at. */
  predicate CopiedType(t: DataType) {
    t == String || t == Unsigned8 || t == Unsigned16 || t == Signed32 || t == Ipv4Address || t == Ipv6Address
  }

  /** Both values are of one kind, so that one can be set where the other is. */
  predicate SameKind(a: Value, b: Value) {
    (a.Str? && b.Str?) || (a.U8? && b.U8?) || (a.U16? && b.U16?) || (a.S32? && b.S32?) || (a.IP? && b.IP?)
  }

  function TryCorrelate(fields: seq<string>, inc: Record, ex: Record, i: nat): Attempt
    requires i <= |fields|
    decreases |fields| - i
  {
    if i == |fields| then Attempt(ex, Done)
    else
      match Find(inc, fields[i])
      case None => TryCorrelate(fields, inc, ex, i + 1)
      case Some(el) =>
        if CopiedType(el.ie.dataType) && !HasType(el.value, el.ie.dataType) then Attempt(ex, Panicked)
        else if !Correlates(el) then TryCorrelate(fields, inc, ex, i + 1)
        else if Find(ex, fields[i]).None? || !SameKind(Find(ex, fields[i]).value.value, el.value) then
          Attempt(ex, Panicked)
        else TryCorrelate(fields, inc, Put(ex, fields[i], el.value), i + 1)
  }

  // ---------- merging a later record ----------

  /** A node's end time: the stored one must be there, and the incoming start time if the stored one is zero. */
  function TryNodeEnd(inc: Record, ex: Record, node: Node): Attempt {
    if !Has32(ex, EndName(node)) || (Get32(ex, EndName(node)) == 0 && !Has32(inc, FLOW_START)) then
      Attempt(ex, Panicked)
    else Attempt(TouchNodeEnd(inc, ex, node).0, Done)
  }

  /** The end times, if both records have one, and the time the record must be later than. */
  function TryTouchEnds(inc: Record, ex: Record, fs: bool, fd: bool): Attempt {
    if !Has32(inc, FLOW_END) || !Has32(ex, FLOW_END) then Attempt(ex, Panicked)
    else
      var t := Get32(inc, FLOW_END);
      var r := if t >= Get32(ex, FLOW_END) then Put(ex, FLOW_END, U32(t)) else ex;
      var a := if fs then TryNodeEnd(inc, r, Source) else Attempt(r, Done);
      if a.status != Done || !fd then a else TryNodeEnd(inc, a.rec, Destination)
  }

  function TryNonStat(inc: Record, ex: Record, latest: bool, name: string): Attempt {
    if Find(inc, name).None? then Attempt(ex, Refused)
    else if name == FLOW_END_REASON then
      if !Find(inc, name).value.value.U8? || Find(ex, name).None? || !Find(ex, name).value.value.U8? then
        Attempt(ex, Panicked)
      else Attempt(if Get8(ex, name) != END_OF_FLOW then Put(ex, name, U8(Get8(inc, name))) else ex, Done)
    else if name == TCP_STATE && latest then
      if !Find(inc, name).value.value.Str? || Find(ex, name).None? || !Find(ex, name).value.value.Str? then
        Attempt(ex, Panicked)
      else Attempt(Put(ex, name, Str(GetText(inc, name))), Done)
    else Attempt(ex, Done)
  }

  function TryNonStats(e: AggregationElements, inc: Record, ex: Record, latest: bool, i: nat): Attempt
    requires i <= |e.nonStats|
    decreases |e.nonStats| - i
  {
    if i == |e.nonStats| then Attempt(ex, Done)
    else
      var a := TryNonStat(inc, ex, latest, e.nonStats[i]);
      if a.status != Done then a else TryNonStats(e, inc, a.rec, latest, i + 1)
  }

  /** The counters as a loop leaves them. */
  datatype CountAttempt = CountAttempt(tally: Tally, status: Status)

  function TryCountNode(e: AggregationElements, v: u64, t: Tally, node: Node, fills: bool, i: nat): CountAttempt
    requires Aligned(e) && i < |e.stats|
  {
    if !fills then CountAttempt(t, Done)
    else if Read64(t.rec, CounterNames(e, node)[i]) != Done then
      CountAttempt(t, Read64(t.rec, CounterNames(e, node)[i]))
    else CountAttempt(CountNode(e, v, t, node, i), Done)
  }

  function TryCountStep(e: AggregationElements, inc: Record, t: Tally, fs: bool, fd: bool, latest: bool, i: nat):
      CountAttempt
    requires Aligned(e) && i < |e.stats|
  {
    if Read64(inc, e.stats[i]) != Done then CountAttempt(t, Read64(inc, e.stats[i]))
    else
      var v := Get64(inc, e.stats[i]);
      var a := TryCountNode(e, v, t, Source, fs, i);
      if a.status != Done then a
      else
        var b := TryCountNode(e, v, a.tally, Destination, fd, i);
        if b.status != Done then b
        else if latest && !Has64(b.tally.rec, e.stats[i]) then CountAttempt(b.tally, Panicked)
        else CountAttempt(b.tally.(rec := CountCommon(e, v, b.tally.rec, fs, fd, latest, i)), Done)
  }

  function TryCountStats(e: AggregationElements, inc: Record, t: Tally, fs: bool, fd: bool, latest: bool, i: nat):
      CountAttempt
    requires Aligned(e) && i <= |e.stats|
    decreases |e.stats| - i
  {
    if i == |e.stats| then CountAttempt(t, Done)
    else
      var a := TryCountStep(e, inc, t, fs, fd, latest, i);
      if a.status != Done then a else TryCountStats(e, inc, a.tally, fs, fd, latest, i + 1)
  }

  /** Sets a 64-bit value; it panics if there is none to set. */
  function TryPut64(rec: Record, name: string, v: u64, wanted: bool): Attempt {
    if !wanted then Attempt(rec, Done)
    else if !Has64(rec, name) then Attempt(rec, Panicked)
    else Attempt(Put(rec, name, U64(v)), Done)
  }

  function TrySetRate(e: AggregationElements, rec: Record, v: u64, fs: bool, fd: bool, latest: bool, i: nat): Attempt
    requires Aligned(e) && i < |e.throughput|
  {
    var a := TryPut64(rec, e.sourceThroughput[i], v, fs);
    if a.status != Done then a
    else
      var b := TryPut64(a.rec, e.destinationThroughput[i], v, fd);
      if b.status != Done then b else TryPut64(b.rec, e.throughput[i], v, latest)
  }

  function TrySetThroughput(e: AggregationElements, rec: Record, vals: seq<u64>, fs: bool, fd: bool, latest: bool,
      i: nat): Attempt
    requires Aligned(e) && |vals| == 2 && i <= |e.throughput|
    decreases |e.throughput| - i
  {
    if i == |e.throughput| then Attempt(rec, Done)
    else
      var a := TrySetRate(e, rec, vals[i], fs, fd, latest, i);
      if a.status != Done then a else TrySetThroughput(e, a.rec, vals, fs, fd, latest, i + 1)
  }

  /** The three loops after the end times. With no seconds to divide by the division panics. */
  function TryMergeRest(e: AggregationElements, inc: Record, ex: Record, fs: bool, fd: bool, latest: bool,
      seconds: u32): Attempt
    requires Aligned(e)
  {
    var a := TryNonStats(e, inc, ex, latest, 0);
    if a.status != Done then a
    else
      var c := TryCountStats(e, inc, Tally(a.rec, 0, 0), fs, fd, latest, 0);
      if c.status != Done then Attempt(c.tally.rec, c.status)
      else if seconds == 0 then Attempt(c.tally.rec, Panicked)
      else
        TrySetThroughput(e, c.tally.rec, [Rate(c.tally.total, seconds), Rate(c.tally.reverse, seconds)], fs, fd,
          latest, 0)
  }

  /** `aggregateRecords`. A record without an end time skips what the end times decide. */
  function TryAggregate(e: AggregationElements, inc: Record, ex: Record, fs: bool, fd: bool): Attempt
    requires Aligned(e)
  {
    if Find(inc, FLOW_END).None? || Find(ex, FLOW_END).None? then TryMergeRest(e, inc, ex, fs, fd, false, 0)
    else
      var a := TryTouchEnds(inc, ex, fs, fd);
      var t, prev := Get32(inc, FLOW_END), TouchEnds(inc, ex, fs, fd).1;
      if a.status != Done || t <= prev then a
      else TryMergeRest(e, inc, a.rec, fs, fd, t >= Get32(ex, FLOW_END), t - prev)
  }

  // ---------- reset ----------

  /** Resets an element that must be there. */
  function TryWipe(rec: Record, name: string): Attempt {
    if Find(rec, name).None? then Attempt(rec, Refused) else Attempt(Wipe(rec, name), Done)
  }

  function TryWipeAll(rec: Record, a: string, b: string, c: string): Attempt {
    var x := TryWipe(rec, a);
    if x.status != Done then x
    else
      var y := TryWipe(x.rec, b);
      if y.status != Done then y else TryWipe(y.rec, c)
  }

  function TryResetStats(e: AggregationElements, rec: Record, i: nat): Attempt
    requires Aligned(e) && i <= |e.stats|
    decreases |e.stats| - i
  {
    if i == |e.stats| then Attempt(rec, Done)
    else if !IsDelta(e.stats[i]) then TryResetStats(e, rec, i + 1)
    else
      var a := TryWipeAll(rec, e.stats[i], e.sourceStats[i], e.destinationStats[i]);
      if a.status != Done then a else TryResetStats(e, a.rec, i + 1)
  }

  function TryResetThroughput(e: AggregationElements, rec: Record, i: nat): Attempt
    requires Aligned(e) && i <= |e.throughput|
    decreases |e.throughput| - i
  {
    if i == |e.throughput| then Attempt(rec, Done)
    else
      var a := TryWipeAll(rec, e.throughput[i], e.sourceThroughput[i], e.destinationThroughput[i]);
      if a.status != Done then a else TryResetThroughput(e, a.rec, i + 1)
  }

  function TryReset(e: AggregationElements, rec: Record): (a: Attempt)
    requires Aligned(e)
  {
    var a := TryResetStats(e, rec, 0);
    if a.status != Done then a else TryResetThroughput(e, a.rec, 0)
  }

  // ---------- what runs through computes what FlowContent says ----------

  lemma CounterAdded(e: AggregationElements, rec: Record, fs: bool, fd: bool, i: nat)
    requires Aligned(e) && i < |e.stats| && Find(rec, e.stats[i]).Some?
    ensures var a := TryAddCounter(e, rec, Source, fs, i);
            var b := TryAddCounter(e, a.rec, Destination, fd, i);
            a.status == Done == b.status ==> b.rec == AddCounters(e, rec, fs, fd, i)
  {
    hide Find, Add;
  }

  lemma {:induction false} DoneAddsStats(e: AggregationElements, rec: Record, fs: bool, fd: bool, i: nat)
    requires Aligned(e) && i <= |e.stats|
    ensures var a := TryAddStats(e, rec, fs, fd, i); a.status == Done ==> a.rec == AddStats(e, rec, fs, fd, i)
    decreases |e.stats| - i
  {
    hide Find, TryAddCounter, AddCounters;
    if i < |e.stats| {
      if Find(rec, e.stats[i]).None? {
        DoneAddsStats(e, rec, fs, fd, i + 1);
      } else {
        CounterAdded(e, rec, fs, fd, i);
        var a := TryAddCounter(e, rec, Source, fs, i);
        var b := TryAddCounter(e, a.rec, Destination, fd, i);
        DoneAddsStats(e, b.rec, fs, fd, i + 1);
      }
    }
  }

  lemma {:induction false} DoneAddsEnds(e: AggregationElements, rec: Record, t: u32, fs: bool, fd: bool, i: nat)
    requires i <= |e.endSeconds|
    ensures var a := TryAddEnds(e, rec, t, fs, fd, i); a.status == Done ==> a.rec == AddEnds(e, rec, t, fs, fd, i)
    decreases |e.endSeconds| - i
  {
    hide Find, Add, Contains;
    if i < |e.endSeconds| {
      var name := e.endSeconds[i];
      var v := if (fs && Contains(name, "Source")) || (fd && Contains(name, "Destination")) then t else 0;
      DoneAddsEnds(e, TryAdd(e, rec, name, U32(v)).rec, t, fs, fd, i + 1);
    }
  }

  lemma {:induction false} DoneAddsThroughput(e: AggregationElements, rec: Record, vals: seq<u64>, fs: bool, fd: bool,
      i: nat)
    requires Aligned(e) && |vals| == 2 && i <= |e.throughput|
    ensures var a := TryAddThroughput(e, rec, vals, fs, fd, i);
            a.status == Done ==> a.rec == AddThroughput(e, rec, vals, fs, fd, i)
    decreases |e.throughput| - i
  {
    hide Find, Add;
    if i < |e.throughput| {
      DoneAddsThroughput(e, TryAddRate(e, rec, vals[i], fs, fd, i).rec, vals, fs, fd, i + 1);
    }
  }

  /** A record that opens a flow without error opens it as `Opened` says. */
  lemma DoneOpens(e: AggregationElements, rec: Record)
    requires Aligned(e)
    ensures TryOpened(e, rec).status == Done ==> TryOpened(e, rec).rec == Opened(e, rec)
  {
    hide Find, NameOf, TryAddStats, AddStats, TryAddEnds, AddEnds, TryAddThroughput, AddThroughput, FirstRates, Fills,
      ReadableType, ReadInputs;
    var fs, fd := Fills(rec, Source), Fills(rec, Destination);
    DoneAddsStats(e, rec, fs, fd, 0);
    var a := TryAddStats(e, rec, fs, fd, 0).rec;
    DoneAddsEnds(e, a, Get32(a, FLOW_END), fs, fd, 0);
    DoneAddsThroughput(e, TryAddEnds(e, a, Get32(a, FLOW_END), fs, fd, 0).rec, FirstRates(a), fs, fd, 0);
  }

  lemma {:induction false} DoneCorrelates(fields: seq<string>, inc: Record, ex: Record, i: nat)
    requires i <= |fields|
    ensures var a := TryCorrelate(fields, inc, ex, i);
            a.status != Refused && (a.status == Done ==> a.rec == Correlate(fields, inc, ex, i))
    decreases |fields| - i
  {
    hide Find, Put, Correlates, CopiedType, HasType;
    if i < |fields| {
      var el := Find(inc, fields[i]);
      if el.Some? && Correlates(el.value) {
        DoneCorrelates(fields, inc, Put(ex, fields[i], el.value.value), i + 1);
      } else {
        DoneCorrelates(fields, inc, ex, i + 1);
      }
    }
  }

  lemma DoneTouchesEnds(inc: Record, ex: Record, fs: bool, fd: bool)
    ensures var a := TryTouchEnds(inc, ex, fs, fd);
            a.status != Refused && (a.status == Done ==> a.rec == TouchEnds(inc, ex, fs, fd).0)
  {
    hide Find, Put, NameOf;
  }

  lemma {:induction false} DoneMergesNonStats(e: AggregationElements, inc: Record, ex: Record, latest: bool, i: nat)
    requires i <= |e.nonStats|
    ensures var a := TryNonStats(e, inc, ex, latest, i);
            a.status == Done ==> a.rec == MergeNonStats(e, inc, ex, latest, i)
    decreases |e.nonStats| - i
  {
    hide Find, Put, NameOf;
    if i < |e.nonStats| {
      DoneMergesNonStats(e, inc, TryNonStat(inc, ex, latest, e.nonStats[i]).rec, latest, i + 1);
    }
  }

  lemma {:induction false} DoneCounts(e: AggregationElements, inc: Record, t: Tally, fs: bool, fd: bool, latest: bool,
      i: nat)
    requires Aligned(e) && i <= |e.stats|
    ensures var a := TryCountStats(e, inc, t, fs, fd, latest, i);
            a.status == Done ==> a.tally == CountStats(e, inc, t, fs, fd, latest, i)
    decreases |e.stats| - i
  {
    hide Find, Put, CountNode, CountCommon, Get64, Read64;
    if i < |e.stats| {
      DoneCounts(e, inc, TryCountStep(e, inc, t, fs, fd, latest, i).tally, fs, fd, latest, i + 1);
    }
  }

  lemma {:induction false} DoneSetsThroughput(e: AggregationElements, rec: Record, vals: seq<u64>, fs: bool, fd: bool,
      latest: bool, i: nat)
    requires Aligned(e) && |vals| == 2 && i <= |e.throughput|
    ensures var a := TrySetThroughput(e, rec, vals, fs, fd, latest, i);
            a.status != Refused && (a.status == Done ==> a.rec == SetThroughput(e, rec, vals, fs, fd, latest, i))
    decreases |e.throughput| - i
  {
    hide Find, Put;
    if i < |e.throughput| {
      DoneSetsThroughput(e, TrySetRate(e, rec, vals[i], fs, fd, latest, i).rec, vals, fs, fd, latest, i + 1);
    }
  }

  /** A merge that runs through gives what `Aggregate` says. */
  lemma DoneAggregates(e: AggregationElements, inc: Record, ex: Record, fs: bool, fd: bool)
    requires Aligned(e)
    ensures var a := TryAggregate(e, inc, ex, fs, fd); a.status == Done ==> a.rec == Aggregate(e, inc, ex, fs, fd)
  {
    hide Find, Put, NameOf, TryTouchEnds, TouchEnds, TryNonStats, MergeNonStats, TryCountStats, CountStats,
      TrySetThroughput, SetThroughput, Rate;
    DoneTouchesEnds(inc, ex, fs, fd);
    var (r, prev) := TouchEnds(inc, ex, fs, fd);
    var t, latest := Get32(inc, FLOW_END), Get32(inc, FLOW_END) >= Get32(ex, FLOW_END);
    if t > prev {
      DoneMergesNonStats(e, inc, r, latest, 0);
      var c := TryCountStats(e, inc, Tally(TryNonStats(e, inc, r, latest, 0).rec, 0, 0), fs, fd, latest, 0).tally;
      DoneCounts(e, inc, Tally(TryNonStats(e, inc, r, latest, 0).rec, 0, 0), fs, fd, latest, 0);
      DoneSetsThroughput(e, c.rec, [Rate(c.total, t - prev), Rate(c.reverse, t - prev)], fs, fd, latest, 0);
    }
  }

  lemma {:induction false} DoneResetsStats(e: AggregationElements, rec: Record, i: nat)
    requires Aligned(e) && i <= |e.stats|
    ensures var a := TryResetStats(e, rec, i);
            a.status != Panicked && (a.status == Done ==> a.rec == ResetStats(e, rec, i))
    decreases |e.stats| - i
  {
    hide Find, Wipe, IsDelta;
    if i < |e.stats| {
      if IsDelta(e.stats[i]) {
        DoneResetsStats(e, TryWipeAll(rec, e.stats[i], e.sourceStats[i], e.destinationStats[i]).rec, i + 1);
      } else {
        DoneResetsStats(e, rec, i + 1);
      }
    }
  }

  lemma {:induction false} DoneResetsThroughput(e: AggregationElements, rec: Record, i: nat)
    requires Aligned(e) && i <= |e.throughput|
    ensures var a := TryResetThroughput(e, rec, i);
            a.status != Panicked && (a.status == Done ==> a.rec == ResetThroughput(e, rec, i))
    decreases |e.throughput| - i
  {
    hide Find, Wipe;
    if i < |e.throughput| {
      DoneResetsThroughput(e,
        TryWipeAll(rec, e.throughput[i], e.sourceThroughput[i], e.destinationThroughput[i]).rec, i + 1);
    }
  }

  /** A reset never panics, and one that runs through gives what `Reset` says. */
  lemma DoneResets(e: AggregationElements, rec: Record)
    requires Aligned(e)
    ensures TryReset(e, rec).status != Panicked
    ensures TryReset(e, rec).status == Done ==> TryReset(e, rec).rec == Reset(e, rec)
  {
    hide TryResetStats, TryResetThroughput, ResetStats, ResetThroughput;
    DoneResetsStats(e, rec, 0);
    DoneResetsThroughput(e, TryResetStats(e, rec, 0).rec, 0);
  }
}
