/** The loops that open, merge, correlate and reset a record in place, each proved to leave the record and to end as it
    is specified, on every record. */
module RecordMerger {
  import opened Bytes
  import opened Elements
  import opened FlowContent
  import opened FlowAttempts
  import opened ExpiryQueue

  /** The part of the aggregation process that is fixed at its creation. */
  class Merger {
    const e: AggregationElements
    const fields: seq<string>

    constructor (e: AggregationElements, fields: seq<string>)
      ensures this.e == e && this.fields == fields
    {
      this.e, this.fields := e, fields;
    }

    static method SetValue(rec: FlowRecord, name: string, v: Value)
      modifies rec
      ensures rec.elements == Put(old(rec.elements), name, v)
    {
      hide Find, Put;
      var i, exist := rec.GetInfoElementWithValue(name);
      if exist {
        rec.elements := rec.elements[i := rec.elements[i].(value := v)];
      } else {
        PutMissing(rec.elements, name, v);
      }
    }

    static lemma {:induction false} PutMissing(rec: Record, name: string, v: Value)
      requires Find(rec, name).None?
      ensures Put(rec, name, v) == rec
    {
      if rec != [] {
        PutMissing(rec[1..], name, v);
      }
    }

    static method AddInfoElement(rec: FlowRecord, el: Element)
      modifies rec
      ensures rec.elements == Add(old(rec.elements), el)
    {
      rec.elements := rec.elements + [el];
    }

    /** One more element, if the registry has it. */
    method AddNamed(record: FlowRecord, name: string, v: Value) returns (status: Status)
      modifies record
      ensures Attempt(record.elements, status) == TryAdd(e, old(record.elements), name, v)
    {
      hide Find, Add;
      if e.describe(name).None? {
        return Refused;
      }
      AddInfoElement(record, Element(e.describe(name).value, v));
      status := Done;
    }

    // ---------- opening ----------

    /** One node's counter of statistic `i`, which the record has. */
    method AddCounter(record: FlowRecord, node: Node, fills: bool, i: nat) returns (status: Status)
      requires Aligned(e) && i < |e.stats| && Find(record.elements, e.stats[i]).Some?
      modifies record
      ensures Attempt(record.elements, status) == TryAddCounter(e, old(record.elements), node, fills, i)
    {
      hide Find, Add;
      var name := CounterNames(e, node)[i];
      if e.describe(name).None? {
        return Refused;
      }
      var value: u64 := 0;
      if fills {
        var at, exist := record.GetInfoElementWithValue(e.stats[i]);
        if !record.elements[at].value.U64? {
          return Panicked;
        }
        value := record.elements[at].value.n64;
      }
      status := AddNamed(record, name, U64(value));
    }

    method AddFieldsForStatsAggregation(record: FlowRecord, fs: bool, fd: bool) returns (status: Status)
      requires Aligned(e)
      modifies record
      ensures Attempt(record.elements, status) == TryAddStats(e, old(record.elements), fs, fd, 0)
    {
      hide Find, TryAddCounter;
      status := Done;
      for i := 0 to |e.stats|
        invariant status == Done
        invariant TryAddStats(e, record.elements, fs, fd, i) == TryAddStats(e, old(record.elements), fs, fd, 0)
      {
        var at, exist := record.GetInfoElementWithValue(e.stats[i]);
        if exist {
          StillThere(e, record.elements, Source, fs, i);
          status := AddCounter(record, Source, fs, i);
          if status != Done {
            return;
          }
          status := AddCounter(record, Destination, fd, i);
          if status != Done {
            return;
          }
        }
      }
    }

    static lemma StillThere(e: AggregationElements, rec: Record, node: Node, fills: bool, i: nat)
      requires Aligned(e) && i < |e.stats| && Find(rec, e.stats[i]).Some?
      ensures Find(TryAddCounter(e, rec, node, fills, i).rec, e.stats[i]).Some?
    {
      hide Find, Add;
    }

    method Read32(record: FlowRecord, name: string) returns (v: u32, status: Status)
      ensures status == FlowAttempts.Read32(record.elements, name) && v == Get32(record.elements, name)
    {
      hide Find;
      var at, exist := record.GetInfoElementWithValue(name);
      if !exist {
        return 0, Refused;
      }
      if !record.elements[at].value.U32? {
        return 0, Panicked;
      }
      v, status := record.elements[at].value.n32, Done;
    }

    method Read64(record: FlowRecord, name: string) returns (v: u64, status: Status)
      ensures status == FlowAttempts.Read64(record.elements, name) && v == Get64(record.elements, name)
    {
      hide Find;
      var at, exist := record.GetInfoElementWithValue(name);
      if !exist {
        return 0, Refused;
      }
      if !record.elements[at].value.U64? {
        return 0, Panicked;
      }
      v, status := record.elements[at].value.n64, Done;
    }

    /** The values that the first throughput is computed from. */
    method ReadRates(record: FlowRecord) returns (timeEnd: u32, vals: seq<u64>, status: Status)
      ensures status == ReadInputs(record.elements)
      ensures status == Done ==> timeEnd == Get32(record.elements, FLOW_END) && vals == FirstRates(record.elements)
    {
      hide Find, NameOf, Rate, Get32, Get64;
      timeEnd, vals := 0, [0, 0];
      var timeStart: u32;
      timeStart, status := Read32(record, FLOW_START);
      if status != Done {
        return;
      }
      timeEnd, status := Read32(record, FLOW_END);
      if status != Done {
        return;
      }
      var octets: u64, reverseOctets: u64;
      octets, status := Read64(record, OCTETS);
      if status != Done {
        return;
      }
      reverseOctets, status := Read64(record, REVERSE_OCTETS);
      if status != Done {
        return;
      }
      if timeEnd > timeStart {
        vals := [Rate(octets, timeEnd - timeStart), Rate(reverseOctets, timeEnd - timeStart)];
      }
    }

    method AddEnds(record: FlowRecord, timeEnd: u32, fs: bool, fd: bool) returns (status: Status)
      modifies record
      ensures Attempt(record.elements, status) == TryAddEnds(e, old(record.elements), timeEnd, fs, fd, 0)
    {
      hide Find, TryAdd, Contains;
      status := Done;
      for i := 0 to |e.endSeconds|
        invariant status == Done
        invariant TryAddEnds(e, record.elements, timeEnd, fs, fd, i) ==
                  TryAddEnds(e, old(record.elements), timeEnd, fs, fd, 0)
      {
        var name := e.endSeconds[i];
        var v: u32 := if (fs && Contains(name, "Source")) || (fd && Contains(name, "Destination")) then timeEnd else 0;
        status := AddNamed(record, name, U32(v));
        if status != Done {
          return;
        }
      }
    }

    method AddRate(record: FlowRecord, v: u64, fs: bool, fd: bool, i: nat) returns (status: Status)
      requires Aligned(e) && i < |e.throughput|
      modifies record
      ensures Attempt(record.elements, status) == TryAddRate(e, old(record.elements), v, fs, fd, i)
    {
      hide TryAdd;
      status := AddNamed(record, e.throughput[i], U64(v));
      if status != Done {
        return;
      }
      status := AddNamed(record, e.sourceThroughput[i], U64(if fs then v else 0));
      if status != Done {
        return;
      }
      status := AddNamed(record, e.destinationThroughput[i], U64(if fd then v else 0));
    }

    method AddFieldsForThroughputCalculation(record: FlowRecord, fs: bool, fd: bool) returns (status: Status)
      requires Aligned(e)
      modifies record
      ensures Attempt(record.elements, status) == TryAddFields(e, old(record.elements), fs, fd)
    {
      hide Find, NameOf, ReadInputs, FirstRates, TryAddEnds, TryAddRate;
      var timeEnd, vals;
      timeEnd, vals, status := ReadRates(record);
      if status != Done {
        return;
      }
      status := AddEnds(record, timeEnd, fs, fd);
      if status != Done {
        return;
      }
      ghost var ended := record.elements;
      for i := 0 to |e.throughput|
        invariant status == Done
        invariant TryAddThroughput(e, record.elements, vals, fs, fd, i) == TryAddThroughput(e, ended, vals, fs, fd, 0)
      {
        status := AddRate(record, vals[i], fs, fd, i);
        if status != Done {
          return;
        }
      }
    }

    // ---------- correlation ----------

    method CorrelateRecords(incoming: FlowRecord, existing: FlowRecord) returns (status: Status)
      requires incoming != existing
      modifies existing
      ensures Attempt(existing.elements, status) ==
              TryCorrelate(fields, incoming.elements, old(existing.elements), 0)
    {
      hide Find, Put, Correlates, CopiedType, HasType, SameKind;
      status := Done;
      for i := 0 to |fields|
        invariant status == Done
        invariant TryCorrelate(fields, incoming.elements, existing.elements, i) ==
                  TryCorrelate(fields, incoming.elements, old(existing.elements), 0)
      {
        var at, exist := incoming.GetInfoElementWithValue(fields[i]);
        if exist {
          var el := incoming.elements[at];
          if CopiedType(el.ie.dataType) && !HasType(el.value, el.ie.dataType) {
            return Panicked;
          }
          if Correlates(el) {
            var there, found := existing.GetInfoElementWithValue(fields[i]);
            if !found || !SameKind(existing.elements[there].value, el.value) {
              return Panicked;
            }
            SetValue(existing, fields[i], el.value);
          }
        }
      }
    }

    // ---------- merging ----------

    /** The node's stored end time becomes the incoming one; the previous one is returned. */
    method UpdateFlowEndSecondsFromNodes(incoming: FlowRecord, existing: FlowRecord, node: Node)
        returns (previous: u32, status: Status)
      requires incoming != existing
      modifies existing
      ensures Attempt(existing.elements, status) == TryNodeEnd(incoming.elements, old(existing.elements), node)
      ensures status == Done ==> previous == TouchNodeEnd(incoming.elements, old(existing.elements), node).1
    {
      hide Find, Put, NameOf;
      var read: Status;
      previous, read := Read32(existing, EndName(node));
      if read != Done {
        return 0, Panicked;
      }
      if previous == 0 {
        previous, read := Read32(incoming, FLOW_START);
        if read != Done {
          return 0, Panicked;
        }
      }
      SetValue(existing, EndName(node), U32(Get32(incoming.elements, FLOW_END)));
      status := Done;
    }

    /** What the incoming record says of one element that is no statistic. */
    method MergeNonStat(incoming: FlowRecord, existing: FlowRecord, latest: bool, name: string)
        returns (status: Status)
      requires incoming != existing
      modifies existing
      ensures Attempt(existing.elements, status) ==
              TryNonStat(incoming.elements, old(existing.elements), latest, name)
    {
      hide Find, Put, NameOf;
      var at, exist := incoming.GetInfoElementWithValue(name);
      if !exist {
        return Refused;
      }
      var there, found := existing.GetInfoElementWithValue(name);
      var value := incoming.elements[at].value;
      if name == FLOW_END_REASON {
        if !value.U8? || !found || !existing.elements[there].value.U8? {
          return Panicked;
        }
        if existing.elements[there].value.n8 != END_OF_FLOW {
          SetValue(existing, name, value);
        }
      } else if name == TCP_STATE && latest {
        if !value.Str? || !found || !existing.elements[there].value.Str? {
          return Panicked;
        }
        SetValue(existing, name, value);
      }
      status := Done;
    }

    method MergeNonStatsElements(incoming: FlowRecord, existing: FlowRecord, latest: bool) returns (status: Status)
      requires incoming != existing
      modifies existing
      ensures Attempt(existing.elements, status) ==
              TryNonStats(e, incoming.elements, old(existing.elements), latest, 0)
    {
      hide Find, TryNonStat;
      status := Done;
      for i := 0 to |e.nonStats|
        invariant status == Done
        invariant TryNonStats(e, incoming.elements, existing.elements, latest, i) ==
                  TryNonStats(e, incoming.elements, old(existing.elements), latest, 0)
      {
        status := MergeNonStat(incoming, existing, latest, e.nonStats[i]);
        if status != Done {
          return;
        }
      }
    }

    /** One node's counter of statistic `i`; the octet differences are passed through. */
    method CountForNode(v: u64, existing: FlowRecord, node: Node, fills: bool, i: nat, total: u64, reverse: u64)
        returns (newTotal: u64, newReverse: u64, status: Status)
      requires Aligned(e) && i < |e.stats|
      modifies existing
      ensures CountAttempt(Tally(existing.elements, newTotal, newReverse), status) ==
              TryCountNode(e, v, Tally(old(existing.elements), total, reverse), node, fills, i)
    {
      hide Find, Put, NameOf, Get64, IsDelta, FlowAttempts.Read64;
      newTotal, newReverse, status := total, reverse, Done;
      if !fills {
        return;
      }
      var name := CounterNames(e, node)[i];
      var was: u64;
      was, status := Read64(existing, name);
      if status != Done {
        return;
      }
      if IsDelta(e.stats[i]) {
        SetValue(existing, name, U64((v + was) % TWO64));
      } else {
        SetValue(existing, name, U64(v));
        if name == OctetName(node) {
          newTotal := (v - was) % TWO64;
        }
        if name == ReverseOctetName(node) {
          newReverse := (v - was) % TWO64;
        }
      }
    }

    method CountForCommon(v: u64, existing: FlowRecord, fs: bool, fd: bool, latest: bool, i: nat)
      requires Aligned(e) && i < |e.stats|
      modifies existing
      ensures existing.elements == CountCommon(e, v, old(existing.elements), fs, fd, latest, i)
    {
      hide Find, Put, Get64, IsDelta;
      var name := e.stats[i];
      if latest {
        if !IsDelta(name) {
          if Get64(existing.elements, name) < v {
            SetValue(existing, name, U64(v));
          }
        } else {
          if fs {
            SetValue(existing, name, U64(Get64(existing.elements, e.sourceStats[i])));
          }
          if fd {
            SetValue(existing, name, U64(Get64(existing.elements, e.destinationStats[i])));
          }
        }
      }
    }

    method CountOne(incoming: FlowRecord, existing: FlowRecord, fs: bool, fd: bool, latest: bool, i: nat,
        total: u64, reverse: u64)
        returns (newTotal: u64, newReverse: u64, status: Status)
      requires Aligned(e) && incoming != existing && i < |e.stats|
      modifies existing
      ensures CountAttempt(Tally(existing.elements, newTotal, newReverse), status) ==
              TryCountStep(e, incoming.elements, Tally(old(existing.elements), total, reverse), fs, fd, latest, i)
    {
      hide Find, Get64, TryCountNode, CountCommon, FlowAttempts.Read64;
      newTotal, newReverse := total, reverse;
      var v: u64;
      v, status := Read64(incoming, e.stats[i]);
      if status != Done {
        return;
      }
      newTotal, newReverse, status := CountForNode(v, existing, Source, fs, i, newTotal, newReverse);
      if status != Done {
        return;
      }
      newTotal, newReverse, status := CountForNode(v, existing, Destination, fd, i, newTotal, newReverse);
      if status != Done {
        return;
      }
      if latest && !Has64(existing.elements, e.stats[i]) {
        status := Panicked;
        return;
      }
      CountForCommon(v, existing, fs, fd, latest, i);
    }

    method MergeStatsElements(incoming: FlowRecord, existing: FlowRecord, fs: bool, fd: bool, latest: bool)
        returns (total: u64, reverse: u64, status: Status)
      requires Aligned(e) && incoming != existing
      modifies existing
      ensures CountAttempt(Tally(existing.elements, total, reverse), status) ==
              TryCountStats(e, incoming.elements, Tally(old(existing.elements), 0, 0), fs, fd, latest, 0)
    {
      hide Find, TryCountStep;
      total, reverse, status := 0, 0, Done;
      for i := 0 to |e.stats|
        invariant status == Done
        invariant TryCountStats(e, incoming.elements, Tally(existing.elements, total, reverse), fs, fd, latest, i) ==
                  TryCountStats(e, incoming.elements, Tally(old(existing.elements), 0, 0), fs, fd, latest, 0)
      {
        total, reverse, status := CountOne(incoming, existing, fs, fd, latest, i, total, reverse);
        if status != Done {
          return;
        }
      }
    }

    method Put64(existing: FlowRecord, name: string, v: u64, wanted: bool) returns (status: Status)
      modifies existing
      ensures Attempt(existing.elements, status) == TryPut64(old(existing.elements), name, v, wanted)
    {
      hide Find, Put;
      status := Done;
      if wanted {
        var at, exist := existing.GetInfoElementWithValue(name);
        if !exist || !existing.elements[at].value.U64? {
          return Panicked;
        }
        SetValue(existing, name, U64(v));
      }
    }

    method MergeThroughputElements(existing: FlowRecord, vals: seq<u64>, fs: bool, fd: bool, latest: bool)
        returns (status: Status)
      requires Aligned(e) && |vals| == 2
      modifies existing
      ensures Attempt(existing.elements, status) ==
              TrySetThroughput(e, old(existing.elements), vals, fs, fd, latest, 0)
    {
      hide Find, TryPut64;
      status := Done;
      for i := 0 to |e.throughput|
        invariant status == Done
        invariant TrySetThroughput(e, existing.elements, vals, fs, fd, latest, i) ==
                  TrySetThroughput(e, old(existing.elements), vals, fs, fd, latest, 0)
      {
        status := Put64(existing, e.sourceThroughput[i], vals[i], fs);
        if status != Done {
          return;
        }
        status := Put64(existing, e.destinationThroughput[i], vals[i], fd);
        if status != Done {
          return;
        }
        status := Put64(existing, e.throughput[i], vals[i], latest);
        if status != Done {
          return;
        }
      }
    }

    /** The end times of the two records, both of which have one. */
    method TouchEndSeconds(incoming: FlowRecord, existing: FlowRecord, fs: bool, fd: bool)
        returns (latest: bool, previous: u32, status: Status)
      requires incoming != existing
      modifies existing
      ensures Attempt(existing.elements, status) ==
              TryTouchEnds(incoming.elements, old(existing.elements), fs, fd)
      ensures status == Done ==>
                && latest == (Get32(incoming.elements, FLOW_END) >= Get32(old(existing.elements), FLOW_END))
                && previous == TouchEnds(incoming.elements, old(existing.elements), fs, fd).1
    {
      hide Find, Put, NameOf, TryNodeEnd, TouchNodeEnd;
      latest, previous := false, 0;
      if !Has32(incoming.elements, FLOW_END) || !Has32(existing.elements, FLOW_END) {
        return false, 0, Panicked;
      }
      var incomingVal := Get32(incoming.elements, FLOW_END);
      latest := incomingVal >= Get32(existing.elements, FLOW_END);
      if latest {
        SetValue(existing, FLOW_END, U32(incomingVal));
      }
      status := Done;
      if fs {
        DoneIsTouched(incoming.elements, existing.elements, Source);
        previous, status := UpdateFlowEndSecondsFromNodes(incoming, existing, Source);
        if status != Done {
          return;
        }
      }
      if fd {
        DoneIsTouched(incoming.elements, existing.elements, Destination);
        previous, status := UpdateFlowEndSecondsFromNodes(incoming, existing, Destination);
      }
    }

    static lemma DoneIsTouched(inc: Record, ex: Record, node: Node)
      ensures var a := TryNodeEnd(inc, ex, node); a.status == Done ==> a.rec == TouchNodeEnd(inc, ex, node).0
    {
    }

    method AggregateRecords(incoming: FlowRecord, existing: FlowRecord, fs: bool, fd: bool) returns (status: Status)
      requires Aligned(e) && incoming != existing && (fs || fd)
      modifies existing
      ensures Attempt(existing.elements, status) ==
              TryAggregate(e, incoming.elements, old(existing.elements), fs, fd)
    {
      hide Find, NameOf, TryTouchEnds, TouchEnds, TryNonStats, TryCountStats, TrySetThroughput, Rate;
      var latest, seconds: u32 := false, 0;
      var at, exist := incoming.GetInfoElementWithValue(FLOW_END);
      var there, found := existing.GetInfoElementWithValue(FLOW_END);
      if exist && found {
        var previous: u32;
        latest, previous, status := TouchEndSeconds(incoming, existing, fs, fd);
        if status != Done {
          return;
        }
        if Get32(incoming.elements, FLOW_END) <= previous {
          return;
        }
        seconds := Get32(incoming.elements, FLOW_END) - previous;
      }
      status := MergeNonStatsElements(incoming, existing, latest);
      if status != Done {
        return;
      }
      var total, reverse;
      total, reverse, status := MergeStatsElements(incoming, existing, fs, fd, latest);
      if status != Done {
        return;
      }
      if seconds == 0 {
        return Panicked;
      }
      status := MergeThroughputElements(existing, [Rate(total, seconds), Rate(reverse, seconds)], fs, fd, latest);
    }

    // ---------- reset ----------

    method WipeValue(record: FlowRecord, name: string) returns (status: Status)
      modifies record
      ensures Attempt(record.elements, status) == TryWipe(old(record.elements), name)
    {
      hide Find, Put, Zero;
      var at, exist := record.GetInfoElementWithValue(name);
      if !exist {
        return Refused;
      }
      SetValue(record, name, Zero(record.elements[at].value));
      status := Done;
    }

    method WipeValues(record: FlowRecord, a: string, b: string, c: string) returns (status: Status)
      modifies record
      ensures Attempt(record.elements, status) == TryWipeAll(old(record.elements), a, b, c)
    {
      hide TryWipe;
      status := WipeValue(record, a);
      if status != Done {
        return;
      }
      status := WipeValue(record, b);
      if status != Done {
        return;
      }
      status := WipeValue(record, c);
    }

    method ResetStatAndThroughputElementsInRecord(record: FlowRecord) returns (status: Status)
      requires Aligned(e)
      modifies record
      ensures Attempt(record.elements, status) == TryReset(e, old(record.elements))
    {
      hide Find, TryWipeAll, IsDelta;
      status := Done;
      for i := 0 to |e.stats|
        invariant status == Done
        invariant TryResetStats(e, record.elements, i) == TryResetStats(e, old(record.elements), 0)
      {
        if IsDelta(e.stats[i]) {
          status := WipeValues(record, e.stats[i], e.sourceStats[i], e.destinationStats[i]);
          if status != Done {
            return;
          }
        }
      }
      ghost var reset := record.elements;
      for i := 0 to |e.throughput|
        invariant status == Done
        invariant TryResetThroughput(e, record.elements, i) == TryResetThroughput(e, reset, 0)
      {
        status := WipeValues(record, e.throughput[i], e.sourceThroughput[i], e.destinationThroughput[i]);
        if status != Done {
          return;
        }
      }
    }
  }
}
