/**
  Which elements an aggregated record has, and in which order: those of the record that opened the flow, then the
  configured ones. No merge, correlation, reset or callback flag adds, drops or moves an element.
 */
module FlowShape {
  import opened Bytes
  import opened Elements
  import opened FlowContent
  import opened FlowEffects
  import opened FlowAttempts
  import opened FlowHistory

  /** The elements of a record without their values. */
  function Shape(rec: Record): (s: seq<InfoElement>)
    ensures |s| == |rec| && forall i :: 0 <= i < |rec| ==> s[i] == rec[i].ie
  {
    seq(|rec|, i requires 0 <= i < |rec| => rec[i].ie)
  }

  // ---------- nothing but values changes ----------

  lemma {:induction false} PutKeeps(rec: Record, name: string, v: Value)
    ensures Shape(Put(rec, name, v)) == Shape(rec)
  {
    hide Find;
    if rec != [] {
      ShapeOfRest(rec[0], rec[1..]);
      assert rec == [rec[0]] + rec[1..];
      if rec[0].ie.name == name {
        ShapeOfRest(rec[0].(value := v), rec[1..]);
      } else {
        PutKeeps(rec[1..], name, v);
        ShapeOfRest(rec[0], Put(rec[1..], name, v));
      }
    }
  }

  lemma ShapeOfRest(el: Element, rest: Record)
    ensures Shape([el] + rest) == [el.ie] + Shape(rest)
  {
  }

  lemma {:induction false} CorrelateKeepsShape(fields: seq<string>, inc: Record, ex: Record, i: nat)
    requires i <= |fields|
    ensures Shape(Correlate(fields, inc, ex, i)) == Shape(ex)
    ensures Shape(TryCorrelate(fields, inc, ex, i).rec) == Shape(ex)
    decreases |fields| - i
  {
    hide Find, Put, Correlates;
    if i < |fields| {
      CorrelateKeepsShape(fields, inc, ex, i + 1);
      if Find(inc, fields[i]).Some? {
        var v := Find(inc, fields[i]).value.value;
        PutKeeps(ex, fields[i], v);
        CorrelateKeepsShape(fields, inc, Put(ex, fields[i], v), i + 1);
      }
    }
  }

  lemma EndsKeepShape(inc: Record, ex: Record, fs: bool, fd: bool)
    ensures Shape(TouchEnds(inc, ex, fs, fd).0) == Shape(ex)
    ensures Shape(TryTouchEnds(inc, ex, fs, fd).rec) == Shape(ex)
  {
    hide Find, Put, NameOf, Shape;
    forall r, name, v
      ensures Shape(Put(r, name, v)) == Shape(r)
    {
      PutKeeps(r, name, v);
    }
  }

  lemma {:induction false} NonStatsKeepShape(e: AggregationElements, inc: Record, ex: Record, latest: bool, i: nat)
    requires i <= |e.nonStats|
    ensures Shape(MergeNonStats(e, inc, ex, latest, i)) == Shape(ex)
    ensures Shape(TryNonStats(e, inc, ex, latest, i).rec) == Shape(ex)
    decreases |e.nonStats| - i
  {
    hide Find, Put, NameOf, Shape;
    if i < |e.nonStats| {
      var name := e.nonStats[i];
      var b, s := Put(ex, name, U8(Get8(inc, name))), Put(ex, name, Str(GetText(inc, name)));
      PutKeeps(ex, name, U8(Get8(inc, name)));
      PutKeeps(ex, name, Str(GetText(inc, name)));
      NonStatsKeepShape(e, inc, ex, latest, i + 1);
      NonStatsKeepShape(e, inc, b, latest, i + 1);
      NonStatsKeepShape(e, inc, s, latest, i + 1);
    }
  }

  lemma CountKeepsShape(e: AggregationElements, inc: Record, t: Tally, fs: bool, fd: bool, latest: bool, i: nat)
    requires Aligned(e) && i < |e.stats|
    ensures Shape(CountStep(e, inc, t, fs, fd, latest, i).rec) == Shape(t.rec)
    ensures Shape(TryCountStep(e, inc, t, fs, fd, latest, i).tally.rec) == Shape(t.rec)
  {
    hide Find, Put, NameOf, Shape, IsDelta;
    forall r, name, v
      ensures Shape(Put(r, name, v)) == Shape(r)
    {
      PutKeeps(r, name, v);
    }
  }

  lemma {:induction false} CountsKeepShape(e: AggregationElements, inc: Record, t: Tally, fs: bool, fd: bool,
      latest: bool, i: nat)
    requires Aligned(e) && i <= |e.stats|
    ensures Shape(CountStats(e, inc, t, fs, fd, latest, i).rec) == Shape(t.rec)
    ensures Shape(TryCountStats(e, inc, t, fs, fd, latest, i).tally.rec) == Shape(t.rec)
    decreases |e.stats| - i
  {
    hide CountStep, TryCountStep, Shape;
    if i < |e.stats| {
      CountKeepsShape(e, inc, t, fs, fd, latest, i);
      CountsKeepShape(e, inc, CountStep(e, inc, t, fs, fd, latest, i), fs, fd, latest, i + 1);
      CountsKeepShape(e, inc, TryCountStep(e, inc, t, fs, fd, latest, i).tally, fs, fd, latest, i + 1);
    }
  }

  lemma RateKeepsShape(e: AggregationElements, rec: Record, v: u64, fs: bool, fd: bool, latest: bool, i: nat)
    requires Aligned(e) && i < |e.throughput|
    ensures Shape(SetRate(e, rec, v, fs, fd, latest, i)) == Shape(rec)
    ensures Shape(TrySetRate(e, rec, v, fs, fd, latest, i).rec) == Shape(rec)
  {
    hide Find, Put, Shape;
    forall r, name, x
      ensures Shape(Put(r, name, x)) == Shape(r)
    {
      PutKeeps(r, name, x);
    }
  }

  lemma {:induction false} RatesKeepShape(e: AggregationElements, rec: Record, vals: seq<u64>, fs: bool, fd: bool,
      latest: bool, i: nat)
    requires Aligned(e) && |vals| == 2 && i <= |e.throughput|
    ensures Shape(SetThroughput(e, rec, vals, fs, fd, latest, i)) == Shape(rec)
    ensures Shape(TrySetThroughput(e, rec, vals, fs, fd, latest, i).rec) == Shape(rec)
    decreases |e.throughput| - i
  {
    hide SetRate, TrySetRate, Shape;
    if i < |e.throughput| {
      RateKeepsShape(e, rec, vals[i], fs, fd, latest, i);
      RatesKeepShape(e, SetRate(e, rec, vals[i], fs, fd, latest, i), vals, fs, fd, latest, i + 1);
      RatesKeepShape(e, TrySetRate(e, rec, vals[i], fs, fd, latest, i).rec, vals, fs, fd, latest, i + 1);
    }
  }

  lemma AggregateKeepsShape(e: AggregationElements, inc: Record, ex: Record, fs: bool, fd: bool)
    requires Aligned(e)
    ensures Shape(Aggregate(e, inc, ex, fs, fd)) == Shape(ex)
  {
    hide Find, NameOf, Shape, TouchEnds, MergeNonStats, CountStats, SetThroughput, Rate;
    var latest, t := Get32(inc, FLOW_END) >= Get32(ex, FLOW_END), Get32(inc, FLOW_END);
    var (r, prev) := TouchEnds(inc, ex, fs, fd);
    EndsKeepShape(inc, ex, fs, fd);
    if t > prev {
      NonStatsKeepShape(e, inc, r, latest, 0);
      var n := Tally(MergeNonStats(e, inc, r, latest, 0), 0, 0);
      CountsKeepShape(e, inc, n, fs, fd, latest, 0);
      var c := CountStats(e, inc, n, fs, fd, latest, 0);
      RatesKeepShape(e, c.rec, [Rate(c.total, t - prev), Rate(c.reverse, t - prev)], fs, fd, latest, 0);
    }
  }

  lemma RestKeepsShape(e: AggregationElements, inc: Record, ex: Record, fs: bool, fd: bool, latest: bool, seconds: u32)
    requires Aligned(e)
    ensures Shape(TryMergeRest(e, inc, ex, fs, fd, latest, seconds).rec) == Shape(ex)
  {
    hide Shape, TryNonStats, TryCountStats, TrySetThroughput, Rate;
    NonStatsKeepShape(e, inc, ex, latest, 0);
    var n := Tally(TryNonStats(e, inc, ex, latest, 0).rec, 0, 0);
    CountsKeepShape(e, inc, n, fs, fd, latest, 0);
    var c := TryCountStats(e, inc, n, fs, fd, latest, 0).tally;
    if seconds > 0 {
      RatesKeepShape(e, c.rec, [Rate(c.total, seconds), Rate(c.reverse, seconds)], fs, fd, latest, 0);
    }
  }

  lemma TryAggregateKeepsShape(e: AggregationElements, inc: Record, ex: Record, fs: bool, fd: bool)
    requires Aligned(e)
    ensures Shape(TryAggregate(e, inc, ex, fs, fd).rec) == Shape(ex)
  {
    hide Find, NameOf, Shape, TouchEnds, TryTouchEnds, TryMergeRest;
    EndsKeepShape(inc, ex, fs, fd);
    RestKeepsShape(e, inc, ex, fs, fd, false, 0);
    var r := TryTouchEnds(inc, ex, fs, fd).rec;
    var t, prev := Get32(inc, FLOW_END), TouchEnds(inc, ex, fs, fd).1;
    if t > prev {
      RestKeepsShape(e, inc, r, fs, fd, t >= Get32(ex, FLOW_END), t - prev);
    }
  }

  lemma MergeKeepsShape(r: Rules, f: Flow, rec: Record)
    requires Aligned(r.e)
    ensures Shape(Merge(r, f, rec).record) == Shape(f.record)
    ensures Shape(TryMerge(r, f, rec).0.record) == Shape(f.record)
  {
    hide Find, Shape, Correlate, TryCorrelate, Aggregate, TryAggregate, Correlating, Fills, CorrelationRequired,
      ReadableType, ReadableNodes, ReadableNode;
    var fs, fd := Fills(rec, Source), Fills(rec, Destination);
    CorrelateKeepsShape(r.fields, rec, f.record, 0);
    AggregateKeepsShape(r.e, rec, f.record, fs, fd);
    AggregateKeepsShape(r.e, rec, Correlate(r.fields, rec, f.record, 0), fs, fd);
    TryAggregateKeepsShape(r.e, rec, f.record, fs, fd);
    TryAggregateKeepsShape(r.e, rec, TryCorrelate(r.fields, rec, f.record, 0).rec, fs, fd);
  }

  // ---------- resets ----------

  lemma WipeKeepsShape(rec: Record, a: string, b: string, c: string)
    ensures Shape(Wipe(Wipe(Wipe(rec, a), b), c)) == Shape(rec)
    ensures Shape(TryWipeAll(rec, a, b, c).rec) == Shape(rec)
  {
    hide Find, Put, Shape, Zero;
    forall r, name, v
      ensures Shape(Put(r, name, v)) == Shape(r)
    {
      PutKeeps(r, name, v);
    }
  }

  lemma {:induction false} ResetStatsKeepsShape(e: AggregationElements, rec: Record, i: nat)
    requires Aligned(e) && i <= |e.stats|
    ensures Shape(ResetStats(e, rec, i)) == Shape(rec) && Shape(TryResetStats(e, rec, i).rec) == Shape(rec)
    decreases |e.stats| - i
  {
    hide Wipe, TryWipeAll, Shape, IsDelta;
    if i < |e.stats| {
      var a, b, c := e.stats[i], e.sourceStats[i], e.destinationStats[i];
      WipeKeepsShape(rec, a, b, c);
      ResetStatsKeepsShape(e, rec, i + 1);
      ResetStatsKeepsShape(e, Wipe(Wipe(Wipe(rec, a), b), c), i + 1);
      ResetStatsKeepsShape(e, TryWipeAll(rec, a, b, c).rec, i + 1);
    }
  }

  lemma {:induction false} ResetRatesKeepsShape(e: AggregationElements, rec: Record, i: nat)
    requires Aligned(e) && i <= |e.throughput|
    ensures Shape(ResetThroughput(e, rec, i)) == Shape(rec) && Shape(TryResetThroughput(e, rec, i).rec) == Shape(rec)
    decreases |e.throughput| - i
  {
    hide Wipe, TryWipeAll, Shape;
    if i < |e.throughput| {
      var a, b, c := e.throughput[i], e.sourceThroughput[i], e.destinationThroughput[i];
      WipeKeepsShape(rec, a, b, c);
      ResetRatesKeepsShape(e, Wipe(Wipe(Wipe(rec, a), b), c), i + 1);
      ResetRatesKeepsShape(e, TryWipeAll(rec, a, b, c).rec, i + 1);
    }
  }

  lemma ResetKeepsShape(e: AggregationElements, rec: Record)
    requires Aligned(e)
    ensures Shape(Reset(e, rec)) == Shape(rec) && Shape(TryReset(e, rec).rec) == Shape(rec)
  {
    hide ResetStats, TryResetStats, ResetThroughput, TryResetThroughput, Shape;
    ResetStatsKeepsShape(e, rec, 0);
    ResetRatesKeepsShape(e, ResetStats(e, rec, 0), 0);
    ResetRatesKeepsShape(e, TryResetStats(e, rec, 0).rec, 0);
  }

  // ---------- opening ----------

  /** The per-node counters, for the statistics that the record has. */
  function CounterShape(e: AggregationElements, rec: Record, i: nat): seq<InfoElement>
    requires Aligned(e) && i <= |e.stats|
    decreases |e.stats| - i
  {
    if i == |e.stats| then []
    else if Find(rec, e.stats[i]).None? then CounterShape(e, rec, i + 1)
    else [IeOf(e, e.sourceStats[i]), IeOf(e, e.destinationStats[i])] + CounterShape(e, rec, i + 1)
  }

  function EndShape(e: AggregationElements, i: nat): seq<InfoElement>
    requires i <= |e.endSeconds|
    decreases |e.endSeconds| - i
  {
    if i == |e.endSeconds| then [] else [IeOf(e, e.endSeconds[i])] + EndShape(e, i + 1)
  }

  function RateShape(e: AggregationElements, i: nat): seq<InfoElement>
    requires Aligned(e) && i <= |e.throughput|
    decreases |e.throughput| - i
  {
    if i == |e.throughput| then []
    else
      var rates := [IeOf(e, e.throughput[i]), IeOf(e, e.sourceThroughput[i]), IeOf(e, e.destinationThroughput[i])];
      rates + RateShape(e, i + 1)
  }

  lemma AddShape(rec: Record, el: Element)
    ensures Shape(Add(rec, el)) == Shape(rec) + [el.ie]
  {
  }

  lemma {:induction false} StatsAppended(e: AggregationElements, first: Record, rec: Record, fs: bool, fd: bool, i: nat)
    requires Aligned(e) && i <= |e.stats| && Fresh(e, first, rec, i)
    ensures Shape(AddStats(e, rec, fs, fd, i)) == Shape(rec) + CounterShape(e, first, i)
    decreases |e.stats| - i
  {
    hide Find, Shape, IeOf, Add;
    if i < |e.stats| {
      var v := Get64(rec, e.stats[i]);
      var s := Element(IeOf(e, e.sourceStats[i]), U64(if fs then v else 0));
      var d := Element(IeOf(e, e.destinationStats[i]), U64(if fd then v else 0));
      AddShape(rec, s);
      AddShape(Add(rec, s), d);
      assert Find(rec, e.stats[i]).Some? == Find(first, e.stats[i]).Some?;
      if Find(rec, e.stats[i]).None? {
        StatsAppended(e, first, rec, fs, fd, i + 1);
      } else {
        StillFresh(e, first, rec, s, d, i);
        StatsAppended(e, first, Add(Add(rec, s), d), fs, fd, i + 1);
      }
    }
  }

  /** No per-node counter has the name of a statistic. */
  ghost predicate Apart(e: AggregationElements)
    requires Aligned(e)
  {
    forall k, j :: 0 <= k < |e.stats| && 0 <= j < |e.stats| ==>
      IeOf(e, e.sourceStats[j]).name != e.stats[k] && IeOf(e, e.destinationStats[j]).name != e.stats[k]
  }

  lemma UsableIsApart(e: AggregationElements)
    requires Aligned(e) && Usable(e)
    ensures Apart(e)
  {
    hide NameOf, Assigns;
    var roles := RolesOf(e);
    forall k, j | 0 <= k < |e.stats| && 0 <= j < |e.stats|
      ensures IeOf(e, e.sourceStats[j]).name != e.stats[k] && IeOf(e, e.destinationStats[j]).name != e.stats[k]
    {
      StatRoles(e, roles, k);
      StatRoles(e, roles, j);
    }
  }

  /** What has been added so far is not one of the statistics still to come. */
  ghost predicate Fresh(e: AggregationElements, first: Record, rec: Record, i: nat)
    requires Aligned(e)
  {
    Apart(e) && forall k :: i <= k < |e.stats| ==> Find(rec, e.stats[k]).Some? == Find(first, e.stats[k]).Some?
  }

  lemma StillFresh(e: AggregationElements, first: Record, rec: Record, s: Element, d: Element, i: nat)
    requires Aligned(e) && i < |e.stats| && Fresh(e, first, rec, i)
    requires s.ie == IeOf(e, e.sourceStats[i]) && d.ie == IeOf(e, e.destinationStats[i])
    ensures Fresh(e, first, Add(Add(rec, s), d), i + 1)
  {
    hide Find, IeOf;
  }

  lemma {:induction false} EndsAppended(e: AggregationElements, rec: Record, t: u32, fs: bool, fd: bool, i: nat)
    requires i <= |e.endSeconds|
    ensures Shape(AddEnds(e, rec, t, fs, fd, i)) == Shape(rec) + EndShape(e, i)
    decreases |e.endSeconds| - i
  {
    hide Find, Shape, IeOf, Add, Contains;
    if i < |e.endSeconds| {
      var name := e.endSeconds[i];
      var v := if (fs && Contains(name, "Source")) || (fd && Contains(name, "Destination")) then t else 0;
      AddShape(rec, Element(IeOf(e, name), U32(v)));
      EndsAppended(e, Add(rec, Element(IeOf(e, name), U32(v))), t, fs, fd, i + 1);
    }
  }

  lemma {:induction false} RatesAppended(e: AggregationElements, rec: Record, vals: seq<u64>, fs: bool, fd: bool,
      i: nat)
    requires Aligned(e) && |vals| == 2 && i <= |e.throughput|
    ensures Shape(AddThroughput(e, rec, vals, fs, fd, i)) == Shape(rec) + RateShape(e, i)
    decreases |e.throughput| - i
  {
    hide Find, Shape, IeOf, Add;
    if i < |e.throughput| {
      var v := vals[i];
      var a := Element(IeOf(e, e.throughput[i]), U64(v));
      var b := Element(IeOf(e, e.sourceThroughput[i]), U64(if fs then v else 0));
      var c := Element(IeOf(e, e.destinationThroughput[i]), U64(if fd then v else 0));
      AddShape(rec, a);
      AddShape(Add(rec, a), b);
      AddShape(Add(Add(rec, a), b), c);
      RatesAppended(e, Add(Add(Add(rec, a), b), c), vals, fs, fd, i + 1);
    }
  }

  /** The elements of the record that a flow opens with: those of its first record, the counters of the two nodes, the
      end times of the two nodes, the throughput in common and of the two nodes. */
  function OpenShape(e: AggregationElements, rec: Record): seq<InfoElement>
    requires Aligned(e)
  {
    Shape(rec) + CounterShape(e, rec, 0) + EndShape(e, 0) + RateShape(e, 0)
  }

  lemma OpenedHasShape(e: AggregationElements, rec: Record)
    requires Aligned(e) && Apart(e)
    ensures Shape(Opened(e, rec)) == OpenShape(e, rec)
  {
    hide Find, Shape, AddStats, AddEnds, AddThroughput, CounterShape, EndShape, RateShape, Fills, NameOf, Get32, Apart;
    var fs, fd := Fills(rec, Source), Fills(rec, Destination);
    StatsAppended(e, rec, rec, fs, fd, 0);
    var r := AddStats(e, rec, fs, fd, 0);
    EndsAppended(e, r, Get32(r, FLOW_END), fs, fd, 0);
    RatesAppended(e, AddEnds(e, r, Get32(r, FLOW_END), fs, fd, 0), FirstRates(r), fs, fd, 0);
  }

  // ---------- histories ----------

  /** Over every history, refused records and resets that stopped included, in which no callback rewrote the record: the
      elements are those that the flow opened with, in their order. */
  lemma {:induction false} ShapeStays(r: Rules, v4: bool, h: seq<FlowEvent>)
    requires Aligned(r.e) && h != [] && h[0].Received? && Apart(r.e)
    requires forall k :: 0 <= k < |h| ==> !h[k].Edited? && !h[k].Annotated?
    ensures Shape(Replay(r, v4, h).record) == OpenShape(r.e, h[0].rec)
  {
    hide Find, Shape, OpenShape, Merge, TryMerge, Reset, TryReset, Opened, Apart;
    var n := |h| - 1;
    if n == 0 {
      OpenedHasShape(r.e, h[0].rec);
    } else {
      ShapeStays(r, v4, h[..n]);
      var f := Replay(r, v4, h[..n]);
      match h[n]
      case Received(rec) => MergeKeepsShape(r, f, rec);
      case Spoilt(rec) => MergeKeepsShape(r, f, rec);
      case Cleared => ResetKeepsShape(r.e, f.record);
      case HalfCleared => ResetKeepsShape(r.e, f.record);
      case Retried =>
      case CalledBack(_) =>
    }
  }
}
