/** What opening a flow, resetting it and correlating into it do to the record, field by field. */
module FlowOpen {
  import opened Bytes
  import opened Elements
  import opened FlowContent
  import opened FlowEffects

  // ---------- opening ----------

  ghost predicate LacksCounters(e: AggregationElements, rec: Record, k: nat)
    requires Aligned(e) && k < |e.stats|
  {
    Has64(rec, e.stats[k]) && Find(rec, e.sourceStats[k]).None? && Find(rec, e.destinationStats[k]).None?
  }

  ghost predicate CountersOpened(e: AggregationElements, rec: Record, b: Record, fs: bool, fd: bool, k: nat)
    requires Aligned(e) && k < |e.stats|
  {
    && HasStats(e, b, k) && Find(b, e.stats[k]) == Find(rec, e.stats[k])
    && Get64(b, e.sourceStats[k]) == (if fs then Get64(rec, e.stats[k]) else 0)
    && Get64(b, e.destinationStats[k]) == (if fd then Get64(rec, e.stats[k]) else 0)
  }

  /** What was findable stays as it was. */
  ghost predicate Extends(a: Record, b: Record) {
    forall m :: Find(a, m).Some? ==> Find(b, m) == Find(a, m)
  }

  lemma AddCountersEffect(e: AggregationElements, rec: Record, fs: bool, fd: bool, i: nat)
    requires Aligned(e) && Describes(e) && i < |e.stats| && LacksCounters(e, rec, i)
    requires e.sourceStats[i] != e.destinationStats[i]
    ensures var b := AddCounters(e, rec, fs, fd, i);
            && CountersOpened(e, rec, b, fs, fd, i)
            && forall m :: m != e.sourceStats[i] && m != e.destinationStats[i] ==> Find(b, m) == Find(rec, m)
  {
    hide Find, Add;
  }

  lemma {:induction false} AddStatsEffect(e: AggregationElements, roles: Roles, rec: Record, fs: bool, fd: bool, i: nat)
    requires Aligned(e) && Assigns(roles, e) && Describes(e) && i <= |e.stats|
    requires forall k :: i <= k < |e.stats| ==> LacksCounters(e, rec, k)
    ensures var b := AddStats(e, rec, fs, fd, i);
            && Extends(rec, b)
            && (forall m :: !StatFrom(RoleOf(roles, m), i) ==> Find(b, m) == Find(rec, m))
            && (forall k :: i <= k < |e.stats| ==> CountersOpened(e, rec, b, fs, fd, k))
    decreases |e.stats| - i
  {
    hide NameOf, Assigns, Find, Add, AddCounters;
    if i < |e.stats| {
      StatRoles(e, roles, i);
      assert LacksCounters(e, rec, i);
      var r2 := AddCounters(e, rec, fs, fd, i);
      AddCountersEffect(e, rec, fs, fd, i);
      forall k | i < k < |e.stats|
        ensures LacksCounters(e, r2, k) && Find(r2, e.stats[k]) == Find(rec, e.stats[k])
      {
        assert LacksCounters(e, rec, k);
        StatRoles(e, roles, k);
      }
      AddStatsEffect(e, roles, r2, fs, fd, i + 1);
      var b := AddStats(e, rec, fs, fd, i);
      assert CountersOpened(e, rec, b, fs, fd, i);
      forall k | i < k < |e.stats|
        ensures CountersOpened(e, rec, b, fs, fd, k)
      {
        assert CountersOpened(e, r2, b, fs, fd, k);
      }
    }
  }

  lemma EndNamesNameTheirNode()
    ensures Contains(EndName(Source), "Source") && !Contains(EndName(Source), "Destination")
    ensures Contains(EndName(Destination), "Destination") && !Contains(EndName(Destination), "Source")
  {
    var s, d := EndName(Source), EndName(Destination);
    assert OccursAt(s, "Source", 18);
    assert OccursAt(d, "Destination", 18);
    forall i | 0 <= i <= |s|
      ensures !OccursAt(s, "Destination", i)
    {
      if i + 11 <= |s| {
        assert s[i] != 'D';
        assert s[i..i + 11][0] == s[i];
      }
    }
    forall i | 0 <= i <= |d|
      ensures !OccursAt(d, "Source", i)
    {
      if i + 6 <= |d| {
        assert d[i] != 'S' || d[i + 1] != 'o';
        assert d[i..i + 6][0] == d[i] && d[i..i + 6][1] == d[i + 1];
      }
    }
  }

  lemma AddEndsEffect(e: AggregationElements, rec: Record, t: u32, fs: bool, fd: bool)
    requires Describes(e) && e.endSeconds == [EndName(Source), EndName(Destination)]
    requires EndName(Source) != EndName(Destination)
    requires Find(rec, EndName(Source)).None? && Find(rec, EndName(Destination)).None?
    ensures var b := AddEnds(e, rec, t, fs, fd, 0);
            && Has32(b, EndName(Source)) && Get32(b, EndName(Source)) == (if fs then t else 0)
            && Has32(b, EndName(Destination)) && Get32(b, EndName(Destination)) == (if fd then t else 0)
            && forall m :: m != EndName(Source) && m != EndName(Destination) ==> Find(b, m) == Find(rec, m)
  {
    EndNamesNameTheirNode();
    hide NameOf, Find, Add, Contains;
    var r1 := Add(rec, Element(IeOf(e, EndName(Source)), U32(if fs then t else 0)));
    var r2 := Add(r1, Element(IeOf(e, EndName(Destination)), U32(if fd then t else 0)));
    assert AddEnds(e, r2, t, fs, fd, 2) == r2;
    assert AddEnds(e, r1, t, fs, fd, 1) == r2;
    assert AddEnds(e, rec, t, fs, fd, 0) == r2;
  }

  ghost predicate LacksRates(e: AggregationElements, rec: Record, k: nat)
    requires Aligned(e) && k < |e.throughput|
  {
    Find(rec, e.throughput[k]).None? && Find(rec, e.sourceThroughput[k]).None?
      && Find(rec, e.destinationThroughput[k]).None?
  }

  ghost predicate RatesOpened(e: AggregationElements, b: Record, v: u64, fs: bool, fd: bool, k: nat)
    requires Aligned(e) && k < |e.throughput|
  {
    && HasRates(e, b, k) && Get64(b, e.throughput[k]) == v
    && Get64(b, e.sourceThroughput[k]) == (if fs then v else 0)
    && Get64(b, e.destinationThroughput[k]) == (if fd then v else 0)
  }

  lemma AddRateEffect(e: AggregationElements, rec: Record, v: u64, fs: bool, fd: bool, i: nat)
    requires Aligned(e) && Describes(e) && i < |e.throughput| && LacksRates(e, rec, i)
    requires e.throughput[i] != e.sourceThroughput[i] && e.throughput[i] != e.destinationThroughput[i]
    requires e.sourceThroughput[i] != e.destinationThroughput[i]
    ensures var b := AddRate(e, rec, v, fs, fd, i);
            && RatesOpened(e, b, v, fs, fd, i)
            && forall m :: m != e.throughput[i] && m != e.sourceThroughput[i] && m != e.destinationThroughput[i] ==>
                 Find(b, m) == Find(rec, m)
  {
    hide Find, Add;
  }

  lemma {:induction false} AddThroughputEffect(
    e: AggregationElements, roles: Roles, rec: Record, vals: seq<u64>, fs: bool, fd: bool, i: nat)
    requires Aligned(e) && Assigns(roles, e) && Describes(e) && |vals| == 2 && i <= |e.throughput|
    requires forall k :: i <= k < |e.throughput| ==> LacksRates(e, rec, k)
    ensures var b := AddThroughput(e, rec, vals, fs, fd, i);
            && Extends(rec, b)
            && (forall m :: !RateFrom(RoleOf(roles, m), i) ==> Find(b, m) == Find(rec, m))
            && (forall k :: i <= k < |e.throughput| ==> RatesOpened(e, b, vals[k], fs, fd, k))
    decreases |e.throughput| - i
  {
    hide NameOf, Assigns, Find, Add, AddRate;
    if i < |e.throughput| {
      RateRoles(e, roles, i);
      assert LacksRates(e, rec, i);
      var r3 := AddRate(e, rec, vals[i], fs, fd, i);
      AddRateEffect(e, rec, vals[i], fs, fd, i);
      forall k | i < k < |e.throughput|
        ensures LacksRates(e, r3, k)
      {
        assert LacksRates(e, rec, k);
        RateRoles(e, roles, k);
      }
      AddThroughputEffect(e, roles, r3, vals, fs, fd, i + 1);
    }
  }

  ghost predicate Opens(e: AggregationElements, rec: Record, b: Record)
    requires Aligned(e)
  {
    var fs, fd := Fills(rec, Source), Fills(rec, Destination);
    && Find(b, FLOW_END) == Find(rec, FLOW_END)
    && Find(b, FLOW_END_REASON) == Find(rec, FLOW_END_REASON) && Find(b, TCP_STATE) == Find(rec, TCP_STATE)
    && Get32(b, EndName(Source)) == (if fs then Get32(rec, FLOW_END) else 0)
    && Get32(b, EndName(Destination)) == (if fd then Get32(rec, FLOW_END) else 0)
    && (forall k :: 0 <= k < |e.stats| ==> CountersOpened(e, rec, b, fs, fd, k))
    && (forall k :: 0 <= k < |e.throughput| ==> RatesOpened(e, b, FirstRates(rec)[k], fs, fd, k))
  }

  lemma SameFirstRates(a: Record, b: Record)
    requires Extends(a, b) && Has32(a, FLOW_START) && Has32(a, FLOW_END) && Has64(a, OCTETS) && Has64(a, REVERSE_OCTETS)
    ensures FirstRates(b) == FirstRates(a) && Find(b, FLOW_END) == Find(a, FLOW_END)
  {
    hide NameOf, Find, Rate;
  }

  /** The first record of a flow keeps its own fields and gains the aggregation fields,
      with its own values on the sides it reports and zero on the others. */
  lemma OpenedEffect(e: AggregationElements, roles: Roles, rec: Record)
    requires Aligned(e) && Assigns(roles, e) && Describes(e) && Incoming(e, rec)
    requires e.endSeconds == [EndName(Source), EndName(Destination)]
    ensures Stored(e, Opened(e, rec)) && Opens(e, rec, Opened(e, rec))
    ensures forall m :: Foreign(RoleOf(roles, m)) ==> Find(Opened(e, rec), m) == Find(rec, m)
  {
    hide NameOf, Assigns, Find, Add, Fills, FirstRates, AddStats, AddEnds, AddThroughput;
    KnownRoles(e, roles);
    var fs, fd := Fills(rec, Source), Fills(rec, Destination);
    assert forall k :: 0 <= k < |e.stats| ==> LacksCounters(e, rec, k);
    AddStatsEffect(e, roles, rec, fs, fd, 0);
    var r1 := AddStats(e, rec, fs, fd, 0);
    assert FirstRates(r1) == FirstRates(rec)
      && Find(r1, FLOW_END) == Find(rec, FLOW_END) by { SameFirstRates(rec, r1); }
    AddEndsEffect(e, r1, Get32(rec, FLOW_END), fs, fd);
    var r2 := AddEnds(e, r1, Get32(rec, FLOW_END), fs, fd, 0);
    StillWithoutRates(e, roles, rec, r2);
    AddThroughputEffect(e, roles, r2, FirstRates(rec), fs, fd, 0);
    var b := Opened(e, rec);
    CountersStay(e, roles, rec, r1, b, fs, fd);
    OpenedIsStored(e, rec, b);
  }

  lemma StillWithoutRates(e: AggregationElements, roles: Roles, rec: Record, b: Record)
    requires Aligned(e) && Assigns(roles, e) && Incoming(e, rec)
    requires forall m :: RateFrom(RoleOf(roles, m), 0) ==> Find(b, m) == Find(rec, m)
    ensures forall k :: 0 <= k < |e.throughput| ==> LacksRates(e, b, k)
  {
    hide NameOf, Assigns, Find;
    forall k | 0 <= k < |e.throughput|
      ensures LacksRates(e, b, k)
    {
      RateRoles(e, roles, k);
    }
  }

  lemma CountersStay(e: AggregationElements, roles: Roles, rec: Record, a: Record, b: Record, fs: bool, fd: bool)
    requires Aligned(e) && Assigns(roles, e) && forall k :: 0 <= k < |e.stats| ==> CountersOpened(e, rec, a, fs, fd, k)
    requires forall m :: StatFrom(RoleOf(roles, m), 0) ==> Find(b, m) == Find(a, m)
    ensures forall k :: 0 <= k < |e.stats| ==> CountersOpened(e, rec, b, fs, fd, k)
  {
    hide NameOf, Assigns, Find;
    forall k | 0 <= k < |e.stats|
      ensures CountersOpened(e, rec, b, fs, fd, k)
    {
      assert CountersOpened(e, rec, a, fs, fd, k);
      StatRoles(e, roles, k);
    }
  }

  lemma OpenedIsStored(e: AggregationElements, rec: Record, b: Record)
    requires Aligned(e) && Incoming(e, rec) && Opens(e, rec, b)
    requires Has32(b, EndName(Source)) && Has32(b, EndName(Destination))
    ensures Stored(e, b)
  {
    hide NameOf, Find, Fills, FirstRates;
    var fs, fd := Fills(rec, Source), Fills(rec, Destination);
    forall k | 0 <= k < |e.stats|
      ensures HasStats(e, b, k)
    {
      assert CountersOpened(e, rec, b, fs, fd, k);
    }
    forall k | 0 <= k < |e.throughput|
      ensures HasRates(e, b, k)
    {
      assert RatesOpened(e, b, FirstRates(rec)[k], fs, fd, k);
    }
  }

  // ---------- reset ----------

  ghost predicate StatsReset(e: AggregationElements, a: Record, b: Record, k: nat)
    requires Aligned(e) && k < |e.stats|
  {
    if IsDelta(e.stats[k]) then
      HasStats(e, b, k) && Get64(b, e.stats[k]) == Get64(b, e.sourceStats[k]) == Get64(b, e.destinationStats[k]) == 0
    else SameStats(e, a, b, k)
  }

  lemma {:induction false} ResetStatsEffect(e: AggregationElements, roles: Roles, rec: Record, i: nat)
    requires Aligned(e) && Assigns(roles, e) && i <= |e.stats|
    requires forall k :: i <= k < |e.stats| ==> HasStats(e, rec, k)
    ensures var b := ResetStats(e, rec, i);
            && (forall m :: !StatFrom(RoleOf(roles, m), i) ==> Find(b, m) == Find(rec, m))
            && (forall k :: i <= k < |e.stats| ==> HasStats(e, b, k) && StatsReset(e, rec, b, k))
    decreases |e.stats| - i
  {
    hide NameOf, Assigns, Find, Wipe, IsDelta;
    if i < |e.stats| {
      StatRoles(e, roles, i);
      assert HasStats(e, rec, i);
      var r := if !IsDelta(e.stats[i]) then rec
               else Wipe(Wipe(Wipe(rec, e.stats[i]), e.sourceStats[i]), e.destinationStats[i]);
      forall k | i < k < |e.stats|
        ensures HasStats(e, r, k) && SameStats(e, rec, r, k)
      {
        assert HasStats(e, rec, k);
        StatRoles(e, roles, k);
      }
      ResetStatsEffect(e, roles, r, i + 1);
      var b := ResetStats(e, rec, i);
      assert SameStats(e, r, b, i);
      forall k | i < k < |e.stats|
        ensures StatsReset(e, rec, b, k)
      {
        assert SameStats(e, rec, r, k) && StatsReset(e, r, b, k);
      }
    }
  }

  lemma {:induction false} ResetThroughputEffect(e: AggregationElements, roles: Roles, rec: Record, i: nat)
    requires Aligned(e) && Assigns(roles, e) && i <= |e.throughput|
    requires forall k :: i <= k < |e.throughput| ==> HasRates(e, rec, k)
    ensures var b := ResetThroughput(e, rec, i);
            && (forall m :: !RateFrom(RoleOf(roles, m), i) ==> Find(b, m) == Find(rec, m))
            && (forall k :: i <= k < |e.throughput| ==> RatesOpened(e, b, 0, false, false, k))
    decreases |e.throughput| - i
  {
    hide NameOf, Assigns, Find, Wipe;
    if i < |e.throughput| {
      RateRoles(e, roles, i);
      assert HasRates(e, rec, i);
      var r := Wipe(Wipe(Wipe(rec, e.throughput[i]), e.sourceThroughput[i]), e.destinationThroughput[i]);
      assert RatesOpened(e, r, 0, false, false, i);
      forall k | i < k < |e.throughput|
        ensures HasRates(e, r, k)
      {
        assert HasRates(e, rec, k);
        RateRoles(e, roles, k);
      }
      ResetThroughputEffect(e, roles, r, i + 1);
    }
  }

  /** A reset zeroes every delta counter and every throughput field, on all three sides, and nothing else:
      totals keep their values because throughput is computed from them. */
  lemma ResetEffect(e: AggregationElements, roles: Roles, rec: Record)
    requires Aligned(e) && Assigns(roles, e) && Stored(e, rec)
    ensures var b := Reset(e, rec);
            && Stored(e, b)
            && (forall k :: 0 <= k < |e.stats| ==> StatsReset(e, rec, b, k))
            && (forall k :: 0 <= k < |e.throughput| ==> RatesOpened(e, b, 0, false, false, k))
            && (forall m :: Foreign(RoleOf(roles, m)) || IsEnd(m) ==> Find(b, m) == Find(rec, m))
            && Find(b, FLOW_END_REASON) == Find(rec, FLOW_END_REASON) && Find(b, TCP_STATE) == Find(rec, TCP_STATE)
  {
    hide NameOf, Assigns, Find, Put, IsDelta, ResetStats, ResetThroughput;
    KnownRoles(e, roles);
    ResetStatsEffect(e, roles, rec, 0);
    var r := ResetStats(e, rec, 0);
    forall k | 0 <= k < |e.throughput|
      ensures HasRates(e, r, k)
    {
      assert HasRates(e, rec, k);
      RateRoles(e, roles, k);
    }
    ResetThroughputEffect(e, roles, r, 0);
    var b := Reset(e, rec);
    forall k | 0 <= k < |e.stats|
      ensures HasStats(e, b, k) && StatsReset(e, rec, b, k)
    {
      StatRoles(e, roles, k);
      assert HasStats(e, r, k) && StatsReset(e, rec, r, k) && SameStats(e, r, b, k);
    }
    forall k | 0 <= k < |e.throughput|
      ensures HasRates(e, b, k)
    {
      assert RatesOpened(e, b, 0, false, false, k);
    }
  }

  // ---------- correlation ----------

  /** Correlation writes only correlate fields for which the incoming record has a set value of a supported type. */
  lemma {:induction false} CorrelateEffect(fields: seq<string>, inc: Record, ex: Record, i: nat)
    requires i <= |fields|
    ensures forall m :: Find(Correlate(fields, inc, ex, i), m) ==
              if m in fields[i..] && Find(inc, m).Some? && Correlates(Find(inc, m).value) && Find(ex, m).Some?
              then Some(Find(ex, m).value.(value := Find(inc, m).value.value))
              else Find(ex, m)
    decreases |fields| - i
  {
    hide Find, Put, Correlates;
    if i < |fields| {
      var f := fields[i];
      assert fields[i..] == [f] + fields[i + 1..];
      var r := if Find(inc, f).Some?
        && Correlates(Find(inc, f).value) then Put(ex, f, Find(inc, f).value.value) else ex;
      CorrelateEffect(fields, inc, r, i + 1);
      assert Correlate(fields, inc, ex, i) == Correlate(fields, inc, r, i + 1);
    }
  }

  /** `n` zeros from position `i` on. */
  predicate ZerosAt(s: seq<byte>, i: nat, n: nat)
    requires i + n <= |s|
  {
    forall k :: i <= k < i + n ==> s[k] == 0
  }

  /** The address 0.0.0.0, on its own or mapped into a sixteen-byte one. */
  predicate IsZeroV4(ip: seq<byte>) {
    || (|ip| == 4 && ZerosAt(ip, 0, 4))
    || (|ip| == 16 && ZerosAt(ip, 0, 10) && ip[10] == 255 && ip[11] == 255 && ZerosAt(ip, 12, 4))
  }

  /** An element that says something: a text that is not empty, a number that is not zero, an address that is not all
      zeros; of the types that correlation looks at. */
  predicate IsSet(el: Element) {
    match el.ie.dataType
    case String => el.value.Str? && |el.value.text| > 0
    case Unsigned8 => el.value.U8? && el.value.n8 > 0
    case Unsigned16 => el.value.U16? && el.value.n16 > 0
    case Signed32 => el.value.S32? && (el.value.s32 < 0 || el.value.s32 > 0)
    case Ipv4Address => el.value.IP? && !IsZeroV4(el.value.ip)
    case Ipv6Address => el.value.IP? && !(|el.value.ip| == 16 && ZerosAt(el.value.ip, 0, 16))
    case _ => false
  }

  lemma SetIsCorrelated(el: Element)
    ensures Correlates(el) <==> IsSet(el)
  {
    if el.value.IP? {
      var ip := el.value.ip;
      if |ip| == 4 {
        assert ip == [0, 0, 0, 0] <==> ZerosAt(ip, 0, 4) by {
          assert ip == [ip[0], ip[1], ip[2], ip[3]];
        }
        assert (MAPPED_PREFIX + ip)[10] == 255 && seq(16, i => 0)[10] == 0;
      } else if |ip| == 16 {
        MappedPrefix(ip);
        LastFour(ip);
        assert ip == seq(16, i => 0) <==> ZerosAt(ip, 0, 16);
      }
    }
  }

  lemma MappedPrefix(ip: seq<byte>)
    requires |ip| == 16
    ensures ip[..12] == MAPPED_PREFIX <==> ZerosAt(ip, 0, 10) && ip[10] == 255 && ip[11] == 255
  {
    assert forall k :: 0 <= k < 12 ==> ip[k] == ip[..12][k];
    assert ip[..12] == MAPPED_PREFIX <==> forall k :: 0 <= k < 12 ==> ip[..12][k] == MAPPED_PREFIX[k];
  }

  lemma LastFour(ip: seq<byte>)
    requires |ip| == 16
    ensures ip[12..] == [0, 0, 0, 0] <==> ZerosAt(ip, 12, 4)
  {
    assert forall k :: 0 <= k < 4 ==> ip[12..][k] == ip[12 + k];
    assert forall k :: 12 <= k < 16 ==> ip[k] == ip[12..][k - 12];
  }

  /** What correlation does to one field that both records have: a set value is taken over, and nothing else is. A field
      that is not correlated stays. */
  lemma CorrelatedField(fields: seq<string>, inc: Record, ex: Record, f: string)
    requires Find(ex, f).Some?
    ensures var after := Find(Correlate(fields, inc, ex, 0), f);
            && after.Some? && after.value.ie == Find(ex, f).value.ie
            && after.value.value ==
               if f in fields && Find(inc, f).Some? && IsSet(Find(inc, f).value) then Find(inc, f).value.value
               else Find(ex, f).value.value
  {
    hide Find, Correlate, Correlates, IsSet;
    CorrelateEffect(fields, inc, ex, 0);
    assert fields[0..] == fields;
    if Find(inc, f).Some? {
      SetIsCorrelated(Find(inc, f).value);
    }
  }

  /** On field `f` at most one side is set, or both agree. */
  ghost predicate Agree(a: Record, b: Record, f: string) {
    && Find(a, f).Some? && Find(b, f).Some? && Find(a, f).value.ie == Find(b, f).value.ie
    && (Find(a, f) == Find(b, f) || (IsSet(Find(a, f).value) != IsSet(Find(b, f).value)))
  }

  /** The record has, under `f`, the value that is set in one of the two records, or the value of both if none is. */
  ghost predicate Combines(rec: Record, a: Record, b: Record, f: string) {
    && Find(rec, f).Some? && Find(a, f).Some? && Find(b, f).Some?
    && Find(rec, f).value.value ==
       if IsSet(Find(a, f).value) then Find(a, f).value.value else Find(b, f).value.value
  }

  /** Correlation does not depend on which of the two records came first: either way the set value of each field is
      there. */
  lemma CorrelationCommutes(fields: seq<string>, a: Record, b: Record)
    requires forall f :: f in fields ==> Agree(a, b, f)
    ensures forall f :: f in fields ==>
              && Find(Correlate(fields, a, b, 0), f) == Find(Correlate(fields, b, a, 0), f)
              && Combines(Correlate(fields, a, b, 0), a, b, f)
  {
    hide Find, Correlate, IsSet;
    forall f | f in fields
      ensures Find(Correlate(fields, a, b, 0), f) == Find(Correlate(fields, b, a, 0), f)
      ensures Combines(Correlate(fields, a, b, 0), a, b, f)
    {
      assert Agree(a, b, f);
      CorrelatedField(fields, a, b, f);
      CorrelatedField(fields, b, a, f);
    }
  }

  lemma {:induction false} PutSame(rec: Record, name: string, v: Value)
    requires Find(rec, name).Some? ==> Find(rec, name).value.value == v
    ensures Put(rec, name, v) == rec
  {
    if rec != [] && rec[0].ie.name != name {
      PutSame(rec[1..], name, v);
    }
  }

  /** A record that has the set values already is left as it is. */
  lemma {:induction false} CorrelatedAlready(fields: seq<string>, inc: Record, ex: Record, i: nat)
    requires i <= |fields|
    requires forall f :: f in fields && Find(inc, f).Some? && Correlates(Find(inc, f).value) && Find(ex, f).Some? ==>
               Find(ex, f).value.value == Find(inc, f).value.value
    ensures Correlate(fields, inc, ex, i) == ex
    decreases |fields| - i
  {
    hide Find, Put, Correlates;
    if i < |fields| {
      var f := fields[i];
      if Find(inc, f).Some? && Correlates(Find(inc, f).value) {
        PutSame(ex, f, Find(inc, f).value.value);
      }
      CorrelatedAlready(fields, inc, ex, i + 1);
    }
  }

  /** Correlating the same record again changes nothing. */
  lemma CorrelationIdempotent(fields: seq<string>, a: Record, b: Record)
    ensures Correlate(fields, a, Correlate(fields, a, b, 0), 0) == Correlate(fields, a, b, 0)
  {
    hide Find, Correlate, Correlates;
    CorrelateEffect(fields, a, b, 0);
    assert fields[0..] == fields;
    CorrelatedAlready(fields, a, Correlate(fields, a, b, 0), 0);
  }
}
