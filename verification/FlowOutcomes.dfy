/** Exactly when the record loops run through: conditions on the records that a caller can check beforehand. */
module FlowOutcomes {
  import opened Bytes
  import opened Elements
  import opened FlowContent
  import opened FlowEffects
  import opened FlowMerge
  import opened FlowOpen
  import opened FlowAttempts

  // ---------- opening ----------

  predicate Described(e: AggregationElements, name: string) {
    e.describe(name).Some?
  }

  /** Statistic `i`, if the record has it, is a 64-bit value and the registry has its two counters. */
  predicate Countable(e: AggregationElements, rec: Record, i: nat)
    requires Aligned(e) && i < |e.stats|
  {
    Find(rec, e.stats[i]).Some? ==>
      Has64(rec, e.stats[i]) && Described(e, e.sourceStats[i]) && Described(e, e.destinationStats[i])
  }

  predicate RateDescribed(e: AggregationElements, i: nat)
    requires Aligned(e) && i < |e.throughput|
  {
    Described(e, e.throughput[i]) && Described(e, e.sourceThroughput[i]) && Described(e, e.destinationThroughput[i])
  }

  /** A record that can open a flow. */
  predicate Openable(e: AggregationElements, rec: Record)
    requires Aligned(e)
  {
    && ReadableType(rec) && (CorrelationRequired(rec) ==> ReadableNode(rec, Source))
    && (forall i :: 0 <= i < |e.stats| ==> Countable(e, rec, i))
    && Has32(rec, FLOW_START) && Has32(rec, FLOW_END) && Has64(rec, OCTETS) && Has64(rec, REVERSE_OCTETS)
    && (forall i :: 0 <= i < |e.endSeconds| ==> Described(e, e.endSeconds[i]))
    && (forall i :: 0 <= i < |e.throughput| ==> RateDescribed(e, i))
  }

  /** The octet totals are not among the per-node counters. */
  ghost predicate OctetsApart(e: AggregationElements) {
    forall i :: 0 <= i < |e.sourceStats| && i < |e.destinationStats| ==>
      && e.sourceStats[i] != OCTETS && e.sourceStats[i] != REVERSE_OCTETS
      && e.destinationStats[i] != OCTETS && e.destinationStats[i] != REVERSE_OCTETS
  }

  lemma CounterAddedExactly(e: AggregationElements, rec: Record, fs: bool, fd: bool, i: nat)
    requires Aligned(e) && Describes(e) && i < |e.stats| && Find(rec, e.stats[i]).Some? && (fs || fd)
    requires e.sourceStats[i] != e.stats[i] && e.destinationStats[i] != e.stats[i]
    ensures var a := TryAddCounter(e, rec, Source, fs, i);
            var b := TryAddCounter(e, a.rec, Destination, fd, i);
            && (a.status == Done && b.status == Done <==> Countable(e, rec, i))
            && (a.status == Done && b.status == Done ==>
                  forall m :: m != e.sourceStats[i] && m != e.destinationStats[i] ==> Find(b.rec, m) == Find(rec, m))
  {
    hide Find, Add, IeOf;
  }

  lemma {:induction false} AddsStatsExactly(e: AggregationElements, roles: Roles, rec: Record, fs: bool, fd: bool,
      i: nat)
    requires Aligned(e) && Assigns(roles, e) && Describes(e) && i <= |e.stats| && (fs || fd)
    ensures var a := TryAddStats(e, rec, fs, fd, i);
            && (a.status == Done <==> forall k :: i <= k < |e.stats| ==> Countable(e, rec, k))
            && (a.status == Done ==>
                  forall m :: !(exists k :: i <= k < |e.stats| && (m == e.sourceStats[k] || m == e.destinationStats[k]))
                    ==> Find(a.rec, m) == Find(rec, m))
    decreases |e.stats| - i
  {
    hide NameOf, Assigns, Find, TryAddCounter, IeOf;
    if i < |e.stats| {
      StatRoles(e, roles, i);
      if Find(rec, e.stats[i]).None? {
        AddsStatsExactly(e, roles, rec, fs, fd, i + 1);
      } else {
        CounterAddedExactly(e, rec, fs, fd, i);
        var a := TryAddCounter(e, rec, Source, fs, i);
        var b := TryAddCounter(e, a.rec, Destination, fd, i);
        if a.status == Done && b.status == Done {
          AddsStatsExactly(e, roles, b.rec, fs, fd, i + 1);
          forall k | i < k < |e.stats|
            ensures Countable(e, b.rec, k) == Countable(e, rec, k)
          {
            StatRoles(e, roles, k);
          }
        }
      }
    }
  }

  lemma {:induction false} AddsEndsExactly(e: AggregationElements, rec: Record, t: u32, fs: bool, fd: bool, i: nat)
    requires i <= |e.endSeconds|
    ensures TryAddEnds(e, rec, t, fs, fd, i).status == Done <==>
            forall k :: i <= k < |e.endSeconds| ==> Described(e, e.endSeconds[k])
    decreases |e.endSeconds| - i
  {
    hide Find, Add, Contains, IeOf;
    if i < |e.endSeconds| {
      var name := e.endSeconds[i];
      var v := if (fs && Contains(name, "Source")) || (fd && Contains(name, "Destination")) then t else 0;
      AddsEndsExactly(e, TryAdd(e, rec, name, U32(v)).rec, t, fs, fd, i + 1);
    }
  }

  lemma {:induction false} AddsRatesExactly(e: AggregationElements, rec: Record, vals: seq<u64>, fs: bool, fd: bool,
      i: nat)
    requires Aligned(e) && |vals| == 2 && i <= |e.throughput|
    ensures TryAddThroughput(e, rec, vals, fs, fd, i).status == Done <==>
            forall k :: i <= k < |e.throughput| ==> RateDescribed(e, k)
    decreases |e.throughput| - i
  {
    hide Find, Add, IeOf;
    if i < |e.throughput| {
      assert TryAddRate(e, rec, vals[i], fs, fd, i).status == Done <==> RateDescribed(e, i);
      AddsRatesExactly(e, TryAddRate(e, rec, vals[i], fs, fd, i).rec, vals, fs, fd, i + 1);
    }
  }

  /** A record opens a flow exactly if it is `Openable`; it is then stored as `Opened` says. */
  lemma OpensExactly(e: AggregationElements, rec: Record)
    requires Usable(e) && OctetsApart(e)
    ensures TryOpened(e, rec).status == Done <==> Openable(e, rec)
    ensures TryOpened(e, rec).status == Done ==> TryOpened(e, rec).rec == Opened(e, rec)
  {
    hide NameOf, Assigns, Find, Fills, TryAddStats, TryAddEnds, TryAddThroughput, ReadableType, ReadableNode, Countable,
      RateDescribed, FirstRates, Describes, CorrelationRequired;
    var roles := RolesOf(e);
    DoneOpens(e, rec);
    var fs, fd := Fills(rec, Source), Fills(rec, Destination);
    SomeNode(rec);
    AddsStatsExactly(e, roles, rec, fs, fd, 0);
    var a := TryAddStats(e, rec, fs, fd, 0);
    if a.status == Done {
      SameInputs(e, roles, rec, a.rec);
      AddsEndsExactly(e, a.rec, Get32(a.rec, FLOW_END), fs, fd, 0);
      AddsRatesExactly(e, TryAddEnds(e, a.rec, Get32(a.rec, FLOW_END), fs, fd, 0).rec, FirstRates(a.rec), fs, fd, 0);
    }
  }

  lemma SomeNode(rec: Record)
    ensures Fills(rec, Source) || Fills(rec, Destination)
  {
    hide FromNode, CorrelationRequired;
  }

  lemma SameInputs(e: AggregationElements, roles: Roles, a: Record, b: Record)
    requires Aligned(e) && Assigns(roles, e) && OctetsApart(e)
    requires forall m :: !(exists k :: 0 <= k < |e.stats| && (m == e.sourceStats[k] || m == e.destinationStats[k]))
               ==> Find(b, m) == Find(a, m)
    ensures ReadInputs(b) == ReadInputs(a)
    ensures ReadInputs(a) == Done <==>
            Has32(a, FLOW_START) && Has32(a, FLOW_END) && Has64(a, OCTETS) && Has64(a, REVERSE_OCTETS)
  {
    hide NameOf, Find;
    forall k | 0 <= k < |e.stats|
      ensures e.sourceStats[k] != FLOW_START && e.sourceStats[k] != FLOW_END
      ensures e.destinationStats[k] != FLOW_START && e.destinationStats[k] != FLOW_END
    {
      StatRoles(e, roles, k);
    }
  }

  // ---------- correlating ----------

  /** What the incoming record has under a correlate field can be written where the stored one has it. */
  predicate Writable(inc: Record, ex: Record, f: string) {
    Find(inc, f).Some? ==>
      var el := Find(inc, f).value;
      && (CopiedType(el.ie.dataType) ==> HasType(el.value, el.ie.dataType))
      && (IsSet(el) ==> Find(ex, f).Some? && SameKind(Find(ex, f).value.value, el.value))
  }

  /** Correlation runs through exactly if every correlate field is writable; it returns no error. */
  lemma {:induction false} CorrelatesExactly(fields: seq<string>, inc: Record, ex: Record, i: nat)
    requires i <= |fields|
    ensures var a := TryCorrelate(fields, inc, ex, i);
            && (a.status == Done <==> forall k :: i <= k < |fields| ==> Writable(inc, ex, fields[k]))
            && a.status != Refused
    decreases |fields| - i
  {
    hide Find, Put, Correlates, IsSet, CopiedType, HasType;
    if i < |fields| {
      var el := Find(inc, fields[i]);
      if el.Some? {
        SetIsCorrelated(el.value);
      }
      if el.Some? && IsSet(el.value) {
        var r := Put(ex, fields[i], el.value.value);
        CorrelatesExactly(fields, inc, r, i + 1);
        if Writable(inc, ex, fields[i]) {
          assert forall f :: Writable(inc, r, f) == Writable(inc, ex, f);
        }
      } else {
        CorrelatesExactly(fields, inc, ex, i + 1);
      }
    }
  }

  // ---------- merging ----------

  /** The incoming record has a start time where a node's stored end time asks for one. */
  predicate Startable(inc: Record, ex: Record, fs: bool, fd: bool) {
    (fs && Get32(ex, EndName(Source)) == 0) || (fd && Get32(ex, EndName(Destination)) == 0) ==> Has32(inc, FLOW_START)
  }

  /** A record has what the merge of `name` reads. */
  predicate Reports(inc: Record, latest: bool, name: string) {
    && Find(inc, name).Some?
    && (name == FLOW_END_REASON ==> Find(inc, name).value.value.U8?)
    && (name == TCP_STATE && latest ==> Find(inc, name).value.value.Str?)
  }

  /** A record that can be merged into a stored one. */
  predicate Fit(e: AggregationElements, inc: Record, ex: Record, fs: bool, fd: bool) {
    && Has32(inc, FLOW_END) && Startable(inc, ex, fs, fd)
    && (Later(inc, ex, fs, fd) ==>
          && (forall i :: 0 <= i < |e.nonStats| ==> Reports(inc, Latest(inc, ex), e.nonStats[i]))
          && (forall i :: 0 <= i < |e.stats| ==> Has64(inc, e.stats[i])))
  }

  lemma TouchesEndsExactly(e: AggregationElements, roles: Roles, inc: Record, ex: Record, fs: bool, fd: bool)
    requires Assigns(roles, e) && Has32(ex, FLOW_END) && Has32(ex, EndName(Source)) && Has32(ex, EndName(Destination))
    ensures TryTouchEnds(inc, ex, fs, fd).status == Done <==> Has32(inc, FLOW_END) && Startable(inc, ex, fs, fd)
  {
    hide NameOf, Find, Put, Assigns;
    KnownRoles(e, roles);
  }

  lemma {:induction false} MergesNonStatsExactly(e: AggregationElements, inc: Record, ex: Record, latest: bool, i: nat)
    requires i <= |e.nonStats|
    requires Mergeable(e, ex, FLOW_END_REASON, Unsigned8) && Mergeable(e, ex, TCP_STATE, String)
    ensures TryNonStats(e, inc, ex, latest, i).status == Done <==>
            forall k :: i <= k < |e.nonStats| ==> Reports(inc, latest, e.nonStats[k])
    decreases |e.nonStats| - i
  {
    hide Find, Put, NameOf;
    if i < |e.nonStats| {
      MergesNonStatsExactly(e, inc, TryNonStat(inc, ex, latest, e.nonStats[i]).rec, latest, i + 1);
    }
  }

  lemma CountsOneExactly(e: AggregationElements, roles: Roles, inc: Record, t: Tally, fs: bool, fd: bool, latest: bool,
      i: nat)
    requires Aligned(e) && Assigns(roles, e) && i < |e.stats| && HasStats(e, t.rec, i)
    ensures var a := TryCountStep(e, inc, t, fs, fd, latest, i);
            && (a.status == Done <==> Has64(inc, e.stats[i]))
            && (a.status == Done ==> a.tally == CountStep(e, inc, t, fs, fd, latest, i))
  {
    hide NameOf, Find, Put, Assigns, CountCommon, IsDelta;
    StatRoles(e, roles, i);
  }

  lemma {:induction false} CountsExactly(e: AggregationElements, roles: Roles, inc: Record, t: Tally, fs: bool,
      fd: bool, latest: bool, i: nat)
    requires Aligned(e) && Assigns(roles, e) && i <= |e.stats|
    requires forall k :: i <= k < |e.stats| ==> HasStats(e, t.rec, k)
    ensures TryCountStats(e, inc, t, fs, fd, latest, i).status == Done <==>
            forall k :: i <= k < |e.stats| ==> Has64(inc, e.stats[k])
    decreases |e.stats| - i
  {
    hide NameOf, Assigns, Find, Put, CountStep, TryCountStep, NewCommon, NewCounter, IsDelta;
    if i < |e.stats| {
      CountsOneExactly(e, roles, inc, t, fs, fd, latest, i);
      CountStepEffect(e, roles, inc, t, fs, fd, latest, i);
      var s := CountStep(e, inc, t, fs, fd, latest, i);
      forall k | i < k < |e.stats|
        ensures HasStats(e, s.rec, k)
      {
        assert HasStats(e, t.rec, k);
        SeparateStats(e, roles, i, k);
      }
      CountsExactly(e, roles, inc, s, fs, fd, latest, i + 1);
    }
  }

  lemma {:induction false} SetsThroughput(e: AggregationElements, roles: Roles, rec: Record, vals: seq<u64>, fs: bool,
      fd: bool, latest: bool, i: nat)
    requires Aligned(e) && Assigns(roles, e) && |vals| == 2 && i <= |e.throughput|
    requires forall k :: i <= k < |e.throughput| ==> HasRates(e, rec, k)
    ensures TrySetThroughput(e, rec, vals, fs, fd, latest, i).status == Done
    decreases |e.throughput| - i
  {
    hide NameOf, Assigns, Find, Put;
    if i < |e.throughput| {
      RateRoles(e, roles, i);
      assert HasRates(e, rec, i);
      var r := TrySetRate(e, rec, vals[i], fs, fd, latest, i).rec;
      forall k | i < k < |e.throughput|
        ensures HasRates(e, r, k)
      {
        assert HasRates(e, rec, k);
        RateRoles(e, roles, k);
      }
      SetsThroughput(e, roles, r, vals, fs, fd, latest, i + 1);
    }
  }

  /** The loops after the end times run through exactly if the record reports everything configured. */
  lemma MergesRestExactly(e: AggregationElements, roles: Roles, inc: Record, ex: Record, fs: bool, fd: bool)
    requires Aligned(e) && Assigns(roles, e) && Stored(e, ex) && Later(inc, ex, fs, fd)
    ensures var latest, s := Latest(inc, ex), Get32(inc, FLOW_END) - Previous(inc, ex, fs, fd);
            TryMergeRest(e, inc, TouchEnds(inc, ex, fs, fd).0, fs, fd, latest, s).status == Done <==>
              && (forall i :: 0 <= i < |e.nonStats| ==> Reports(inc, latest, e.nonStats[i]))
              && (forall i :: 0 <= i < |e.stats| ==> Has64(inc, e.stats[i]))
  {
    hide NameOf, Find, Put, Assigns, TouchEnds, TryNonStats, MergeNonStats, TryCountStats, CountStats, TrySetThroughput,
      Rate, Reports, NewCommon, NewCounter, IsDelta;
    var latest, r := Latest(inc, ex), TouchEnds(inc, ex, fs, fd).0;
    KnownRoles(e, roles);
    TouchEndsEffect(e, roles, inc, ex, fs, fd);
    MergesNonStatsExactly(e, inc, r, latest, 0);
    DoneMergesNonStats(e, inc, r, latest, 0);
    var p := Prepared(e, inc, ex, fs, fd);
    assert p == MergeNonStats(e, inc, r, latest, 0);
    PreparedStats(e, roles, inc, ex, fs, fd);
    CountsExactly(e, roles, inc, Tally(p, 0, 0), fs, fd, latest, 0);
    DoneCounts(e, inc, Tally(p, 0, 0), fs, fd, latest, 0);
    var c := Counted(e, inc, ex, fs, fd);
    CountedEffect(e, roles, inc, ex, fs, fd);
    var s := Get32(inc, FLOW_END) - Previous(inc, ex, fs, fd);
    SetsThroughput(e, roles, c.rec, [Rate(c.total, s), Rate(c.reverse, s)], fs, fd, latest, 0);
  }

  /** A record is merged into a stored one exactly if it is `Fit`; the result is then what `Aggregate` says. */
  lemma MergesExactly(e: AggregationElements, inc: Record, ex: Record, fs: bool, fd: bool)
    requires Usable(e) && Stored(e, ex)
    ensures TryAggregate(e, inc, ex, fs, fd).status == Done <==> Fit(e, inc, ex, fs, fd)
    ensures TryAggregate(e, inc, ex, fs, fd).status == Done ==>
            TryAggregate(e, inc, ex, fs, fd).rec == Aggregate(e, inc, ex, fs, fd)
  {
    hide NameOf, Find, Put, Assigns, TryTouchEnds, TouchEnds, TryMergeRest, Reports, Startable;
    var roles := RolesOf(e);
    KnownRoles(e, roles);
    DoneAggregates(e, inc, ex, fs, fd);
    TouchesEndsExactly(e, roles, inc, ex, fs, fd);
    DoneTouchesEnds(inc, ex, fs, fd);
    TouchEndsEffect(e, roles, inc, ex, fs, fd);
    if Find(inc, FLOW_END).None? {
      NothingToDivideBy(e, inc, ex, fs, fd);
    } else if Later(inc, ex, fs, fd) {
      MergesRestExactly(e, roles, inc, ex, fs, fd);
    }
  }

  lemma NothingToDivideBy(e: AggregationElements, inc: Record, ex: Record, fs: bool, fd: bool)
    requires Aligned(e)
    ensures TryMergeRest(e, inc, ex, fs, fd, false, 0).status != Done
  {
    hide TryNonStats, TryCountStats, TrySetThroughput;
  }

  /** A record as a node sends it is fit for every stored one. */
  lemma IncomingIsFit(e: AggregationElements, inc: Record, ex: Record, fs: bool, fd: bool)
    requires Aligned(e) && Incoming(e, inc)
    ensures Fit(e, inc, ex, fs, fd)
  {
    hide NameOf, Find;
  }

  // ---------- errors and panics ----------

  /** What a record has of the elements that a merge reads is of the right kind. */
  predicate RightKinds(e: AggregationElements, inc: Record) {
    && (Find(inc, "flowEndReason").Some? ==> Find(inc, "flowEndReason").value.value.U8?)
    && (Find(inc, "tcpState").Some? ==> Find(inc, "tcpState").value.value.Str?)
    && (forall i :: 0 <= i < |e.stats| && Find(inc, e.stats[i]).Some? ==> Find(inc, e.stats[i]).value.value.U64?)
  }

  /** A record has every element that is configured. */
  predicate NothingMissing(e: AggregationElements, inc: Record) {
    && (forall i :: 0 <= i < |e.nonStats| ==> Find(inc, e.nonStats[i]).Some?)
    && (forall i :: 0 <= i < |e.stats| ==> Find(inc, e.stats[i]).Some?)
  }

  lemma {:induction false} NonStatsEnd(e: AggregationElements, inc: Record, ex: Record, latest: bool, i: nat)
    requires i <= |e.nonStats|
    requires Mergeable(e, ex, FLOW_END_REASON, Unsigned8) && Mergeable(e, ex, TCP_STATE, String)
    ensures var s := TryNonStats(e, inc, ex, latest, i).status;
            && (s == Panicked ==> !RightKinds(e, inc)) && (s == Refused ==> !NothingMissing(e, inc))
    decreases |e.nonStats| - i
  {
    hide Find, Put;
    if i < |e.nonStats| {
      NonStatsEnd(e, inc, TryNonStat(inc, ex, latest, e.nonStats[i]).rec, latest, i + 1);
    }
  }

  lemma CountEnds(e: AggregationElements, roles: Roles, inc: Record, t: Tally, fs: bool, fd: bool, latest: bool, i: nat)
    requires Aligned(e) && Assigns(roles, e) && i < |e.stats| && HasStats(e, t.rec, i)
    ensures TryCountStep(e, inc, t, fs, fd, latest, i).status == Read64(inc, e.stats[i])
  {
    hide NameOf, Find, Put, Assigns, CountCommon, IsDelta;
    StatRoles(e, roles, i);
  }

  lemma {:induction false} CountsEnd(e: AggregationElements, roles: Roles, inc: Record, t: Tally, fs: bool, fd: bool,
      latest: bool, i: nat)
    requires Aligned(e) && Assigns(roles, e) && i <= |e.stats|
    requires forall k :: i <= k < |e.stats| ==> HasStats(e, t.rec, k)
    ensures var s := TryCountStats(e, inc, t, fs, fd, latest, i).status;
            && (s == Panicked ==> !RightKinds(e, inc)) && (s == Refused ==> !NothingMissing(e, inc))
    decreases |e.stats| - i
  {
    hide NameOf, Assigns, Find, Put, CountStep, TryCountStep, NewCommon, NewCounter, IsDelta;
    if i < |e.stats| {
      CountEnds(e, roles, inc, t, fs, fd, latest, i);
      CountsOneExactly(e, roles, inc, t, fs, fd, latest, i);
      CountStepEffect(e, roles, inc, t, fs, fd, latest, i);
      var s := CountStep(e, inc, t, fs, fd, latest, i);
      forall k | i < k < |e.stats|
        ensures HasStats(e, s.rec, k)
      {
        assert HasStats(e, t.rec, k);
        SeparateStats(e, roles, i, k);
      }
      CountsEnd(e, roles, inc, s, fs, fd, latest, i + 1);
    }
  }

  lemma RestEnds(e: AggregationElements, roles: Roles, inc: Record, ex: Record, fs: bool, fd: bool)
    requires Aligned(e) && Assigns(roles, e) && Stored(e, ex) && Later(inc, ex, fs, fd)
    ensures var latest, d := Latest(inc, ex), Get32(inc, FLOW_END) - Previous(inc, ex, fs, fd);
            var s := TryMergeRest(e, inc, TouchEnds(inc, ex, fs, fd).0, fs, fd, latest, d).status;
            && (s == Panicked ==> !RightKinds(e, inc)) && (s == Refused ==> !NothingMissing(e, inc))
  {
    hide NameOf, Find, Put, Assigns, TouchEnds, TryNonStats, MergeNonStats, TryCountStats, CountStats, TrySetThroughput,
      Rate, RightKinds, NothingMissing, NewCommon, NewCounter, IsDelta;
    var latest, r := Latest(inc, ex), TouchEnds(inc, ex, fs, fd).0;
    KnownRoles(e, roles);
    TouchEndsEffect(e, roles, inc, ex, fs, fd);
    NonStatsEnd(e, inc, r, latest, 0);
    DoneMergesNonStats(e, inc, r, latest, 0);
    var p := Prepared(e, inc, ex, fs, fd);
    assert p == MergeNonStats(e, inc, r, latest, 0);
    PreparedStats(e, roles, inc, ex, fs, fd);
    CountsEnd(e, roles, inc, Tally(p, 0, 0), fs, fd, latest, 0);
    DoneCounts(e, inc, Tally(p, 0, 0), fs, fd, latest, 0);
    var c := Counted(e, inc, ex, fs, fd);
    CountedEffect(e, roles, inc, ex, fs, fd);
    var s := Get32(inc, FLOW_END) - Previous(inc, ex, fs, fd);
    SetsThroughput(e, roles, c.rec, [Rate(c.total, s), Rate(c.reverse, s)], fs, fd, latest, 0);
  }

  /** Of a record that has its times, a merge that fails returns an error if what is there is of its kind, and panics if
      nothing is missing. */
  lemma ErrorOrPanic(e: AggregationElements, inc: Record, ex: Record, fs: bool, fd: bool)
    requires Usable(e) && Stored(e, ex) && Has32(inc, FLOW_END) && Startable(inc, ex, fs, fd)
    ensures var s := TryAggregate(e, inc, ex, fs, fd).status;
            && (RightKinds(e, inc) ==> s == if Fit(e, inc, ex, fs, fd) then Done else Refused)
            && (NothingMissing(e, inc) ==> s == if Fit(e, inc, ex, fs, fd) then Done else Panicked)
  {
    hide NameOf, Find, Put, Assigns, TryTouchEnds, TouchEnds, TryMergeRest, Reports, Startable, RightKinds,
      NothingMissing, Fit;
    var roles := RolesOf(e);
    KnownRoles(e, roles);
    MergesExactly(e, inc, ex, fs, fd);
    TouchesEndsExactly(e, roles, inc, ex, fs, fd);
    DoneTouchesEnds(inc, ex, fs, fd);
    TouchEndsEffect(e, roles, inc, ex, fs, fd);
    if Later(inc, ex, fs, fd) {
      RestEnds(e, roles, inc, ex, fs, fd);
    }
  }

  /** A record without an end time is never merged: it is refused if something else is missing too, and otherwise makes
      the process divide by no seconds. */
  lemma NoEndTime(e: AggregationElements, inc: Record, ex: Record, fs: bool, fd: bool)
    requires Usable(e) && Stored(e, ex) && Find(inc, FLOW_END).None? && RightKinds(e, inc)
    ensures TryAggregate(e, inc, ex, fs, fd).status == if NothingMissing(e, inc) then Panicked else Refused
  {
    hide NameOf, Find, Put, Assigns, TryNonStats, MergeNonStats, TryCountStats, TrySetThroughput, RightKinds, Reports,
      IsDelta;
    var roles := RolesOf(e);
    KnownRoles(e, roles);
    NonStatsEnd(e, inc, ex, false, 0);
    MergesNonStatsExactly(e, inc, ex, false, 0);
    DoneMergesNonStats(e, inc, ex, false, 0);
    MergeNonStatsEffect(e, roles, inc, ex, false, 0);
    var n := MergeNonStats(e, inc, ex, false, 0);
    KeepsNonStats(e, roles, ex, n);
    CountsEnd(e, roles, inc, Tally(n, 0, 0), fs, fd, false, 0);
    CountsExactly(e, roles, inc, Tally(n, 0, 0), fs, fd, false, 0);
    KindsReport(e, inc);
  }

  lemma KeepsNonStats(e: AggregationElements, roles: Roles, a: Record, b: Record)
    requires Aligned(e) && Assigns(roles, e) && Stored(e, a)
    requires forall m :: m != FLOW_END_REASON && m != TCP_STATE ==> Find(b, m) == Find(a, m)
    ensures forall k :: 0 <= k < |e.stats| ==> HasStats(e, b, k)
  {
    hide NameOf, Find, Assigns;
    KnownRoles(e, roles);
    forall k | 0 <= k < |e.stats|
      ensures HasStats(e, b, k)
    {
      assert HasStats(e, a, k);
      StatRoles(e, roles, k);
    }
  }

  lemma KindsReport(e: AggregationElements, inc: Record)
    requires RightKinds(e, inc)
    ensures NothingMissing(e, inc) <==>
              && (forall k :: 0 <= k < |e.nonStats| ==> Reports(inc, false, e.nonStats[k]))
              && (forall k :: 0 <= k < |e.stats| ==> Has64(inc, e.stats[k]))
  {
    hide Find;
  }

  // ---------- what a refused merge has done ----------

  lemma {:induction false} NonStatsKeep(e: AggregationElements, inc: Record, ex: Record, latest: bool, i: nat,
      m: string)
    requires i <= |e.nonStats| && m != FLOW_END_REASON && m != TCP_STATE
    ensures Find(TryNonStats(e, inc, ex, latest, i).rec, m) == Find(ex, m)
    decreases |e.nonStats| - i
  {
    hide Find, Put, NameOf;
    if i < |e.nonStats| {
      NonStatsKeep(e, inc, TryNonStat(inc, ex, latest, e.nonStats[i]).rec, latest, i + 1, m);
    }
  }

  lemma {:induction false} CountsKeep(e: AggregationElements, inc: Record, t: Tally, fs: bool, fd: bool, latest: bool,
      i: nat, m: string)
    requires Aligned(e) && i <= |e.stats| && m !in e.stats && m !in e.sourceStats && m !in e.destinationStats
    ensures Find(TryCountStats(e, inc, t, fs, fd, latest, i).tally.rec, m) == Find(t.rec, m)
    decreases |e.stats| - i
  {
    hide Find, Put, NameOf, IsDelta;
    if i < |e.stats| {
      CountsKeep(e, inc, TryCountStep(e, inc, t, fs, fd, latest, i).tally, fs, fd, latest, i + 1, m);
    }
  }

  lemma {:induction false} RatesNotRefused(e: AggregationElements, rec: Record, vals: seq<u64>, fs: bool, fd: bool,
      latest: bool, i: nat)
    requires Aligned(e) && |vals| == 2 && i <= |e.throughput|
    ensures TrySetThroughput(e, rec, vals, fs, fd, latest, i).status != Refused
    decreases |e.throughput| - i
  {
    hide Find, Put;
    if i < |e.throughput| {
      RatesNotRefused(e, TrySetRate(e, rec, vals[i], fs, fd, latest, i).rec, vals, fs, fd, latest, i + 1);
    }
  }

  lemma NotACounter(e: AggregationElements, roles: Roles, m: string)
    requires Aligned(e) && Assigns(roles, e) && IsEnd(m)
    ensures m !in e.stats && m !in e.sourceStats && m !in e.destinationStats
    ensures m != FLOW_END_REASON && m != TCP_STATE
  {
    hide NameOf, Assigns;
    KnownRoles(e, roles);
    forall k | 0 <= k < |e.stats|
      ensures m != e.stats[k] && m != e.sourceStats[k] && m != e.destinationStats[k]
    {
      StatRoles(e, roles, k);
    }
  }

  /** A merge that is refused has moved the end times. */
  lemma RefusedMovesEnds(e: AggregationElements, inc: Record, ex: Record, fs: bool, fd: bool)
    requires Usable(e) && Stored(e, ex) && Has32(inc, FLOW_END)
    requires TryAggregate(e, inc, ex, fs, fd).status == Refused
    ensures EndsMoved(inc, ex, TryAggregate(e, inc, ex, fs, fd).rec, fs, fd)
  {
    hide NameOf, Find, Put, Assigns, TryTouchEnds, TouchEnds, TryNonStats, TryCountStats, TrySetThroughput, Rate;
    var roles := RolesOf(e);
    KnownRoles(e, roles);
    TouchesEndsExactly(e, roles, inc, ex, fs, fd);
    DoneTouchesEnds(inc, ex, fs, fd);
    TouchEndsEffect(e, roles, inc, ex, fs, fd);
    var a, latest := TryTouchEnds(inc, ex, fs, fd), Latest(inc, ex);
    var n := TryNonStats(e, inc, a.rec, latest, 0).rec;
    var c := TryCountStats(e, inc, Tally(n, 0, 0), fs, fd, latest, 0).tally;
    forall m | IsEnd(m)
      ensures Find(n, m) == Find(a.rec, m) && Find(c.rec, m) == Find(a.rec, m)
    {
      NotACounter(e, roles, m);
      NonStatsKeep(e, inc, a.rec, latest, 0, m);
      CountsKeep(e, inc, Tally(n, 0, 0), fs, fd, latest, 0, m);
    }
    if Later(inc, ex, fs, fd) {
      var s := Get32(inc, FLOW_END) - Previous(inc, ex, fs, fd);
      RatesNotRefused(e, c.rec, [Rate(c.total, s), Rate(c.reverse, s)], fs, fd, latest, 0);
    }
  }

  /** Of a record whose type, pods and statistics are of their kinds, an opening that fails returns an error exactly as
      long as what is there of the times and octet totals is of its kind. */
  lemma OpeningErrors(e: AggregationElements, rec: Record)
    requires Usable(e) && OctetsApart(e)
    requires ReadableType(rec) && (CorrelationRequired(rec) ==> ReadableNode(rec, Source))
    requires forall i :: 0 <= i < |e.stats| && Find(rec, e.stats[i]).Some? ==> Has64(rec, e.stats[i])
    requires Find(rec, FLOW_START).Some? ==> Has32(rec, FLOW_START)
    requires Find(rec, FLOW_END).Some? ==> Has32(rec, FLOW_END)
    requires Find(rec, OCTETS).Some? ==> Has64(rec, OCTETS)
    requires Find(rec, REVERSE_OCTETS).Some? ==> Has64(rec, REVERSE_OCTETS)
    ensures TryOpened(e, rec).status == if Openable(e, rec) then Done else Refused
  {
    hide NameOf, Assigns, Find, Fills, TryAddStats, TryAddEnds, TryAddThroughput, ReadableType, ReadableNode, Openable,
      FirstRates, Describes, CorrelationRequired;
    var roles := RolesOf(e);
    OpensExactly(e, rec);
    var fs, fd := Fills(rec, Source), Fills(rec, Destination);
    SomeNode(rec);
    AddsStatsExactly(e, roles, rec, fs, fd, 0);
    StatsNoPanic(e, roles, rec, fs, fd, 0);
    var a := TryAddStats(e, rec, fs, fd, 0);
    if a.status == Done {
      SameInputs(e, roles, rec, a.rec);
      EndsNoPanic(e, a.rec, Get32(a.rec, FLOW_END), fs, fd, 0);
      RatesNoPanic(e, TryAddEnds(e, a.rec, Get32(a.rec, FLOW_END), fs, fd, 0).rec, FirstRates(a.rec), fs, fd, 0);
    }
  }

  lemma {:induction false} StatsNoPanic(e: AggregationElements, roles: Roles, rec: Record, fs: bool, fd: bool, i: nat)
    requires Aligned(e) && Assigns(roles, e) && Describes(e) && i <= |e.stats| && (fs || fd)
    requires forall k :: i <= k < |e.stats| && Find(rec, e.stats[k]).Some? ==> Has64(rec, e.stats[k])
    ensures TryAddStats(e, rec, fs, fd, i).status != Panicked
    decreases |e.stats| - i
  {
    hide NameOf, Assigns, Find, IeOf, Add;
    if i < |e.stats| {
      StatRoles(e, roles, i);
      if Find(rec, e.stats[i]).None? {
        StatsNoPanic(e, roles, rec, fs, fd, i + 1);
      } else {
        CounterAddedExactly(e, rec, fs, fd, i);
        var a := TryAddCounter(e, rec, Source, fs, i);
        var b := TryAddCounter(e, a.rec, Destination, fd, i);
        if a.status == Done && b.status == Done {
          forall k | i < k < |e.stats|
            ensures Find(b.rec, e.stats[k]) == Find(rec, e.stats[k])
          {
            StatRoles(e, roles, k);
          }
          StatsNoPanic(e, roles, b.rec, fs, fd, i + 1);
        }
      }
    }
  }

  lemma {:induction false} EndsNoPanic(e: AggregationElements, rec: Record, t: u32, fs: bool, fd: bool, i: nat)
    requires i <= |e.endSeconds|
    ensures TryAddEnds(e, rec, t, fs, fd, i).status != Panicked
    decreases |e.endSeconds| - i
  {
    hide Find, Add, Contains, IeOf;
    if i < |e.endSeconds| {
      var name := e.endSeconds[i];
      var v := if (fs && Contains(name, "Source")) || (fd && Contains(name, "Destination")) then t else 0;
      EndsNoPanic(e, TryAdd(e, rec, name, U32(v)).rec, t, fs, fd, i + 1);
    }
  }

  lemma {:induction false} RatesNoPanic(e: AggregationElements, rec: Record, vals: seq<u64>, fs: bool, fd: bool, i: nat)
    requires Aligned(e) && |vals| == 2 && i <= |e.throughput|
    ensures TryAddThroughput(e, rec, vals, fs, fd, i).status != Panicked
    decreases |e.throughput| - i
  {
    hide Find, Add, IeOf;
    if i < |e.throughput| {
      RatesNoPanic(e, TryAddRate(e, rec, vals[i], fs, fd, i).rec, vals, fs, fd, i + 1);
    }
  }

  // ---------- resetting ----------

  predicate HasAll(rec: Record, a: string, b: string, c: string) {
    Find(rec, a).Some? && Find(rec, b).Some? && Find(rec, c).Some?
  }

  /** A record in which everything that a reset writes is there. */
  predicate Resettable(e: AggregationElements, rec: Record)
    requires Aligned(e)
  {
    && (forall i :: 0 <= i < |e.stats| && IsDelta(e.stats[i]) ==>
          HasAll(rec, e.stats[i], e.sourceStats[i], e.destinationStats[i]))
    && (forall i :: 0 <= i < |e.throughput| ==>
          HasAll(rec, e.throughput[i], e.sourceThroughput[i], e.destinationThroughput[i]))
  }

  lemma WipesExactly(rec: Record, a: string, b: string, c: string)
    ensures var x := TryWipeAll(rec, a, b, c);
            && (x.status == Done <==> HasAll(rec, a, b, c))
            && forall m :: Find(x.rec, m).Some? == Find(rec, m).Some?
  {
    hide Find, Wipe;
  }

  lemma {:induction false} ResetsStatsExactly(e: AggregationElements, rec: Record, i: nat)
    requires Aligned(e) && i <= |e.stats|
    ensures var a := TryResetStats(e, rec, i);
            && (a.status == Done <==> forall k :: i <= k < |e.stats| && IsDelta(e.stats[k]) ==>
                  HasAll(rec, e.stats[k], e.sourceStats[k], e.destinationStats[k]))
            && forall m :: Find(a.rec, m).Some? == Find(rec, m).Some?
    decreases |e.stats| - i
  {
    hide Find, TryWipeAll, IsDelta;
    if i < |e.stats| {
      if IsDelta(e.stats[i]) {
        WipesExactly(rec, e.stats[i], e.sourceStats[i], e.destinationStats[i]);
        ResetsStatsExactly(e, TryWipeAll(rec, e.stats[i], e.sourceStats[i], e.destinationStats[i]).rec, i + 1);
      } else {
        ResetsStatsExactly(e, rec, i + 1);
      }
    }
  }

  lemma {:induction false} ResetsRatesExactly(e: AggregationElements, rec: Record, i: nat)
    requires Aligned(e) && i <= |e.throughput|
    ensures TryResetThroughput(e, rec, i).status == Done <==>
            forall k :: i <= k < |e.throughput| ==>
              HasAll(rec, e.throughput[k], e.sourceThroughput[k], e.destinationThroughput[k])
    decreases |e.throughput| - i
  {
    hide Find, TryWipeAll;
    if i < |e.throughput| {
      WipesExactly(rec, e.throughput[i], e.sourceThroughput[i], e.destinationThroughput[i]);
      ResetsRatesExactly(e,
        TryWipeAll(rec, e.throughput[i], e.sourceThroughput[i], e.destinationThroughput[i]).rec, i + 1);
    }
  }

  /** A reset runs through exactly if everything that it writes is there, which it is in every stored record. */
  lemma ResetsExactly(e: AggregationElements, rec: Record)
    requires Aligned(e)
    ensures TryReset(e, rec).status == if Resettable(e, rec) then Done else Refused
    ensures Resettable(e, rec) ==> TryReset(e, rec).rec == Reset(e, rec)
    ensures Stored(e, rec) ==> Resettable(e, rec)
  {
    hide Find, TryResetStats, TryResetThroughput, ResetStats, ResetThroughput, IsDelta, NameOf;
    DoneResets(e, rec);
    ResetsStatsExactly(e, rec, 0);
    ResetsRatesExactly(e, TryResetStats(e, rec, 0).rec, 0);
    if Stored(e, rec) {
      forall k | 0 <= k < |e.stats|
        ensures HasAll(rec, e.stats[k], e.sourceStats[k], e.destinationStats[k])
      {
        assert HasStats(e, rec, k);
      }
      forall k | 0 <= k < |e.throughput|
        ensures HasAll(rec, e.throughput[k], e.sourceThroughput[k], e.destinationThroughput[k])
      {
        assert HasRates(e, rec, k);
      }
    }
  }

  // ---------- what a reset that stops has done ----------

  /** The field is there, with the empty value of its kind. */
  predicate Blank(rec: Record, m: string) {
    Find(rec, m).Some? && Find(rec, m).value.value == Zero(Find(rec, m).value.value)
  }

  lemma WipesBlank(rec: Record, a: string, b: string, c: string)
    ensures var x := TryWipeAll(rec, a, b, c).rec;
            && (HasAll(rec, a, b, c) ==> Blank(x, a) && Blank(x, b) && Blank(x, c))
            && forall m :: Blank(rec, m) ==> Blank(x, m)
  {
    hide Find, Wipe;
  }

  lemma {:induction false} StatsStayBlank(e: AggregationElements, rec: Record, i: nat, m: string)
    requires Aligned(e) && i <= |e.stats| && Blank(rec, m)
    ensures Blank(TryResetStats(e, rec, i).rec, m)
    decreases |e.stats| - i
  {
    hide Find, TryWipeAll, IsDelta, Blank;
    if i < |e.stats| {
      WipesBlank(rec, e.stats[i], e.sourceStats[i], e.destinationStats[i]);
      var a := TryWipeAll(rec, e.stats[i], e.sourceStats[i], e.destinationStats[i]);
      StatsStayBlank(e, if IsDelta(e.stats[i]) then a.rec else rec, i + 1, m);
    }
  }

  lemma {:induction false} RatesStayBlank(e: AggregationElements, rec: Record, i: nat, m: string)
    requires Aligned(e) && i <= |e.throughput| && Blank(rec, m)
    ensures Blank(TryResetThroughput(e, rec, i).rec, m)
    decreases |e.throughput| - i
  {
    hide Find, TryWipeAll, Blank;
    if i < |e.throughput| {
      WipesBlank(rec, e.throughput[i], e.sourceThroughput[i], e.destinationThroughput[i]);
      RatesStayBlank(e, TryWipeAll(rec, e.throughput[i], e.sourceThroughput[i], e.destinationThroughput[i]).rec, i + 1,
        m);
    }
  }

  lemma {:induction false} ReachesStat(e: AggregationElements, rec: Record, i: nat, k: nat)
    requires Aligned(e) && i <= k < |e.stats| && IsDelta(e.stats[k])
    requires forall j :: i <= j <= k && IsDelta(e.stats[j]) ==>
               HasAll(rec, e.stats[j], e.sourceStats[j], e.destinationStats[j])
    ensures var r := TryResetStats(e, rec, i).rec;
            Blank(r, e.stats[k]) && Blank(r, e.sourceStats[k]) && Blank(r, e.destinationStats[k])
    decreases |e.stats| - i
  {
    hide Find, TryWipeAll, IsDelta, Blank;
    var a := TryWipeAll(rec, e.stats[i], e.sourceStats[i], e.destinationStats[i]);
    WipesExactly(rec, e.stats[i], e.sourceStats[i], e.destinationStats[i]);
    if i < k {
      ReachesStat(e, if IsDelta(e.stats[i]) then a.rec else rec, i + 1, k);
    } else {
      WipesBlank(rec, e.stats[i], e.sourceStats[i], e.destinationStats[i]);
      StatsStayBlank(e, a.rec, i + 1, e.stats[k]);
      StatsStayBlank(e, a.rec, i + 1, e.sourceStats[k]);
      StatsStayBlank(e, a.rec, i + 1, e.destinationStats[k]);
    }
  }

  /** A reset, whether it runs through or not, has cleared the delta counters up to the first one that is missing. */
  lemma ResetReaches(e: AggregationElements, rec: Record, k: nat)
    requires Aligned(e) && k < |e.stats| && IsDelta(e.stats[k])
    requires forall j :: 0 <= j <= k && IsDelta(e.stats[j]) ==>
               HasAll(rec, e.stats[j], e.sourceStats[j], e.destinationStats[j])
    ensures var r := TryReset(e, rec).rec;
            Blank(r, e.stats[k]) && Blank(r, e.sourceStats[k]) && Blank(r, e.destinationStats[k])
  {
    hide Find, TryResetStats, TryResetThroughput, IsDelta, Blank, HasAll;
    ReachesStat(e, rec, 0, k);
    var a := TryResetStats(e, rec, 0).rec;
    RatesStayBlank(e, a, 0, e.stats[k]);
    RatesStayBlank(e, a, 0, e.sourceStats[k]);
    RatesStayBlank(e, a, 0, e.destinationStats[k]);
  }
}
