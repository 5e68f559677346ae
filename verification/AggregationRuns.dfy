/**
  Every run of the aggregation process: any interleaving of arriving records, expiry passes and
  resets, from the empty state, as any number of workers under one mutex can produce.
 */
module AggregationRuns {
  import opened Bytes
  import opened ExpiryHeap
  import opened FlowContent
  import opened FlowEffects
  import opened FlowAttempts
  import opened FlowOutcomes
  import opened FlowHistory
  import opened FlowReadiness
  import opened FlowCounters
  import opened FlowThroughput
  import opened Scheduling
  import opened ExpiryPass
  import opened ExpiryFate

  datatype Step =
    | Arrive(key: FlowKey, rec: Record, isIPv4: bool, now: int)
    | Expire(now: int, cb: Callback)
    | Clear(key: FlowKey)

  /** The state after a step, if there is one: a panic ends the process, and a pass whose loop does not end never gives
      the mutex back. */
  ghost function Next(c: Config, st: State, s: Step): Option<State>
    requires Aligned(c.rules.e) && Inv(st)
  {
    match s
    case Arrive(key, rec, v4, now) =>
      var (next, status) := Admit(c, st, key, rec, v4, now);
      if status == Panicked then None else Some(next)
    case Expire(now, cb) =>
      if Ends(c, st, now, cb, 0) then Some(ExpirePass(c, st, now, cb, 0).st) else None
    case Clear(key) => Some(ResetFlow(c, st, key))
  }

  lemma ArriveInv(c: Config, st: State, key: FlowKey, rec: Record, v4: bool, now: int)
    requires Aligned(c.rules.e) && Inv(st)
    ensures Inv(AddOrUpdate(c, st, key, rec, v4, now))
  {
    if key in st.flows {
      UpdateInv(c, st, key, rec, v4, now);
    } else {
      InsertInv(c, st, key, rec, v4, now);
    }
  }

  lemma UpdateInv(c: Config, st: State, key: FlowKey, rec: Record, v4: bool, now: int)
    requires Aligned(c.rules.e) && Inv(st) && key in st.flows
    ensures Inv(AddOrUpdate(c, st, key, rec, v4, now))
  {
    hide IsHeap, Touch, Apply, OneEach, Inv;
    var after := st.(queue := Touch(st.queue, key, now + c.inactiveTimeout));
    TouchInv(st, key, now + c.inactiveTimeout);
    MoreFlowsInv(after, st.flows[key := Apply(c.rules, st.flows[key], Received(rec))]);
  }

  lemma InsertInv(c: Config, st: State, key: FlowKey, rec: Record, v4: bool, now: int)
    requires Aligned(c.rules.e) && Inv(st) && key !in st.flows
    ensures Inv(AddOrUpdate(c, st, key, rec, v4, now))
  {
    hide IsHeap, Push, Open, OneEach;
    PushInv(st.flows[key := Open(c.rules, rec, v4)], st.queue,
      Entry(key, now + c.activeTimeout, now + c.inactiveTimeout));
  }

  /** Any record, refused ones too, keeps the invariant; a refused one touches neither the queue nor another flow. */
  lemma AdmitInv(c: Config, st: State, key: FlowKey, rec: Record, v4: bool, now: int)
    requires Aligned(c.rules.e) && Inv(st)
    ensures var (next, status) := Admit(c, st, key, rec, v4, now);
            && Inv(next)
            && (status != Done ==>
                  next.queue == st.queue && next.flows.Keys == st.flows.Keys && next.flows - {key} == st.flows - {key})
  {
    hide IsHeap, AddOrUpdate, Apply, TryMerge, TryOpened, OneEach;
    ArriveInv(c, st, key, rec, v4, now);
  }

  lemma NextInv(c: Config, st: State, s: Step)
    requires Aligned(c.rules.e) && Inv(st)
    ensures Next(c, st, s).Some? ==> Inv(Next(c, st, s).value)
  {
    hide IsHeap, Admit, ExpirePass, Apply, Ends, OneEach, Resetting;
    match s
    case Arrive(key, rec, v4, now) => AdmitInv(c, st, key, rec, v4, now);
    case Expire(now, cb) =>
      if Ends(c, st, now, cb, 0) {
        PassKeepsInv(c, st, now, cb, 0);
      }
    case Clear(key) =>
  }

  /** The state after a run that neither panics nor hangs. In every such run the queue is a min-heap that holds only
      keys of stored flows, each at most once. */
  ghost function Run(c: Config, steps: seq<Step>): (st: Option<State>)
    requires Aligned(c.rules.e)
    ensures st.Some? ==> Inv(st.value)
  {
    if steps == [] then Some(EMPTY)
    else
      var st := Run(c, steps[..|steps| - 1]);
      if st.None? then None
      else
        NextInv(c, st.value, steps[|steps| - 1]);
        Next(c, st.value, steps[|steps| - 1])
  }

  /** With an active timeout of zero or more no run hangs: only an arriving record can end it. */
  lemma OnlyPanicsEnd(c: Config, st: State, s: Step)
    requires Aligned(c.rules.e) && Inv(st) && c.activeTimeout >= 0
    ensures Next(c, st, s).None? ==> s.Arrive? && Admit(c, st, s.key, s.rec, s.isIPv4, s.now).1 == Panicked
  {
    hide Inv, Admit, ExpirePass, Ends, ResetFlow;
    if s.Expire? {
      NonNegativeEnds(c, st, s.now, s.cb, 0);
    }
  }

  lemma {:induction false} RunPrefix(c: Config, steps: seq<Step>, n: nat)
    requires Aligned(c.rules.e) && n <= |steps| && Run(c, steps).Some?
    ensures Run(c, steps[..n]).Some?
    decreases |steps|
  {
    hide Next;
    if n == |steps| {
      assert steps[..n] == steps;
    } else {
      var p := steps[..|steps| - 1];
      assert p[..n] == steps[..n];
      RunPrefix(c, p, n);
    }
  }

  // ---------- what every stored flow satisfies ----------

  /** A flow was retried only while it was not ready, called back only once it was, and not retried too often. */
  ghost predicate Disciplined(c: Config, f: Flow)
    requires Aligned(c.rules.e) && f.history != [] && f.history[0].Received?
  {
    && (forall j :: 0 < j < |f.history| && f.history[j].Retried? ==> !ReadyAt(c.rules, f, j))
    && (forall j :: 0 < j < |f.history| && f.history[j].CalledBack? ==> ReadyAt(c.rules, f, j))
    && (f.retries == 0 || f.retries <= c.maxRetries)
  }

  /** The flow was ready when event `j` came. */
  ghost predicate ReadyAt(r: Rules, f: Flow, j: nat)
    requires Aligned(r.e) && 0 < j < |f.history| && f.history[0].Received?
  {
    Replay(r, f.isIPv4, f.history[..j]).ready
  }

  /** A flow is what its history makes it. */
  ghost predicate Sound(c: Config, f: Flow)
    requires Aligned(c.rules.e)
  {
    && f.history != [] && f.history[0].Received?
    && f == Replay(c.rules, f.isIPv4, f.history) && Disciplined(c, f)
  }

  ghost predicate AllSound(c: Config, flows: map<FlowKey, Flow>)
    requires Aligned(c.rules.e)
  {
    forall key :: key in flows ==> Sound(c, flows[key])
  }

  lemma OpenSound(c: Config, rec: Record, v4: bool)
    requires Aligned(c.rules.e)
    ensures Sound(c, Open(c.rules, rec, v4))
  {
    hide Opened;
  }

  lemma ReplayExtends(r: Rules, v4: bool, h: seq<FlowEvent>, ev: FlowEvent)
    requires Aligned(r.e) && h != [] && h[0].Received?
    ensures Replay(r, v4, h + [ev]) == Apply(r, Replay(r, v4, h), ev)
  {
    hide Apply;
    assert (h + [ev])[..|h|] == h;
  }

  lemma DisciplineExtends(c: Config, f: Flow, g: Flow, ev: FlowEvent)
    requires Aligned(c.rules.e) && Sound(c, f) && g.history == f.history + [ev] && g.isIPv4 == f.isIPv4
    requires ev.Retried? ==> !f.ready
    requires ev.CalledBack? ==> f.ready
    requires g.retries == 0 || g.retries <= c.maxRetries
    ensures Disciplined(c, g)
  {
    hide Replay;
    var h := f.history;
    assert g.history[..|h|] == h;
    assert forall j :: 0 < j < |h| ==> g.history[j] == h[j] && g.history[..j] == h[..j];
    assert forall j :: 0 < j < |h| ==> ReadyAt(c.rules, g, j) == ReadyAt(c.rules, f, j);
  }

  /** An event that fits the flow's readiness keeps it sound. */
  lemma ApplySound(c: Config, f: Flow, ev: FlowEvent)
    requires Aligned(c.rules.e) && Sound(c, f)
    requires ev.Retried? ==> !f.ready && f.retries + 1 <= c.maxRetries
    requires ev.CalledBack? ==> f.ready
    ensures Sound(c, Apply(c.rules, f, ev))
  {
    hide Replay, Apply, Disciplined;
    ReplayExtends(c.rules, f.isIPv4, f.history, ev);
    RetriesAfter(c.rules, f, ev);
    assert Disciplined(c, f) ==> f.retries == 0 || f.retries <= c.maxRetries by { Bounded(c, f); }
    DisciplineExtends(c, f, Apply(c.rules, f, ev), ev);
  }

  lemma Bounded(c: Config, f: Flow)
    requires Aligned(c.rules.e) && f.history != [] && f.history[0].Received?
    ensures Disciplined(c, f) ==> f.retries == 0 || f.retries <= c.maxRetries
  {
  }

  lemma RetriesAfter(r: Rules, f: Flow, ev: FlowEvent)
    requires Aligned(r.e)
    ensures Apply(r, f, ev).retries == f.retries + if ev.Retried? then 1 else 0
  {
    hide Aggregate, Correlate, Correlating, TryAggregate, TryCorrelate, TryReset, Reset, Harmless, ReadableType,
      ReadableNodes, ReadableNode, Fills;
  }

  lemma HandOverSound(c: Config, f: Flow, res: CallbackResult)
    requires Aligned(c.rules.e) && Sound(c, f) && f.ready
    ensures Sound(c, HandOver(c, f, res))
  {
    hide Sound, Apply;
    var g := Apply(c.rules, f, CalledBack(res.correlated));
    ApplySound(c, f, CalledBack(res.correlated));
    RewriteSound(c, g, res.record);
  }

  lemma RewriteSound(c: Config, f: Flow, rec: Record)
    requires Aligned(c.rules.e) && Sound(c, f)
    ensures Sound(c, Rewrite(c.rules, f, rec))
  {
    hide Sound, Apply, Harmless, Reset;
    ApplySound(c, f, Annotated(rec));
    ApplySound(c, f, Cleared);
    ApplySound(c, Apply(c.rules, f, Cleared), Annotated(rec));
    ApplySound(c, f, Edited(rec));
  }

  lemma DecideSound(c: Config, f: Flow, e: Entry, now: int, cb: Callback, calls: nat)
    requires Aligned(c.rules.e) && Sound(c, f)
    ensures var d := Decide(c, f, e, now, cb, calls); d.flow.Some? ==> Sound(c, d.flow.value)
  {
    hide Sound, HandOver, Merge, Reset;
    if f.ready {
      HandOverSound(c, f, cb(calls, e.key, f.record, f.correlated));
    } else if f.retries + 1 <= c.maxRetries {
      ApplySound(c, f, Retried);
    }
  }

  lemma {:induction false} PassSound(c: Config, st: State, now: int, cb: Callback, calls: nat)
    requires Aligned(c.rules.e) && Inv(st) && Ends(c, st, now, cb, calls) && AllSound(c, st.flows)
    ensures AllSound(c, ExpirePass(c, st, now, cb, calls).st.flows)
    decreases Left(c, st, now, cb, calls)
  {
    hide Sound, IsHeap, Pop, Push, Decide, Left, Ends;
    if !Over(st, now) {
      PassStep(c, st, now, cb, calls);
      var (next, p) := ExpireOne(c, st, now, cb, calls);
      DecideSound(c, st.flows[p.entry.key], p.entry, now, cb, calls);
      if !p.act.Fail? {
        PassSound(c, next, now, cb, CallsAfter(p, calls));
      }
    }
  }

  /** In every run, whatever the records and the callbacks, every stored flow is the replay of what happened to it since
      it was opened, was never called back before it was ready, and was never retried after. */
  lemma {:induction false} RunSound(c: Config, steps: seq<Step>)
    requires Aligned(c.rules.e) && Run(c, steps).Some?
    ensures AllSound(c, Run(c, steps).value.flows)
  {
    hide AllSound, Next, Inv;
    if steps == [] {
      NothingSound(c);
    } else {
      var n := |steps| - 1;
      RunSound(c, steps[..n]);
      NextSound(c, Run(c, steps[..n]).value, steps[n]);
    }
  }

  lemma NothingSound(c: Config)
    requires Aligned(c.rules.e)
    ensures AllSound(c, EMPTY.flows)
  {
    hide Sound;
  }

  lemma NextSound(c: Config, st: State, s: Step)
    requires Aligned(c.rules.e) && Inv(st) && AllSound(c, st.flows) && Next(c, st, s).Some?
    ensures AllSound(c, Next(c, st, s).value.flows)
  {
    hide Sound, IsHeap, Push, Touch, Apply, Open, ExpirePass, Ends, TryMerge, TryOpened, TryReset;
    match s
    case Arrive(key, rec, v4, now) =>
      if key in st.flows {
        ApplySound(c, st.flows[key], Received(rec));
        ApplySound(c, st.flows[key], Spoilt(rec));
      } else {
        OpenSound(c, rec, v4);
      }
    case Expire(now, cb) => PassSound(c, st, now, cb, 0);
    case Clear(key) =>
      if key in st.flows {
        ApplySound(c, st.flows[key], Cleared);
        ApplySound(c, st.flows[key], HalfCleared);
      }
  }

  /** For every delta statistic and node, what was handed over plus what is held is what was reported. */
  ghost predicate Conserved(r: Rules, f: Flow)
    requires Aligned(r.e) && f.history != [] && f.history[0].Received?
  {
    forall node: Node, k: nat {:trigger Reported(r.e, f.history, node, k)} ::
      k < |r.e.stats| && IsDelta(r.e.stats[k]) ==>
      (Handed(r, f.isIPv4, f.history, node, k) + Get64(f.record, Side(r.e, node, k))) % TWO64
      == Reported(r.e, f.history, node, k) % TWO64
  }

  lemma ProperConserved(r: Rules, f: Flow)
    requires Proper(r, f.history) && f == Replay(r, f.isIPv4, f.history)
    ensures Conserved(r, f)
  {
    hide Usable, Incoming, Replay, Reported, Handed, IsDelta, Get64, Side;
    forall node: Node, k: nat | k < |r.e.stats| && IsDelta(r.e.stats[k])
      ensures (Handed(r, f.isIPv4, f.history, node, k) + Get64(f.record, Side(r.e, node, k))) % TWO64
              == Reported(r.e, f.history, node, k) % TWO64
    {
      DeltaConservation(r, f.isIPv4, f.history, node, k);
    }
  }

  /** Common totals are maxima, per-node totals the last accepted ones, and the end reason and the connection state,
      where no correlation writes them, are those of the accepted records. */
  ghost predicate Counted(r: Rules, f: Flow)
    requires Aligned(r.e) && f.history != [] && f.history[0].Received?
  {
    && (forall k :: 0 <= k < |r.e.stats| && !IsDelta(r.e.stats[k]) ==>
          && IsLargestTotal(f.history, r.e.stats[k], Get64(f.record, r.e.stats[k]))
          && Get64(f.record, Side(r.e, Source, k)) == LastTotal(f.history, Source, r.e.stats[k])
          && Get64(f.record, Side(r.e, Destination, k)) == LastTotal(f.history, Destination, r.e.stats[k]))
    && (FLOW_END_REASON in r.e.nonStats && FLOW_END_REASON !in r.fields ==>
          (Get8(f.record, FLOW_END_REASON) == END_OF_FLOW <==> Ended(f.history)))
    && (TCP_STATE in r.e.nonStats && TCP_STATE !in r.fields ==> GetText(f.record, TCP_STATE) == LastState(f.history))
  }

  lemma ProperCounted(r: Rules, f: Flow)
    requires Proper(r, f.history) && f == Replay(r, f.isIPv4, f.history)
    ensures Counted(r, f)
  {
    hide Usable, Incoming, Replay, IsDelta, Get64, Get8, GetText, Side, IsLargestTotal, LastTotal, Ended, LastState,
      NameOf;
    forall k | 0 <= k < |r.e.stats| && !IsDelta(r.e.stats[k])
      ensures IsLargestTotal(f.history, r.e.stats[k], Get64(f.record, r.e.stats[k]))
      ensures Get64(f.record, Side(r.e, Source, k)) == LastTotal(f.history, Source, r.e.stats[k])
      ensures Get64(f.record, Side(r.e, Destination, k)) == LastTotal(f.history, Destination, r.e.stats[k])
    {
      TotalIsMaximum(r, f.isIPv4, f.history, k);
      CounterIsLastTotal(r, f.isIPv4, f.history, Source, k);
      CounterIsLastTotal(r, f.isIPv4, f.history, Destination, k);
    }
    if FLOW_END_REASON in r.e.nonStats && FLOW_END_REASON !in r.fields {
      EndReasonAbsorbs(r, f.isIPv4, f.history);
    }
    if TCP_STATE in r.e.nonStats && TCP_STATE !in r.fields {
      StateIsLatest(r, f.isIPv4, f.history);
    }
  }

  /** In every run, for every stored flow whose own history is proper, whatever happened to the others: delta counters
      are conserved, totals are maxima and the last ones accepted, end times are the largest and last received, the end
      reason and the state are those of the accepted records, and the flow is ready exactly when both required sides
      have reported. */
  lemma ReachableFlows(c: Config, steps: seq<Step>, key: FlowKey)
    requires Aligned(c.rules.e) && Run(c, steps).Some?
    requires var flows := Run(c, steps).value.flows; key in flows && Proper(c.rules, flows[key].history)
    ensures var f := Run(c, steps).value.flows[key];
            && f.history != [] && f.history[0].Received?
            && EndsAre(f.record, f.history) && (f.ready <==> Complete(f.history)) && Conserved(c.rules, f)
            && Counted(c.rules, f)
  {
    hide Run, Usable, Incoming, Disciplined, Complete, EndsAre, Conserved, Counted, NameOf, Find;
    RunSound(c, steps);
    var f := Run(c, steps).value.flows[key];
    assert Sound(c, f);
    EndTimes(c.rules, f.isIPv4, f.history);
    ReadyMeansComplete(c.rules, f.isIPv4, f.history);
    ProperConserved(c.rules, f);
    ProperCounted(c.rules, f);
  }

  // ---------- which runs give a flow a proper history ----------

  /** A callback that, of a flow, leaves the record as it is or resets it, and beyond that changes only fields that the
      aggregation does not use. */
  ghost predicate Careful(c: Config, cb: Callback, key: FlowKey)
    requires Aligned(c.rules.e)
  {
    forall n, rec, flag ::
      var after := cb(n, key, rec, flag).record;
      Harmless(c.rules.e, rec, after) || Harmless(c.rules.e, Reset(c.rules.e, rec), after)
  }

  /** What a step may do to a flow: bring a record as nodes send it, or call back a careful callback. What it does to
      other flows does not matter. */
  ghost predicate Admissible(c: Config, s: Step, key: FlowKey)
    requires Aligned(c.rules.e)
  {
    match s
    case Arrive(k, rec, _, _) => k == key ==> Incoming(c.rules.e, rec)
    case Expire(_, cb) => Careful(c, cb, key)
    case Clear(_) => true
  }

  ghost predicate KeptProper(c: Config, st: State, key: FlowKey) {
    key in st.flows ==> Proper(c.rules, st.flows[key].history)
  }

  lemma ProperExtends(r: Rules, h: seq<FlowEvent>, ev: FlowEvent)
    requires Proper(r, h) && Orderly(ev) && (ev.Received? ==> Incoming(r.e, ev.rec))
    ensures Proper(r, h + [ev])
  {
    hide Usable, Incoming;
    var g := h + [ev];
    assert forall k :: 0 <= k < |h| ==> g[k] == h[k];
  }

  lemma HandOverProper(c: Config, f: Flow, res: CallbackResult)
    requires Aligned(c.rules.e) && Proper(c.rules, f.history)
    requires Harmless(c.rules.e, f.record, res.record) || Harmless(c.rules.e, Reset(c.rules.e, f.record), res.record)
    ensures Proper(c.rules, HandOver(c, f, res).history)
  {
    hide Proper, Harmless, Reset;
    var h := f.history;
    var called := CalledBack(res.correlated);
    ProperExtends(c.rules, h, called);
    ProperExtends(c.rules, h + [called], Annotated(res.record));
    ProperExtends(c.rules, h + [called], Cleared);
    ProperExtends(c.rules, h + [called] + [Cleared], Annotated(res.record));
  }

  lemma DecideProper(c: Config, f: Flow, e: Entry, now: int, cb: Callback, calls: nat)
    requires Aligned(c.rules.e) && Proper(c.rules, f.history) && Careful(c, cb, e.key)
    ensures var d := Decide(c, f, e, now, cb, calls); d.flow.Some? ==> Proper(c.rules, d.flow.value.history)
  {
    hide Proper, HandOver, Harmless, Reset;
    if f.ready {
      HandOverProper(c, f, cb(calls, e.key, f.record, f.correlated));
    } else {
      ProperExtends(c.rules, f.history, Retried);
    }
  }

  lemma {:induction false} PassProper(c: Config, st: State, now: int, cb: Callback, calls: nat, key: FlowKey)
    requires Aligned(c.rules.e) && Inv(st) && Ends(c, st, now, cb, calls) && KeptProper(c, st, key)
    requires Careful(c, cb, key)
    ensures KeptProper(c, ExpirePass(c, st, now, cb, calls).st, key)
    decreases Left(c, st, now, cb, calls)
  {
    hide Proper, IsHeap, Pop, Push, Decide, Left, Ends, Careful;
    if !Over(st, now) {
      PassStep(c, st, now, cb, calls);
      var (next, p) := ExpireOne(c, st, now, cb, calls);
      if p.entry.key == key {
        DecideProper(c, st.flows[key], p.entry, now, cb, calls);
      }
      if !p.act.Fail? {
        PassProper(c, next, now, cb, CallsAfter(p, calls), key);
      }
    }
  }

  lemma NextProper(c: Config, st: State, s: Step, key: FlowKey)
    requires Aligned(c.rules.e) && Usable(c.rules.e) && Inv(st) && AllSound(c, st.flows) && KeptProper(c, st, key)
    requires Admissible(c, s, key) && Next(c, st, s).Some?
    ensures KeptProper(c, Next(c, st, s).value, key)
  {
    hide IsHeap, Push, Touch, Apply, Replay, Disciplined, ExpirePass, Ends, TryMerge, TryOpened, TryReset, Careful,
      Usable, Incoming, Proper;
    match s
    case Arrive(k, rec, v4, now) =>
      if k == key && key in st.flows {
        assert Sound(c, st.flows[key]);
        NeverRefused(c.rules, st.flows[key], rec);
        ProperExtends(c.rules, st.flows[key].history, Received(rec));
      } else if k == key {
        OpensProper(c.rules, rec, v4);
      }
    case Expire(now, cb) => PassProper(c, st, now, cb, 0, key);
    case Clear(k) =>
      if k == key && key in st.flows {
        assert Sound(c, st.flows[key]);
        AlwaysCleared(c, st.flows[key]);
        ProperExtends(c.rules, st.flows[key].history, Cleared);
      }
  }

  lemma OpensProper(r: Rules, rec: Record, v4: bool)
    requires Aligned(r.e) && Usable(r.e) && Incoming(r.e, rec)
    ensures Proper(r, Open(r, rec, v4).history)
  {
    hide Usable, Incoming, Opened;
  }

  /** A record as nodes send it is never refused by a flow of proper history, and is merged unless the code panics on
      its flow type, its pods or a correlate field. */
  lemma NeverRefused(r: Rules, f: Flow, rec: Record)
    requires Proper(r, f.history) && f == Replay(r, f.isIPv4, f.history) && Incoming(r.e, rec)
    ensures TryMerge(r, f, rec).1 != Refused
  {
    hide Proper, Replay, Usable, Incoming, Stored, TryCorrelate, TryAggregate, Correlating, ReadableType,
      ReadableNodes, ReadableNode, Fills, Fit;
    ProperIsUsable(r, f.history);
    AlwaysStored(r, f.isIPv4, f.history);
    DoneCorrelates(r.fields, rec, f.record, 0);
    BaseKeeps(r, f, rec);
    IncomingIsFit(r.e, rec, Base(r, f, rec), Fills(rec, Source), Fills(rec, Destination));
    MergesExactly(r.e, rec, Base(r, f, rec), Fills(rec, Source), Fills(rec, Destination));
  }

  lemma ProperIsUsable(r: Rules, h: seq<FlowEvent>)
    requires Proper(r, h)
    ensures Usable(r.e) && Aligned(r.e)
  {
    hide Usable, Incoming;
  }

  lemma AlwaysCleared(c: Config, f: Flow)
    requires Proper(c.rules, f.history) && f == Replay(c.rules, f.isIPv4, f.history)
    ensures Resetting(c, f) == Cleared
  {
    hide Replay, Usable, Incoming, Stored, TryReset, Resettable;
    AlwaysStored(c.rules, f.isIPv4, f.history);
    ResetsExactly(c.rules.e, f.record);
  }

  /** A flow has a proper history if every step of the run is admissible for its key, whatever the steps do to other
      flows. */
  lemma {:induction false} RunProper(c: Config, steps: seq<Step>, key: FlowKey)
    requires Usable(c.rules.e) && Run(c, steps).Some?
    requires forall i :: 0 <= i < |steps| ==> Admissible(c, steps[i], key)
    ensures KeptProper(c, Run(c, steps).value, key)
  {
    hide AllSound, Next, Inv, Admissible, Assigns, Describes;
    if steps != [] {
      var n := |steps| - 1;
      RunProper(c, steps[..n], key);
      RunSound(c, steps[..n]);
      NextProper(c, Run(c, steps[..n]).value, steps[n], key);
    }
  }

  /** How often a flow was due before it was ready. */
  function Retries(h: seq<FlowEvent>): nat {
    if h == [] then 0 else Retries(h[..|h| - 1]) + if h[|h| - 1].Retried? then 1 else 0
  }

  lemma {:induction false} RetriesCounted(r: Rules, v4: bool, h: seq<FlowEvent>)
    requires Aligned(r.e) && h != [] && h[0].Received?
    ensures Replay(r, v4, h).retries == Retries(h)
  {
    hide Apply, Opened, CorrelationRequired;
    var n := |h| - 1;
    if n == 0 {
      assert h[..0] == [];
    } else {
      RetriesCounted(r, v4, h[..n]);
      RetriesAfter(r, Replay(r, v4, h[..n]), h[n]);
    }
  }

  /** In every run, a flow that is due and not ready is not called back; it stays exactly if both timeouts are positive
      and it was due that way fewer than `maxRetries` times before, so with positive timeouts it goes at its
      (maxRetries + 1)-th expiry. */
  lemma RemovedAtLastExpiry(c: Config, steps: seq<Step>, now: int, cb: Callback, e: Entry)
    requires Aligned(c.rules.e) && Run(c, steps).Some? && Ends(c, Run(c, steps).value, now, cb, 0)
    requires var st := Run(c, steps).value;
             e in multiset(st.queue) && e.key in st.flows && Due(e, now) && !st.flows[e.key].ready
    ensures var st := Run(c, steps).value;
            var res, before := ExpirePass(c, st, now, cb, 0), Retries(st.flows[e.key].history);
            && CallsFor(res.log, e.key) == 0 && (before == 0 || before <= c.maxRetries)
            && (!res.failed ==>
                  (e.key in res.st.flows <==> before < c.maxRetries && c.activeTimeout > 0 && c.inactiveTimeout > 0))
  {
    hide Run, ExpirePass, IsHeap, Replay, CallsFor, Retries, Ends;
    RunSound(c, steps);
    var st := Run(c, steps).value;
    var f := st.flows[e.key];
    assert Sound(c, f);
    RetriesCounted(c.rules, f.isIPv4, f.history);
    NeverReadyIsRemoved(c, st, now, cb, e);
  }

  // ---------- runs in which every flow can still expire ----------

  /** A stored flow that is out of the queue. */
  ghost predicate Lost(st: State, key: FlowKey) {
    key in st.flows && EntryOf(multiset(st.queue), key).None?
  }

  /** A pass leaves a lost flow as it is and does not call it back, failed or not. */
  lemma PassKeepsLost(c: Config, st: State, now: int, cb: Callback, key: FlowKey)
    requires Aligned(c.rules.e) && Inv(st) && Ends(c, st, now, cb, 0) && Lost(st, key)
    ensures var res := ExpirePass(c, st, now, cb, 0); Lost(res.st, key) && CallsFor(res.log, key) == 0
  {
    hide ExpirePass, IsHeap, Ends, CallsFor, EntryOf;
    var res := ExpirePass(c, st, now, cb, 0);
    assert forall e :: SpinsAt(st, e, now) && e.key == key ==> Queued(multiset(st.queue), key, e);
    PassIsPointwise(c, st, now, cb, 0, key);
    if res.failed {
      FailedOther(c, st, now, cb, key);
    }
  }

  /** The callback that failed was that of a flow that had one to come. */
  lemma FailedOther(c: Config, st: State, now: int, cb: Callback, key: FlowKey)
    requires Aligned(c.rules.e) && Inv(st) && Ends(c, st, now, cb, 0)
    requires ExpirePass(c, st, now, cb, 0).failed && CallsFor(ExpirePass(c, st, now, cb, 0).log, key) == 0
    ensures Spared(ExpirePass(c, st, now, cb, 0), key)
  {
    hide ExpirePass, IsHeap, Ends, CallsFor, EntryOf;
    FailureDrops(c, st, now, cb, 0);
    var log := ExpirePass(c, st, now, cb, 0).log;
    if log[|log| - 1].entry.key == key {
      LastCall(log, key);
    }
  }

  lemma {:induction false} LastCall(log: seq<Popped>, key: FlowKey)
    requires log != [] && log[|log| - 1].entry.key == key && log[|log| - 1].act.Fail?
    ensures CallsFor(log, key) >= 1
  {
    if |log| > 1 {
      LastCall(log[1..], key);
    }
  }

  lemma TouchKeepsLost(st: State, flows: map<FlowKey, Flow>, k: FlowKey, inactive: int, key: FlowKey)
    requires Inv(st) && Lost(st, key) && flows.Keys == st.flows.Keys
    ensures Lost(State(flows, Touch(st.queue, k, inactive)), key)
  {
    hide IsHeap, EntryOf, Touch, OneEach;
    TouchInv(st, k, inactive);
    var i, m := IndexOf(st.queue, k), multiset(st.queue);
    forall e | Queued(multiset(Touch(st.queue, k, inactive)), key, e)
      ensures Queued(m, key, if e in m then e else st.queue[i])
    {
    }
  }

  lemma PushKeepsLost(st: State, flows: map<FlowKey, Flow>, x: Entry, key: FlowKey)
    requires Inv(st) && Lost(st, key) && flows.Keys == st.flows.Keys + {x.key} && x.key != key
    ensures Lost(State(flows, Push(st.queue, x)), key)
  {
    hide IsHeap, EntryOf, Push, OneEach;
    PushRestores(st.queue, x);
    assert forall e :: Queued(multiset(Push(st.queue, x)), key, e) ==> Queued(multiset(st.queue), key, e);
  }

  lemma ArriveKeepsLost(c: Config, st: State, k: FlowKey, rec: Record, v4: bool, now: int, key: FlowKey)
    requires Aligned(c.rules.e) && Inv(st) && Lost(st, key)
    ensures Lost(AddOrUpdate(c, st, k, rec, v4, now), key)
  {
    hide Inv, Push, Apply, Open, Touch, EntryOf;
    var next := AddOrUpdate(c, st, k, rec, v4, now);
    if k in st.flows {
      TouchKeepsLost(st, next.flows, k, now + c.inactiveTimeout, key);
    } else {
      PushKeepsLost(st, next.flows, Entry(k, now + c.activeTimeout, now + c.inactiveTimeout), key);
    }
  }

  /** Once lost, a flow is lost for ever: no step gives it back a place in the queue or removes it. */
  lemma LostForEver(c: Config, st: State, s: Step, key: FlowKey)
    requires Aligned(c.rules.e) && Inv(st) && Lost(st, key) && Next(c, st, s).Some?
    ensures Lost(Next(c, st, s).value, key)
  {
    hide IsHeap, EntryOf, ExpirePass, AddOrUpdate, Apply, Ends, TryMerge, TryOpened, Resetting;
    match s
    case Arrive(k, rec, v4, now) => ArriveKeepsLost(c, st, k, rec, v4, now, key);
    case Expire(now, cb) => PassKeepsLost(c, st, now, cb, key);
    case Clear(_) =>
  }

  /** The step loses a flow: it is a pass in which a callback fails or a ready flow meets `Dropped`. */
  ghost predicate Loses(c: Config, st: State, s: Step)
    requires Aligned(c.rules.e) && Inv(st)
  {
    s.Expire? && Ends(c, st, s.now, s.cb, 0) &&
    (ExpirePass(c, st, s.now, s.cb, 0).failed ||
     exists e :: e in multiset(st.queue) && st.flows[e.key].ready && Dropped(c, e, s.now))
  }

  lemma TouchKeepsAllQueued(st: State, flows: map<FlowKey, Flow>, key: FlowKey, inactive: int)
    requires Inv(st) && AllQueued(st) && flows.Keys == st.flows.Keys
    ensures AllQueued(State(flows, Touch(st.queue, key, inactive)))
  {
    hide IsHeap, EntryOf, Touch;
    TouchInv(st, key, inactive);
    var q, i, m := st.queue, IndexOf(st.queue, key), multiset(Touch(st.queue, key, inactive));
    forall k | k in flows
      ensures EntryOf(m, k).Some?
    {
      var e := EntryOf(multiset(q), k).value;
      assert Queued(m, k, if i >= 0 && e == q[i] then q[i].(inactive := inactive) else e);
    }
  }

  lemma PushKeepsAllQueued(st: State, flows: map<FlowKey, Flow>, x: Entry)
    requires Inv(st) && AllQueued(st) && flows.Keys == st.flows.Keys + {x.key}
    ensures AllQueued(State(flows, Push(st.queue, x)))
  {
    hide IsHeap, EntryOf, Push;
    PushRestores(st.queue, x);
    var m := multiset(Push(st.queue, x));
    forall k | k in flows
      ensures EntryOf(m, k).Some?
    {
      assert Queued(m, k, if k == x.key then x else EntryOf(multiset(st.queue), k).value);
    }
  }

  lemma ArriveKeepsAllQueued(c: Config, st: State, key: FlowKey, rec: Record, v4: bool, now: int)
    requires Aligned(c.rules.e) && Inv(st) && AllQueued(st)
    ensures AllQueued(AddOrUpdate(c, st, key, rec, v4, now))
  {
    hide Inv, AllQueued, Push, Apply, Open, Touch;
    var next := AddOrUpdate(c, st, key, rec, v4, now);
    if key in st.flows {
      TouchKeepsAllQueued(st, next.flows, key, now + c.inactiveTimeout);
    } else {
      PushKeepsAllQueued(st, next.flows, Entry(key, now + c.activeTimeout, now + c.inactiveTimeout));
    }
  }

  lemma StepAllQueued(c: Config, st: State, s: Step)
    requires Aligned(c.rules.e) && Inv(st) && Next(c, st, s).Some? && AllQueued(st)
    ensures AllQueued(Next(c, st, s).value) <==> !Loses(c, st, s)
  {
    hide IsHeap, EntryOf, ExpirePass, AddOrUpdate, Apply, Ends, TryMerge, TryOpened, Resetting, Dropped;
    match s
    case Arrive(key, rec, v4, now) => ArriveKeepsAllQueued(c, st, key, rec, v4, now);
    case Expire(now, cb) =>
      PassKeepsAllQueued(c, st, now, cb);
      FailureDrops(c, st, now, cb, 0);
    case Clear(_) =>
  }

  /** In every run stored flows and queue entries are in bijection exactly if no step of it lost a flow, that is, if no
      callback failed and no due ready flow had a deadline equal to the clock or an active timeout of zero. */
  lemma {:induction false} AllQueuedExactly(c: Config, steps: seq<Step>)
    requires Aligned(c.rules.e) && Run(c, steps).Some?
    ensures AllQueued(Run(c, steps).value) <==>
            forall i :: 0 <= i < |steps| ==>
              Run(c, steps[..i]).Some? && !Loses(c, Run(c, steps[..i]).value, steps[i])
    ensures AllQueued(Run(c, steps).value) ==> |Run(c, steps).value.flows| == |Run(c, steps).value.queue|
  {
    hide Inv, Next, Loses, EntryOf, AllQueued;
    if AllQueued(Run(c, steps).value) {
      AsManyEntries(Run(c, steps).value);
    }
    if steps == [] {
      NothingQueued();
    } else {
      var n := |steps| - 1;
      var p := steps[..n];
      var st := Run(c, p).value;
      AllQueuedExactly(c, p);
      forall i | 0 <= i <= n
        ensures p[..i] == steps[..i] && Run(c, steps[..i]).Some?
      {
        RunPrefix(c, steps, i);
      }
      if AllQueued(st) {
        StepAllQueued(c, st, steps[n]);
      } else {
        StillLost(c, st, steps[n]);
      }
      assert (forall i :: 0 <= i < n ==> !Loses(c, Run(c, p[..i]).value, p[i])) <==> AllQueued(st);
    }
  }

  lemma StillLost(c: Config, st: State, s: Step)
    requires Aligned(c.rules.e) && Inv(st) && Next(c, st, s).Some? && !AllQueued(st)
    ensures !AllQueued(Next(c, st, s).value)
  {
    hide Inv, EntryOf, Next;
    var key :| key in st.flows && EntryOf(multiset(st.queue), key).None?;
    LostForEver(c, st, s, key);
  }

  /** A pass whose callbacks succeed and in which no deadline equals the clock. */
  ghost predicate Smooth(st: State, s: Step) {
    s.Expire? ==>
      Obliging(s.cb) && forall e :: e in multiset(st.queue) ==> e.active != s.now && e.inactive != s.now
  }

  /** In every run with a positive active timeout, successful callbacks and no deadline equal to the clock of a pass,
      stored flows and queue entries are in bijection: no flow is left that can never expire. */
  lemma RunAllQueued(c: Config, steps: seq<Step>)
    requires Aligned(c.rules.e) && c.activeTimeout > 0 && Run(c, steps).Some?
    requires forall i :: 0 <= i < |steps| ==> Run(c, steps[..i]).Some? && Smooth(Run(c, steps[..i]).value, steps[i])
    ensures AllQueued(Run(c, steps).value) && |Run(c, steps).value.flows| == |Run(c, steps).value.queue|
  {
    hide Run, Smooth, Inv, AllQueued, Loses;
    AllQueuedExactly(c, steps);
    forall i | 0 <= i < |steps|
      ensures !Loses(c, Run(c, steps[..i]).value, steps[i])
    {
      SmoothLosesNone(c, Run(c, steps[..i]).value, steps[i]);
    }
  }

  lemma SmoothLosesNone(c: Config, st: State, s: Step)
    requires Aligned(c.rules.e) && c.activeTimeout > 0 && Inv(st) && Smooth(st, s)
    ensures !Loses(c, st, s)
  {
    hide IsHeap, ExpirePass, EntryOf, Dropped, Ends;
    if s.Expire? && Ends(c, st, s.now, s.cb, 0) {
      ObligingPassSucceeds(c, st, s.now, s.cb, 0);
      NoTieNoDrop(c, st, s.now);
    }
  }

  function KeysOf(q: seq<Entry>): set<FlowKey> {
    set e | e in q :: e.key
  }

  lemma LastKeyIsNew(p: seq<Entry>, x: Entry)
    requires OneEach(multiset(p + [x]))
    ensures OneEach(multiset(p)) && x.key !in KeysOf(p)
  {
    var m, n := multiset(p + [x]), multiset(p);
    assert m == n + multiset{x};
    forall y | y in p
      ensures n[y] == 1 && y in m && y.key != x.key
    {
      assert y in m && m[y] == n[y] + if y == x then 1 else 0;
    }
  }

  /** A queue that holds each key at most once has as many keys as entries. */
  lemma {:induction false} OneKeyEach(q: seq<Entry>)
    requires OneEach(multiset(q))
    ensures |KeysOf(q)| == |q|
  {
    hide OneEach;
    if q != [] {
      var p, x := q[..|q| - 1], q[|q| - 1];
      assert q == p + [x];
      LastKeyIsNew(p, x);
      OneKeyEach(p);
      assert KeysOf(q) == KeysOf(p) + {x.key};
    }
  }

  lemma AsManyEntries(st: State)
    requires Inv(st) && AllQueued(st)
    ensures |st.flows| == |st.queue|
  {
    hide IsHeap, EntryOf;
    OneKeyEach(st.queue);
    forall key
      ensures key in st.flows <==> key in KeysOf(st.queue)
    {
      if key in st.flows {
        assert Queued(multiset(st.queue), key, EntryOf(multiset(st.queue), key).value);
      }
    }
    assert st.flows.Keys == KeysOf(st.queue);
    assert |st.flows| == |st.flows.Keys|;
  }

  lemma RunOfTwo(c: Config, a: Step, b: Step)
    requires Aligned(c.rules.e) && Inv(EMPTY)
    ensures Run(c, [a]) == Next(c, EMPTY, a)
    ensures Run(c, [a, b]) == if Run(c, [a]).Some? then Next(c, Run(c, [a]).value, b) else None
  {
    hide Next, Inv;
    assert [a, b][..1] == [a] && [a][..0] == [];
    assert Run(c, []) == Some(EMPTY);
  }

  /** The state after a record that needs no correlation has opened the first flow. */
  lemma FirstArrival(c: Config, key: FlowKey, rec: Record, v4: bool, t: int)
    requires Aligned(c.rules.e) && TryOpened(c.rules.e, rec).status == Done && !CorrelationRequired(rec)
    ensures Inv(EMPTY) && Next(c, EMPTY, Arrive(key, rec, v4, t)).Some?
    ensures var st := Next(c, EMPTY, Arrive(key, rec, v4, t)).value;
            var e := Entry(key, t + c.activeTimeout, t + c.inactiveTimeout);
            && Inv(st) && AllQueued(st) && e in multiset(st.queue)
            && key in st.flows && st.flows[key] == Open(c.rules, rec, v4) && st.flows[key].ready
  {
    hide Opened, Push, IsHeap, OneEach, EntryOf, AllQueued, TryOpened, CorrelationRequired, Get8, NameOf;
    NothingQueued();
    ArriveInv(c, EMPTY, key, rec, v4, t);
    PushRestores([], Entry(key, t + c.activeTimeout, t + c.inactiveTimeout));
    ArriveKeepsAllQueued(c, EMPTY, key, rec, v4, t);
  }

  lemma NothingQueued()
    ensures Inv(EMPTY) && AllQueued(EMPTY)
  {
  }

  /** The condition on ties is needed: a run of two steps leaves a flow that can never expire. A record that needs no
      correlation arrives, and the next pass comes just when its inactive deadline does. */
  lemma TieLosesFlow(c: Config, key: FlowKey, rec: Record, v4: bool, t: int, cb: Callback)
    requires Aligned(c.rules.e) && 0 <= c.inactiveTimeout < c.activeTimeout && Obliging(cb)
    requires TryOpened(c.rules.e, rec).status == Done && !CorrelationRequired(rec)
    ensures var st := Run(c, [Arrive(key, rec, v4, t), Expire(t + c.inactiveTimeout, cb)]);
            st.Some? && !AllQueued(st.value)
  {
    hide Open, CorrelationRequired, Inv, ExpirePass, AllQueued, Ends, Run, TryOpened, Admit;
    var first, second := Arrive(key, rec, v4, t), Expire(t + c.inactiveTimeout, cb);
    FirstArrival(c, key, rec, v4, t);
    var st, e := Next(c, EMPTY, first).value, Entry(key, t + c.activeTimeout, t + c.inactiveTimeout);
    RunOfTwo(c, first, second);
    assert Dropped(c, e, second.now);
    NonNegativeEnds(c, st, second.now, cb, 0);
    ObligingPassSucceeds(c, st, second.now, cb, 0);
    PassKeepsAllQueued(c, st, second.now, cb);
  }

  /** The condition on the active timeout is needed: with a negative one a record that needs no correlation arrives,
      and the next pass never ends. */
  lemma NegativeTimeoutHangs(c: Config, key: FlowKey, rec: Record, v4: bool, t: int, cb: Callback)
    requires Aligned(c.rules.e) && c.activeTimeout < 0 <= c.inactiveTimeout && Obliging(cb)
    requires TryOpened(c.rules.e, rec).status == Done && !CorrelationRequired(rec)
    ensures var st := Run(c, [Arrive(key, rec, v4, t)]); st.Some? && !Ends(c, st.value, t, cb, 0)
    ensures Run(c, [Arrive(key, rec, v4, t), Expire(t, cb)]).None?
  {
    hide Open, CorrelationRequired, Inv, ExpirePass, AllQueued, Ends, Run, TryOpened, Admit;
    var first, second := Arrive(key, rec, v4, t), Expire(t, cb);
    FirstArrival(c, key, rec, v4, t);
    var st, e := Next(c, EMPTY, first).value, Entry(key, t + c.activeTimeout, t + c.inactiveTimeout);
    RunOfTwo(c, first, second);
    assert SpinsAt(st, e, t);
    EndsExactly(c, st, t, cb, 0);
  }

  // ---------- the wait ----------

  /** `GetExpiryFromExpirePriorityQueue`. */
  function Wait(c: Config, st: State, minExpiry: int, now: int): int {
    if st.queue != [] then
      var d := minExpiry + (Deadline(st.queue[0]) - now);
      if d < 0 then minExpiry else d
    else if c.activeTimeout < c.inactiveTimeout then c.activeTimeout else c.inactiveTimeout
  }

  /** `t` is the earliest of all deadlines, active and inactive. */
  ghost predicate IsEarliest(st: State, t: int) {
    && (forall e :: e in multiset(st.queue) ==> t <= e.active && t <= e.inactive)
    && exists e :: e in multiset(st.queue) && (t == e.active || t == e.inactive)
  }

  /** The wait ends `minExpiry` after the earliest deadline of all flows, or lasts `minExpiry` if that has passed; with
      nothing queued it is the smaller timeout. So it is never negative, and by its end the earliest deadline has
      passed. */
  lemma WaitCoversEarliest(c: Config, st: State, minExpiry: int, now: int)
    requires Inv(st)
    ensures st.queue != [] ==>
              exists t :: IsEarliest(st, t) &&
                Wait(c, st, minExpiry, now) == if t + minExpiry < now then minExpiry else t + minExpiry - now
    ensures st.queue == [] ==>
              var w := Wait(c, st, minExpiry, now);
              w <= c.activeTimeout && w <= c.inactiveTimeout && (w == c.activeTimeout || w == c.inactiveTimeout)
    ensures minExpiry >= 0 && c.activeTimeout >= 0 && c.inactiveTimeout >= 0 ==> Wait(c, st, minExpiry, now) >= 0
    ensures minExpiry >= 0 && st.queue != [] ==>
              exists t :: IsEarliest(st, t) && t <= now + Wait(c, st, minExpiry, now)
  {
    hide IsHeap;
    if st.queue != [] {
      EarliestOverall(st.queue);
      assert st.queue[0] in multiset(st.queue);
      assert IsEarliest(st, Deadline(st.queue[0]));
    }
  }
}
