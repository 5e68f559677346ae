/**
  What an arriving record does to deadlines, and what follows over runs: a flow that keeps getting records is not
  removed, and one that has stopped getting them is.
 */
module LiveFlows {
  import opened Bytes
  import opened ExpiryHeap
  import opened FlowContent
  import opened FlowEffects
  import opened FlowAttempts
  import opened FlowHistory
  import opened FlowReadiness
  import opened FlowOutcomes
  import opened FlowSides
  import opened Scheduling
  import opened ExpiryPass
  import opened ExpiryFate
  import opened AggregationRuns

  // ---------- one arrival ----------

  /** The queue entry of a key, if it has one. */
  ghost function EntryIn(st: State, key: FlowKey): Option<Entry> {
    EntryOf(multiset(st.queue), key)
  }

  /** Both deadlines for a new flow; for a stored one that is queued a new inactive deadline and no new active one.
      Every other flow and its entry are as they were. */
  ghost predicate Scheduled(c: Config, st: State, next: State, key: FlowKey, now: int) {
    && next.flows.Keys == st.flows.Keys + {key}
    && (forall k :: k in st.flows && k != key ==> next.flows[k] == st.flows[k])
    && (forall k :: k != key ==> EntryIn(next, k) == EntryIn(st, k))
    && EntryIn(next, key) ==
       if key !in st.flows then Some(Entry(key, now + c.activeTimeout, now + c.inactiveTimeout))
       else if EntryIn(st, key).None? then None
       else Some(EntryIn(st, key).value.(inactive := now + c.inactiveTimeout))
  }

  lemma TouchedEntry(st: State, key: FlowKey, inactive: int, k: FlowKey)
    requires Inv(st)
    ensures var was, now := EntryIn(st, k), EntryOf(multiset(Touch(st.queue, key, inactive)), k);
            now == if k == key && was.Some? then Some(was.value.(inactive := inactive)) else was
  {
    hide IsHeap, Touch, EntryOf, OneEach;
    TouchInv(st, key, inactive);
    var i := IndexOf(st.queue, key);
    if i < 0 {
      NotThere(st.queue, key);
    } else {
      ReplacedEntry(multiset(st.queue), multiset(Touch(st.queue, key, inactive)), st.queue[i], inactive, k);
    }
  }

  lemma ReplacedEntry(m: multiset<Entry>, n: multiset<Entry>, e: Entry, inactive: int, k: FlowKey)
    requires OneEach(m) && OneEach(n) && e in m && n == m - multiset{e} + multiset{e.(inactive := inactive)}
    ensures EntryOf(n, k) == if k == e.key then Some(e.(inactive := inactive)) else EntryOf(m, k)
    ensures k == e.key ==> EntryOf(m, k) == Some(e)
  {
    hide EntryOf, OneEach;
    if k == e.key {
      assert Queued(m, k, e) && Queued(n, k, e.(inactive := inactive));
      EntryIs(m, k, e);
      EntryIs(n, k, e.(inactive := inactive));
    } else {
      assert forall x :: Queued(n, k, x) <==> Queued(m, k, x);
      SameEntry(m, n, k);
    }
  }

  lemma NotThere(queue: seq<Entry>, key: FlowKey)
    requires IndexOf(queue, key) < 0
    ensures forall e :: !Queued(multiset(queue), key, e)
  {
    assert forall e :: e in multiset(queue) ==> exists i :: 0 <= i < |queue| && queue[i] == e;
  }

  lemma SameEntry(m: multiset<Entry>, n: multiset<Entry>, k: FlowKey)
    requires OneEach(m) && OneEach(n) && forall x :: Queued(n, k, x) <==> Queued(m, k, x)
    ensures EntryOf(n, k) == EntryOf(m, k)
  {
    hide EntryOf, OneEach;
    if EntryOf(m, k).Some? {
      EntryIs(n, k, EntryOf(m, k).value);
    }
  }

  lemma PushedEntry(flows: map<FlowKey, Flow>, st: State, x: Entry, k: FlowKey)
    requires Inv(st) && x.key !in st.flows && Inv(State(flows, Push(st.queue, x)))
    ensures EntryOf(multiset(Push(st.queue, x)), k) == if k == x.key then Some(x) else EntryIn(st, k)
  {
    hide IsHeap, Push, EntryOf, OneEach;
    PushRestores(st.queue, x);
    var m, n := multiset(st.queue), multiset(Push(st.queue, x));
    if k == x.key {
      assert Queued(n, k, x);
      EntryIs(n, k, x);
    } else {
      assert forall y :: Queued(n, k, y) <==> Queued(m, k, y);
      SameEntry(m, n, k);
    }
  }

  /** A record that is accepted schedules its flow. */
  lemma ArrivalSchedules(c: Config, st: State, key: FlowKey, rec: Record, v4: bool, now: int)
    requires Aligned(c.rules.e) && Inv(st) && Admit(c, st, key, rec, v4, now).1 == Done
    ensures var next := Next(c, st, Arrive(key, rec, v4, now));
            next.Some? && Inv(next.value) && Scheduled(c, st, next.value, key, now)
  {
    hide Inv, Push, Touch, Apply, Open, EntryOf, TryMerge, TryOpened;
    var next := AddOrUpdate(c, st, key, rec, v4, now);
    ArriveInv(c, st, key, rec, v4, now);
    forall k
      ensures EntryIn(next, k) ==
              if k != key then EntryIn(st, k)
              else if key !in st.flows then Some(Entry(key, now + c.activeTimeout, now + c.inactiveTimeout))
              else if EntryIn(st, key).None? then None
              else Some(EntryIn(st, key).value.(inactive := now + c.inactiveTimeout))
    {
      if key in st.flows {
        TouchedEntry(st, key, now + c.inactiveTimeout, k);
      } else {
        PushedEntry(next.flows, st, Entry(key, now + c.activeTimeout, now + c.inactiveTimeout), k);
      }
    }
  }

  /** The same flows but for one, and the same queue. */
  ghost predicate OnlyFlow(st: State, next: State, key: FlowKey) {
    && next.queue == st.queue && next.flows.Keys == st.flows.Keys
    && forall k :: k in st.flows && k != key ==> next.flows[k] == st.flows[k]
  }

  /** A record that a ready flow refuses is not scheduled, but it has moved the end times of that flow. */
  lemma RefusedArrival(c: Config, st: State, key: FlowKey, rec: Record, v4: bool, now: int)
    requires Aligned(c.rules.e) && Usable(c.rules.e) && Inv(st) && key in st.flows
    requires st.flows[key].ready && Stored(c.rules.e, st.flows[key].record)
    requires Admit(c, st, key, rec, v4, now).1 == Refused && Has32(rec, "flowEndSeconds")
    ensures var next := Admit(c, st, key, rec, v4, now).0;
            && OnlyFlow(st, next, key)
            && var a, b, t := st.flows[key].record, next.flows[key].record, Get32(rec, "flowEndSeconds");
            && Get32(b, "flowEndSeconds") == Max(Get32(a, "flowEndSeconds"), t)
            && forall node :: Get32(b, EndKey(node)) == if CountsFor(rec, node) then t else Get32(a, EndKey(node))
  {
    hide Inv, Apply, TryMerge, Usable, Stored, Find, CountsFor, EndKey;
    RefusedMoves(c.rules, st.flows[key], rec);
  }

  /** A reset of a flow touches nothing else, and has cleared the delta counters up to the first one that is missing. */
  lemma ResetStep(c: Config, st: State, key: FlowKey, k: nat)
    requires Aligned(c.rules.e) && key in st.flows && k < |c.rules.e.stats| && IsDelta(c.rules.e.stats[k])
    requires forall j :: 0 <= j <= k && IsDelta(c.rules.e.stats[j]) ==>
               HasAll(st.flows[key].record, c.rules.e.stats[j], CounterKey(c.rules.e, Source, j),
                 CounterKey(c.rules.e, Destination, j))
    ensures var next := ResetFlow(c, st, key);
            && OnlyFlow(st, next, key) && Alike(st.flows[key], next.flows[key])
            && Blank(next.flows[key].record, c.rules.e.stats[k])
            && forall node :: Blank(next.flows[key].record, CounterKey(c.rules.e, node, k))
  {
    hide Find, TryResetStats, TryResetThroughput, Reset, IsDelta, Blank, HasAll;
    ResetReaches(c.rules.e, st.flows[key].record, k);
    ResetsExactly(c.rules.e, st.flows[key].record);
    var next := ResetFlow(c, st, key);
    assert next.flows[key].record == TryReset(c.rules.e, st.flows[key].record).rec;
    forall node
      ensures Blank(next.flows[key].record, CounterKey(c.rules.e, node, k))
    {
      match node
      case Source =>
      case Destination =>
    }
  }

  // ---------- runs ----------

  /** The flow is stored and ready, and if it is queued its inactive deadline is between `lo` and `hi`. */
  ghost predicate Live(st: State, key: FlowKey, lo: int, hi: int) {
    && key in st.flows && st.flows[key].ready
    && (EntryIn(st, key).Some? ==> lo <= EntryIn(st, key).value.inactive <= hi)
  }

  lemma ReadyDecision(c: Config, f: Flow, e: Entry, now: int, cb: Callback, calls: nat)
    requires Aligned(c.rules.e) && f.ready && now <= e.inactive
    ensures var d := Decide(c, f, e, now, cb, calls);
            && d.flow.Some? && d.flow.value.ready && (d.entry.Some? ==> d.entry.value.inactive == e.inactive)
  {
    hide HandOver;
  }

  lemma LiveOne(c: Config, st: State, now: int, cb: Callback, calls: nat, key: FlowKey, lo: int, hi: int)
    requires Aligned(c.rules.e) && Inv(st) && st.queue != [] && Live(st, key, lo, hi) && now <= lo
    ensures Pop(st.queue).0.key in st.flows && Live(ExpireOne(c, st, now, cb, calls).0, key, lo, hi)
  {
    hide IsHeap, Pop, Push, Decide, EntryOf;
    PopInv(st);
    var (e, rest) := Pop(st.queue);
    var d := Decide(c, st.flows[e.key], e, now, cb, calls);
    var next := Settle(st, e, rest, d);
    SettleInv(st, e, rest, d);
    if e.key != key {
      OtherEntries(st, e, rest, next, d, key);
    } else {
      assert Queued(multiset(st.queue), key, e);
      EntryIs(multiset(st.queue), key, e);
      ReadyDecision(c, st.flows[key], e, now, cb, calls);
      if d.entry.Some? {
        assert Queued(multiset(next.queue), key, d.entry.value);
        EntryIs(multiset(next.queue), key, d.entry.value);
      } else {
        assert forall x :: !Queued(multiset(next.queue), key, x);
      }
    }
  }

  /** A pass before the inactive deadline of a ready flow keeps it, failed or not. */
  lemma {:induction false} PassKeepsLive(c: Config, st: State, now: int, cb: Callback, calls: nat, key: FlowKey,
      lo: int, hi: int)
    requires Aligned(c.rules.e) && Inv(st) && Ends(c, st, now, cb, calls) && Live(st, key, lo, hi) && now <= lo
    ensures Live(ExpirePass(c, st, now, cb, calls).st, key, lo, hi)
    decreases Left(c, st, now, cb, calls)
  {
    hide ExpireOne, Inv, Left, Live;
    if !Over(st, now) {
      PassStep(c, st, now, cb, calls);
      var (next, p) := ExpireOne(c, st, now, cb, calls);
      LiveOne(c, st, now, cb, calls, key, lo, hi);
      if !p.act.Fail? {
        PassKeepsLive(c, next, now, cb, CallsAfter(p, calls), key, lo, hi);
      }
    }
  }

  /** The clock of a step lies where it leaves the flow alive: records for it between `from` and `until`, passes no
      later than the first inactive deadline. */
  predicate Timely(c: Config, s: Step, key: FlowKey, from: int, until: int) {
    match s
    case Arrive(k, _, _, now) => k == key ==> from <= now <= until
    case Expire(now, _) => now <= from + c.inactiveTimeout
    case Clear(_) => true
  }

  lemma LiveStep(c: Config, st: State, s: Step, key: FlowKey, from: int, until: int)
    requires Aligned(c.rules.e) && Inv(st) && Next(c, st, s).Some? && Timely(c, s, key, from, until)
    requires Live(st, key, from + c.inactiveTimeout, until + c.inactiveTimeout)
    ensures Live(Next(c, st, s).value, key, from + c.inactiveTimeout, until + c.inactiveTimeout)
  {
    hide Inv, EntryOf, ExpirePass, Apply, Ends, Admit, Resetting;
    match s
    case Arrive(k, rec, v4, now) =>
      if Admit(c, st, k, rec, v4, now).1 == Done {
        ArrivalSchedules(c, st, k, rec, v4, now);
        if k == key {
          MergedStaysReady(c, st, key, rec, v4, now);
        }
      } else {
        AdmitInv(c, st, k, rec, v4, now);
        RefusedStaysReady(c, st, k, rec, v4, now, key);
      }
    case Expire(now, cb) => PassKeepsLive(c, st, now, cb, 0, key, from + c.inactiveTimeout, until + c.inactiveTimeout);
    case Clear(k) =>
      if k == key {
        ApplyKeepsReady(c.rules, st.flows[key], Resetting(c, st.flows[key]));
      }
  }

  lemma MergedStaysReady(c: Config, st: State, key: FlowKey, rec: Record, v4: bool, now: int)
    requires Aligned(c.rules.e) && key in st.flows && st.flows[key].ready && Admit(c, st, key, rec, v4, now).1 == Done
    ensures key in Admit(c, st, key, rec, v4, now).0.flows && Admit(c, st, key, rec, v4, now).0.flows[key].ready
  {
    hide Apply, Touch, TryMerge;
    ApplyKeepsReady(c.rules, st.flows[key], Received(rec));
  }

  lemma RefusedStaysReady(c: Config, st: State, k: FlowKey, rec: Record, v4: bool, now: int, key: FlowKey)
    requires Aligned(c.rules.e) && key in st.flows && st.flows[key].ready && Admit(c, st, k, rec, v4, now).1 != Done
    ensures key in Admit(c, st, k, rec, v4, now).0.flows && Admit(c, st, k, rec, v4, now).0.flows[key].ready
  {
    hide Apply, AddOrUpdate, TryMerge, TryOpened;
    if k in st.flows && k == key {
      ApplyKeepsReady(c.rules, st.flows[key], Spoilt(rec));
    }
  }

  /** In every run: once a record has come at `t` for a flow that is then ready, the flow stays as long as no pass is
      later than the inactive timeout after `t`, whatever else happens. */
  lemma {:induction false} LiveIsKept(c: Config, before: seq<Step>, key: FlowKey, rec: Record, v4: bool, t: int,
      after: seq<Step>, until: int)
    requires Aligned(c.rules.e) && Run(c, before).Some? && t <= until
    requires Admit(c, Run(c, before).value, key, rec, v4, t).1 == Done
    requires Admit(c, Run(c, before).value, key, rec, v4, t).0.flows[key].ready
    requires Run(c, before + [Arrive(key, rec, v4, t)] + after).Some?
    requires forall i :: 0 <= i < |after| ==> Timely(c, after[i], key, t, until)
    ensures Live(Run(c, before + [Arrive(key, rec, v4, t)] + after).value, key, t + c.inactiveTimeout,
                 until + c.inactiveTimeout)
    decreases |after|
  {
    hide Next, Inv, Admit, Live, Timely;
    var start := before + [Arrive(key, rec, v4, t)];
    var steps := start + after;
    if after == [] {
      assert steps == start && start[..|start| - 1] == before;
      FirstLive(c, Run(c, before).value, key, rec, v4, t, until);
    } else {
      var n := |after| - 1;
      assert steps[..|steps| - 1] == start + after[..n] && steps[|steps| - 1] == after[n];
      LiveIsKept(c, before, key, rec, v4, t, after[..n], until);
      LiveStep(c, Run(c, start + after[..n]).value, after[n], key, t, until);
    }
  }

  lemma FirstLive(c: Config, st: State, key: FlowKey, rec: Record, v4: bool, t: int, until: int)
    requires Aligned(c.rules.e) && Inv(st) && t <= until && Admit(c, st, key, rec, v4, t).1 == Done
    requires Admit(c, st, key, rec, v4, t).0.flows[key].ready
    ensures var next := Next(c, st, Arrive(key, rec, v4, t));
            next.Some? && Live(next.value, key, t + c.inactiveTimeout, until + c.inactiveTimeout)
  {
    hide Inv, EntryOf, Admit;
    ArrivalSchedules(c, st, key, rec, v4, t);
  }

  /** A ready flow that is queued and has had no record for longer than the inactive timeout is called back once more
      and removed by the next pass. */
  lemma IdleIsRemoved(c: Config, st: State, now: int, cb: Callback, key: FlowKey, lo: int, hi: int)
    requires Aligned(c.rules.e) && Inv(st) && Ends(c, st, now, cb, 0) && Live(st, key, lo, hi)
    requires EntryIn(st, key).Some? && hi < now
    ensures var res := ExpirePass(c, st, now, cb, 0);
            !res.failed ==> key !in res.st.flows && CallsFor(res.log, key) == 1
  {
    hide ExpirePass, Inv, Ends, EntryOf, CallsFor;
    PassIsPointwise(c, st, now, cb, 0, key);
  }
}
