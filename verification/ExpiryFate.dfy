/**
  What a pass does to each flow, as a function of that flow alone: the queue, its order and
  the other flows drop out. From it follow how often a flow is called back, when it leaves the
  map, and exactly when a pass leaves a flow in the map that can never expire again.
 */
module ExpiryFate {
  import opened Bytes
  import opened ExpiryHeap
  import opened FlowContent
  import opened FlowHistory
  import opened Scheduling
  import opened ExpiryPass

  /** Where a flow stands: not in the map, or in it with a retry count and its queue entry, if it is queued. */
  datatype Standing = Gone | Kept(retries: nat, entry: Option<Entry>)

  /** Where a flow stands after a pass, and how many times it was called back. */
  datatype Fate = Fate(standing: Standing, callbacks: nat)

  /** A flow pushed back by a pass would be due again at once. */
  predicate DueAgain(c: Config, e: Entry, now: int) {
    Due(e.(active := now + c.activeTimeout), now)
  }

  /** The fate of a queued flow, without a queue. */
  function FateOf(c: Config, ready: bool, retries: nat, e: Entry, now: int): Fate {
    if !Due(e, now) then Fate(Kept(retries, Some(e)), 0)
    else if !ready then
      if retries + 1 <= c.maxRetries && c.activeTimeout > 0 && c.inactiveTimeout > 0 then
        Fate(Kept(retries + 1, Some(Entry(e.key, now + c.activeTimeout, now + c.inactiveTimeout))), 0)
      else Fate(Gone, 0)
    else if e.inactive < now then Fate(Gone, 1)
    else if now <= e.active then Fate(Kept(retries, None), 1)
    else if DueAgain(c, e, now) then Fate(Kept(retries, None), 2)
    else Fate(Kept(retries, Some(e.(active := now + c.activeTimeout))), 1)
  }

  // ---------- a state, key by key ----------

  ghost predicate Queued(m: multiset<Entry>, key: FlowKey, e: Entry) {
    e in m && e.key == key
  }

  ghost function EntryOf(m: multiset<Entry>, key: FlowKey): (o: Option<Entry>)
    ensures o.Some? <==> exists e :: Queued(m, key, e)
    ensures o.Some? ==> Queued(m, key, o.value)
  {
    if exists e :: Queued(m, key, e) then
      var e :| Queued(m, key, e); Some(e)
    else None
  }

  lemma EntryIs(m: multiset<Entry>, key: FlowKey, e: Entry)
    requires OneEach(m) && Queued(m, key, e)
    ensures EntryOf(m, key) == Some(e)
  {
  }

  ghost function StandingOf(st: State, key: FlowKey): Standing {
    if key !in st.flows then Gone else Kept(st.flows[key].retries, EntryOf(multiset(st.queue), key))
  }

  /** What is still to happen to a key in a pass that starts here. */
  ghost function Outlook(c: Config, st: State, key: FlowKey, now: int): Fate {
    if key !in st.flows then Fate(Gone, 0)
    else
      match EntryOf(multiset(st.queue), key)
      case None => Fate(Kept(st.flows[key].retries, None), 0)
      case Some(e) => FateOf(c, st.flows[key].ready, st.flows[key].retries, e, now)
  }

  function CallsFor(log: seq<Popped>, key: FlowKey): nat {
    if log == [] then 0
    else (if log[0].entry.key == key && (log[0].act.Send? || log[0].act.Fail?) then 1 else 0) + CallsFor(log[1..], key)
  }

  // ---------- one iteration keeps every outlook ----------

  lemma OtherEntries(st: State, e: Entry, rest: seq<Entry>, next: State, d: Decision, key: FlowKey)
    requires Inv(st) && Inv(next) && key != e.key
    requires multiset(rest) + multiset{e} == multiset(st.queue)
    requires multiset(next.queue) == multiset(rest) + if d.entry.Some? then multiset{d.entry.value} else multiset{}
    requires d.entry.Some? ==> d.entry.value.key == e.key
    ensures EntryOf(multiset(next.queue), key) == EntryOf(multiset(st.queue), key)
  {
    hide IsHeap;
    var a, b := multiset(st.queue), multiset(next.queue);
    assert forall x :: Queued(a, key, x) <==> Queued(b, key, x);
    if EntryOf(a, key).Some? {
      EntryIs(b, key, EntryOf(a, key).value);
    }
  }

  /** The outlook of the popped flow is what the decision does plus the outlook after it. */
  lemma DecisionFollowsFate(c: Config, f: Flow, e: Entry, now: int, cb: Callback, calls: nat)
    requires Aligned(c.rules.e) && Due(e, now) && (c.activeTimeout >= 0 || !Between(f, e, now))
    ensures var d := Decide(c, f, e, now, cb, calls);
            !d.act.Fail? ==>
              var after := if d.flow.None? then Fate(Gone, 0)
                           else if d.entry.None? then Fate(Kept(d.flow.value.retries, None), 0)
                           else FateOf(c, d.flow.value.ready, d.flow.value.retries, d.entry.value, now);
              FateOf(c, f.ready, f.retries, e, now) ==
              Fate(after.standing, after.callbacks + if d.act.Send? then 1 else 0)
  {
    hide Merge, Reset;
  }

  ghost predicate Settled(st: State, e: Entry, rest: seq<Entry>, d: Decision) {
    && Inv(st) && e.key in st.flows && Inv(Settle(st, e, rest, d))
    && (d.entry.Some? ==> d.flow.Some? && d.entry.value.key == e.key)
    && multiset(rest) + multiset{e} == multiset(st.queue) && (forall f :: f in multiset(rest) ==> f.key != e.key)
    && multiset(Settle(st, e, rest, d).queue) == multiset(rest) + if d.entry.Some? then multiset{d.entry.value}
       else multiset{}
  }

  lemma OutlookOfOther(c: Config, st: State, e: Entry, rest: seq<Entry>, d: Decision, now: int, key: FlowKey)
    requires Settled(st, e, rest, d) && key != e.key
    ensures Outlook(c, Settle(st, e, rest, d), key, now) == Outlook(c, st, key, now)
  {
    hide Push, IsHeap, FateOf, OneEach, EntryOf;
    OtherEntries(st, e, rest, Settle(st, e, rest, d), d, key);
  }

  lemma OutlookOfPopped(c: Config, st: State, e: Entry, rest: seq<Entry>, d: Decision, now: int)
    requires Settled(st, e, rest, d)
    ensures Outlook(c, st, e.key, now) == FateOf(c, st.flows[e.key].ready, st.flows[e.key].retries, e, now)
    ensures Outlook(c, Settle(st, e, rest, d), e.key, now) ==
            if d.flow.None? then Fate(Gone, 0)
            else if d.entry.None? then Fate(Kept(d.flow.value.retries, None), 0)
            else FateOf(c, d.flow.value.ready, d.flow.value.retries, d.entry.value, now)
  {
    hide Push, IsHeap, FateOf;
    EntryIs(multiset(st.queue), e.key, e);
    if d.entry.Some? {
      EntryIs(multiset(Settle(st, e, rest, d).queue), e.key, d.entry.value);
    }
  }

  /** The flow under `key` is pushed back already due. */
  ghost predicate SpinsKey(c: Config, st: State, key: FlowKey, now: int) {
    c.activeTimeout < 0 && exists e :: SpinsAt(st, e, now) && e.key == key
  }

  /** A callback other than that of `key` failed, or none did. */
  predicate Spared(res: PassResult, key: FlowKey) {
    res.failed ==> res.log == [] || res.log[|res.log| - 1].entry.key != key
  }

  function Later(calls: nat, f: Fate): Fate {
    Fate(f.standing, calls + f.callbacks)
  }

  lemma OutlookStep(c: Config, st: State, now: int, cb: Callback, calls: nat, key: FlowKey)
    requires Aligned(c.rules.e) && Inv(st) && !Over(st, now) && !SpinsKey(c, st, key, now)
    ensures Pop(st.queue).0.key in st.flows
    ensures var (next, p) := ExpireOne(c, st, now, cb, calls);
            && (!p.act.Fail? || p.entry.key != key ==>
               Outlook(c, st, key, now) == Later(CallsFor([p], key), Outlook(c, next, key, now)))
            && (p.act.Fail? && p.entry.key == key ==> Outlook(c, st, key, now).callbacks >= 1)
            && (!p.act.Fail? ==> !SpinsKey(c, next, key, now))
  {
    hide Pop, IsHeap, Decide, FateOf, Settle, Outlook, Inv, Between;
    PopInv(st);
    var (e, rest) := Pop(st.queue);
    var d := Decide(c, st.flows[e.key], e, now, cb, calls);
    assert [Popped(e, d.act)][1..] == [];
    SettleInv(st, e, rest, d);
    KeySpinsStep(c, st, e, rest, d, now, cb, calls, key);
    if key != e.key {
      OutlookOfOther(c, st, e, rest, d, now, key);
    } else {
      assert c.activeTimeout < 0 ==> !SpinsAt(st, e, now);
      assert e in multiset(st.queue);
      DecisionFollowsFate(c, st.flows[e.key], e, now, cb, calls);
      OutlookOfPopped(c, st, e, rest, d, now);
      FailedIsOwed(c, st.flows[e.key], e, now, cb, calls);
    }
  }

  lemma KeySpinsStep(c: Config, st: State, e: Entry, rest: seq<Entry>, d: Decision, now: int, cb: Callback, calls: nat,
      key: FlowKey)
    requires Aligned(c.rules.e) && Settled(st, e, rest, d) && d == Decide(c, st.flows[e.key], e, now, cb, calls)
    requires !SpinsKey(c, st, key, now)
    ensures !d.act.Fail? ==> !SpinsKey(c, Settle(st, e, rest, d), key, now)
  {
    hide Push, IsHeap, Decide, Between, OneEach;
    if c.activeTimeout < 0 && !d.act.Fail? {
      DecidedBetween(c, st.flows[e.key], e, now, cb, calls);
      var next := Settle(st, e, rest, d);
      forall y | SpinsAt(next, y, now) && y.key == key
        ensures SpinsAt(st, if y in multiset(rest) then y else e, now)
      {
      }
    }
  }

  /** A flow whose callback fails was to be called back. */
  lemma FailedIsOwed(c: Config, f: Flow, e: Entry, now: int, cb: Callback, calls: nat)
    requires Aligned(c.rules.e) && Due(e, now)
    ensures Decide(c, f, e, now, cb, calls).act.Fail? ==> FateOf(c, f.ready, f.retries, e, now).callbacks >= 1
  {
    hide Apply, HandOver;
  }

  // ---------- the pass, flow by flow ----------

  /** What a pass did to a key and what is still to happen to it make up the fate that was ahead of it, unless it is
      the key whose callback failed; and no key is called back more often than that fate says. */
  lemma {:induction false} FateKept(c: Config, st: State, now: int, cb: Callback, calls: nat, key: FlowKey)
    requires Aligned(c.rules.e) && Inv(st) && Ends(c, st, now, cb, calls) && !SpinsKey(c, st, key, now)
    ensures var res := ExpirePass(c, st, now, cb, calls);
            && (Spared(res, key) ==>
               Outlook(c, st, key, now) == Later(CallsFor(res.log, key), Outlook(c, res.st, key, now)))
            && CallsFor(res.log, key) <= Outlook(c, st, key, now).callbacks
            && (!res.failed ==> Outlook(c, res.st, key, now) == Fate(StandingOf(res.st, key), 0))
    decreases Left(c, st, now, cb, calls)
  {
    hide ExpireOne, Outlook, StandingOf, CallsFor, Inv, Left, SpinsKey;
    if Over(st, now) {
      NoCalls(key);
      OutlookAtEnd(c, st, now, key);
    } else {
      PassStep(c, st, now, cb, calls);
      var (next, p) := ExpireOne(c, st, now, cb, calls);
      OutlookStep(c, st, now, cb, calls, key);
      CallsOfOne(p, key);
      if !p.act.Fail? {
        FateKept(c, next, now, cb, CallsAfter(p, calls), key);
        LogCalls(p, ExpirePass(c, next, now, cb, CallsAfter(p, calls)).log, key);
      }
    }
  }

  lemma NoCalls(key: FlowKey)
    ensures CallsFor([], key) == 0
  {
  }

  lemma CallsOfOne(p: Popped, key: FlowKey)
    ensures CallsFor([p], key) == if p.entry.key == key && (p.act.Send? || p.act.Fail?) then 1 else 0
  {
    assert [p][1..] == [];
  }

  /** A pass without a callback failure gives every key exactly the fate that the key's own flow and entry determine:
      its place in the map, its retry count, its queue entry and the number of times it was called back. A pass that a
      failed callback cuts short leaves every other key what is still missing of that fate, and calls no key back more
      often. */
  lemma PassIsPointwise(c: Config, st: State, now: int, cb: Callback, calls: nat, key: FlowKey)
    requires Aligned(c.rules.e) && Inv(st) && Ends(c, st, now, cb, calls)
    ensures var res := ExpirePass(c, st, now, cb, calls);
            && (!res.failed ==> Outlook(c, st, key, now) == Fate(StandingOf(res.st, key), CallsFor(res.log, key)))
            && (!SpinsKey(c, st, key, now) ==>
                  && CallsFor(res.log, key) <= Outlook(c, st, key, now).callbacks
                  && (Spared(res, key) ==>
                        Outlook(c, st, key, now) == Later(CallsFor(res.log, key), Outlook(c, res.st, key, now))))
  {
    hide Inv, ExpirePass, Outlook, StandingOf, CallsFor, SpinsAt, Ends;
    if SpinsKey(c, st, key, now) {
      assert Spins(c, st, now);
      SpinningEndsInFailure(c, st, now, cb, calls);
    } else {
      FateKept(c, st, now, cb, calls, key);
    }
  }

  /** When nothing is due, every key stands where it will stand. */
  lemma OutlookAtEnd(c: Config, st: State, now: int, key: FlowKey)
    requires Inv(st) && (st.queue == [] || !Due(st.queue[0], now))
    ensures Outlook(c, st, key, now) == Fate(StandingOf(st, key), CallsFor([], key))
  {
    hide IsHeap;
    if st.queue != [] {
      EarliestOverall(st.queue);
    }
  }

  lemma LogCalls(p: Popped, more: seq<Popped>, key: FlowKey)
    ensures CallsFor([p] + more, key) == CallsFor([p], key) + CallsFor(more, key)
  {
    assert ([p] + more)[1..] == more && [p][1..] == [];
  }

  /** How often a queued flow is called back in a pass: never if it is not due or not ready, once otherwise, and twice
      if it is pushed back already due. A failed callback can only make it less, except for a flow that is pushed back
      already due again and again, of which every pass ends in a failure. */
  lemma CalledBackOnce(c: Config, st: State, now: int, cb: Callback, e: Entry)
    requires Aligned(c.rules.e) && Inv(st) && Ends(c, st, now, cb, 0) && e in multiset(st.queue)
    ensures var res, f := ExpirePass(c, st, now, cb, 0), st.flows[e.key];
            var times :=
              if !Due(e, now) || !f.ready then 0
              else if e.active < now <= e.inactive && (c.activeTimeout == 0 || e.inactive == now) then 2
              else 1;
            && (!res.failed ==> CallsFor(res.log, e.key) == times)
            && (c.activeTimeout >= 0 || !Between(f, e, now) ==> CallsFor(res.log, e.key) <= times)
            && (c.activeTimeout < 0 && Between(f, e, now) ==> res.failed)
  {
    hide ExpirePass, IsHeap, Ends, CallsFor;
    EntryIs(multiset(st.queue), e.key, e);
    PassIsPointwise(c, st, now, cb, 0, e.key);
    if c.activeTimeout < 0 && Between(st.flows[e.key], e, now) {
      assert SpinsAt(st, e, now);
      SpinningEndsInFailure(c, st, now, cb, 0);
    }
  }

  /** A due flow that is not ready is never called back; it uses one retry per pass and is removed when none is left,
      or when a timeout is not positive, since then it is due again until none is left. */
  lemma NeverReadyIsRemoved(c: Config, st: State, now: int, cb: Callback, e: Entry)
    requires Aligned(c.rules.e) && Inv(st) && Ends(c, st, now, cb, 0)
    requires e in multiset(st.queue) && Due(e, now) && !st.flows[e.key].ready
    ensures var res, retries := ExpirePass(c, st, now, cb, 0), st.flows[e.key].retries;
            && CallsFor(res.log, e.key) == 0
            && (!res.failed ==>
                  && (e.key in res.st.flows <==> retries < c.maxRetries && c.activeTimeout > 0 && c.inactiveTimeout > 0)
                  && (e.key in res.st.flows ==>
                        && res.st.flows[e.key].retries == retries + 1
                        && EntryOf(multiset(res.st.queue), e.key) ==
                             Some(Entry(e.key, now + c.activeTimeout, now + c.inactiveTimeout))))
  {
    hide ExpirePass, IsHeap, Ends, CallsFor;
    EntryIs(multiset(st.queue), e.key, e);
    PassIsPointwise(c, st, now, cb, 0, e.key);
  }

  // ---------- flows that can never expire ----------

  /** Every stored flow is queued; together with `Inv`, keys of flows and of queue entries are in bijection. */
  ghost predicate AllQueued(st: State) {
    forall key :: key in st.flows ==> EntryOf(multiset(st.queue), key).Some?
  }

  /** A due flow is called back, stays in the map, and is not pushed back: neither deadline is before `now`,
      or it was pushed back once and was due again at once. */
  predicate Dropped(c: Config, e: Entry, now: int) {
    Due(e, now) && now <= e.inactive && (now <= e.active || DueAgain(c, e, now))
  }

  /** Exactly when a pass leaves a flow in the map but not in the queue: when some ready entry meets `Dropped`,
      that is, on a tie of a deadline with the clock or with a zero active timeout. */
  lemma PassKeepsAllQueued(c: Config, st: State, now: int, cb: Callback)
    requires Aligned(c.rules.e) && Inv(st) && Ends(c, st, now, cb, 0) && AllQueued(st)
    ensures var res := ExpirePass(c, st, now, cb, 0);
            !res.failed ==>
              (AllQueued(res.st) <==>
               forall e :: e in multiset(st.queue) && st.flows[e.key].ready ==> !Dropped(c, e, now))
  {
    hide ExpirePass, IsHeap, Ends;
    var res := ExpirePass(c, st, now, cb, 0);
    if !res.failed {
      forall e | e in multiset(st.queue)
        ensures (e.key in res.st.flows && EntryOf(multiset(res.st.queue), e.key).None?) <==>
                st.flows[e.key].ready && Dropped(c, e, now)
      {
        EntryIs(multiset(st.queue), e.key, e);
        PassIsPointwise(c, st, now, cb, 0, e.key);
      }
      forall key | key in res.st.flows
        ensures exists e :: e in multiset(st.queue) && e.key == key
      {
        PassIsPointwise(c, st, now, cb, 0, key);
        assert EntryOf(multiset(st.queue), key).Some?;
      }
    }
  }

  /** With a positive active timeout and no deadline equal to the clock, nothing is dropped. */
  lemma NoTieNoDrop(c: Config, st: State, now: int)
    requires c.activeTimeout > 0 && Inv(st)
    requires forall e :: e in multiset(st.queue) ==> e.active != now && e.inactive != now
    ensures forall e :: e in multiset(st.queue) ==> !Dropped(c, e, now)
  {
  }

  // ---------- what callbacks leave ----------

  /** The callback does the same to a flow whenever it is called for it. */
  ghost predicate Steady(cb: Callback, key: FlowKey, image: (Record, bool) -> (Record, bool)) {
    forall n, rec, filled :: (cb(n, key, rec, filled).record, cb(n, key, rec, filled).correlated) == image(rec, filled)
  }

  function Repeated(image: (Record, bool) -> (Record, bool), n: nat, rec: Record, filled: bool): (Record, bool) {
    if n == 0 then (rec, filled) else Repeated(image, n - 1, image(rec, filled).0, image(rec, filled).1)
  }

  /** The flow `g` is what `n` callbacks have made of `f`. */
  ghost predicate LeftBy(image: (Record, bool) -> (Record, bool), n: nat, f: Flow, g: Flow) {
    && (g.record, g.correlated) == Repeated(image, n, f.record, f.correlated)
    && g.ready == f.ready && g.isIPv4 == f.isIPv4
  }

  lemma DecisionLeaves(c: Config, f: Flow, e: Entry, now: int, cb: Callback, calls: nat,
      image: (Record, bool) -> (Record, bool))
    requires Aligned(c.rules.e) && Steady(cb, e.key, image)
    ensures var d := Decide(c, f, e, now, cb, calls);
            d.flow.Some? ==> LeftBy(image, if d.act.Send? || d.act.Fail? then 1 else 0, f, d.flow.value)
  {
    hide HandOver;
    var res := cb(calls, e.key, f.record, f.correlated);
    assert (res.record, res.correlated) == image(f.record, f.correlated);
    assert Repeated(image, 1, f.record, f.correlated) == image(f.record, f.correlated);
  }

  lemma {:induction false} LeftInTurn(image: (Record, bool) -> (Record, bool), a: nat, b: nat, f: Flow, g: Flow,
      h: Flow)
    requires a <= 1 && LeftBy(image, a, f, g) && LeftBy(image, b, g, h)
    ensures LeftBy(image, a + b, f, h)
  {
    assert Repeated(image, 0, f.record, f.correlated) == (f.record, f.correlated);
    assert Repeated(image, 1, f.record, f.correlated) == image(f.record, f.correlated);
  }

  lemma LeftAlone(image: (Record, bool) -> (Record, bool), f: Flow)
    ensures LeftBy(image, 0, f, f)
  {
  }

  lemma OneLeaves(c: Config, st: State, now: int, cb: Callback, calls: nat, key: FlowKey,
      image: (Record, bool) -> (Record, bool))
    requires Aligned(c.rules.e) && Inv(st) && st.queue != [] && Steady(cb, key, image)
    ensures Pop(st.queue).0.key in st.flows
    ensures var (next, p) := ExpireOne(c, st, now, cb, calls);
            key in next.flows ==>
              key in st.flows && LeftBy(image, CallsFor([p], key), st.flows[key], next.flows[key])
  {
    hide Pop, IsHeap, Inv, Push, CallsFor, Decide, Steady;
    PopInv(st);
    CallsOfOne(ExpireOne(c, st, now, cb, calls).1, key);
    var e := Pop(st.queue).0;
    if e.key == key {
      DecisionLeaves(c, st.flows[key], e, now, cb, calls, image);
    }
  }

  /** What a pass, failed or not, leaves of a flow that it does not remove: the record and the flag as they were, after
      as many callbacks as the log has for it. */
  lemma {:induction false} PassLeaves(c: Config, st: State, now: int, cb: Callback, calls: nat, key: FlowKey,
      image: (Record, bool) -> (Record, bool))
    requires Aligned(c.rules.e) && Inv(st) && Ends(c, st, now, cb, calls) && Steady(cb, key, image)
    ensures var res := ExpirePass(c, st, now, cb, calls);
            key in res.st.flows ==>
              key in st.flows && LeftBy(image, CallsFor(res.log, key), st.flows[key], res.st.flows[key])
    decreases Left(c, st, now, cb, calls)
  {
    hide ExpireOne, CallsFor, Inv, Left, Steady, LeftBy;
    if Over(st, now) {
      NoCalls(key);
      if key in st.flows {
        LeftAlone(image, st.flows[key]);
      }
    } else {
      PassStep(c, st, now, cb, calls);
      var (next, p) := ExpireOne(c, st, now, cb, calls);
      OneLeaves(c, st, now, cb, calls, key, image);
      CallsOfOne(p, key);
      if !p.act.Fail? {
        PassLeaves(c, next, now, cb, CallsAfter(p, calls), key, image);
        var more := ExpirePass(c, next, now, cb, CallsAfter(p, calls));
        LogCalls(p, more.log, key);
        if key in more.st.flows {
          LeftInTurn(image, CallsFor([p], key), CallsFor(more.log, key), st.flows[key], next.flows[key],
            more.st.flows[key]);
        }
      }
    }
  }

  /** A pass that ends in a callback failure leaves the flow of that callback in the map and out of the queue. */
  lemma {:induction false} FailureDrops(c: Config, st: State, now: int, cb: Callback, calls: nat)
    requires Aligned(c.rules.e) && Inv(st) && Ends(c, st, now, cb, calls)
    ensures var res := ExpirePass(c, st, now, cb, calls);
            res.failed ==>
              && res.log != [] && res.log[|res.log| - 1].act.Fail?
              && var key := res.log[|res.log| - 1].entry.key;
              && key in res.st.flows && res.st.flows[key].ready && EntryOf(multiset(res.st.queue), key).None?
    decreases Left(c, st, now, cb, calls)
  {
    hide ExpireOne, IsHeap, EntryOf, Left;
    if !Over(st, now) {
      PassStep(c, st, now, cb, calls);
      var (next, p) := ExpireOne(c, st, now, cb, calls);
      if p.act.Fail? {
        FailingOne(c, st, now, cb, calls);
      } else {
        FailureDrops(c, next, now, cb, CallsAfter(p, calls));
      }
    }
  }

  lemma FailingOne(c: Config, st: State, now: int, cb: Callback, calls: nat)
    requires Aligned(c.rules.e) && Inv(st) && st.queue != []
    ensures Pop(st.queue).0.key in st.flows
    ensures var (next, p) := ExpireOne(c, st, now, cb, calls);
            p.act.Fail? ==>
              p.entry.key in next.flows && next.flows[p.entry.key].ready
                && EntryOf(multiset(next.queue), p.entry.key).None?
  {
    hide Pop, IsHeap, HandOver, EntryOf;
    PopInv(st);
  }
}
