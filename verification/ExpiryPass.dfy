/** One pass over the expired flows: it terminates, and what it does to each flow. */
module ExpiryPass {
  import opened Bytes
  import opened ExpiryHeap
  import opened FlowContent
  import opened FlowHistory
  import opened Scheduling

  // ---------- termination ----------

  /** How many more times an entry can be popped in this pass: once per remaining retry while its flow is
      not ready; twice for a ready one whose active deadline has passed, since it may be pushed back once. */
  function Weight(c: Config, flows: map<FlowKey, Flow>, e: Entry, now: int): nat {
    if e.key !in flows then 0
    else
      var f := flows[e.key];
      if !f.ready then 1 + (if f.retries < c.maxRetries then c.maxRetries - f.retries else 0)
      else if e.active < now then 2 else 1
  }

  function Total(c: Config, flows: map<FlowKey, Flow>, s: seq<Entry>, now: int): nat {
    if s == [] then 0
    else Total(c, flows, s[..|s| - 1], now) + Weight(c, flows, s[|s| - 1], now)
  }

  lemma {:induction false} TotalSplit(c: Config, flows: map<FlowKey, Flow>, a: seq<Entry>, b: seq<Entry>, now: int)
    ensures Total(c, flows, a + b, now) == Total(c, flows, a, now) + Total(c, flows, b, now)
  {
    hide Weight;
    if b == [] {
      assert a + b == a;
    } else {
      TotalSplit(c, flows, a, b[..|b| - 1], now);
      assert (a + b)[..|a + b| - 1] == a + b[..|b| - 1];
    }
  }

  lemma WithoutOne(p: seq<Entry>, l: seq<Entry>, r: seq<Entry>, x: Entry)
    requires multiset(p + [x]) == multiset(l + [x] + r)
    ensures multiset(p) == multiset(l + r)
  {
    assert multiset(p) == multiset(p + [x]) - multiset{x};
    assert multiset(l + r) == multiset(l) + multiset(r);
    assert multiset(l + [x] + r) == multiset(l + [x]) + multiset(r);
    assert multiset(l + [x]) == multiset(l) + multiset{x};
  }

  lemma TotalAround(c: Config, flows: map<FlowKey, Flow>, l: seq<Entry>, x: Entry, r: seq<Entry>, now: int)
    ensures Total(c, flows, l + [x] + r, now) == Total(c, flows, l + r, now) + Weight(c, flows, x, now)
  {
    hide Weight;
    TotalSplit(c, flows, l, r, now);
    TotalSplit(c, flows, l + [x], r, now);
    assert (l + [x])[..|l|] == l;
  }

  lemma Around(b: seq<Entry>, x: Entry) returns (l: seq<Entry>, r: seq<Entry>)
    requires x in b
    ensures b == l + [x] + r
  {
    var i :| 0 <= i < |b| && b[i] == x;
    l, r := b[..i], b[i + 1..];
  }

  /** The total weight does not depend on the order of the queue. */
  lemma {:induction false} TotalOfPermutation(c: Config, flows: map<FlowKey, Flow>, a: seq<Entry>, b: seq<Entry>,
      now: int)
    requires multiset(a) == multiset(b)
    ensures Total(c, flows, a, now) == Total(c, flows, b, now)
  {
    hide Weight, Total;
    if a == [] {
      assert |b| == |multiset(b)|;
    } else {
      var x, p := a[|a| - 1], a[..|a| - 1];
      assert a == p + [x] && x in multiset(b);
      var l, r := Around(b, x);
      WithoutOne(p, l, r, x);
      TotalOfPermutation(c, flows, p, l + r, now);
      TotalAround(c, flows, l, x, r, now);
      TotalAround(c, flows, p, x, [], now);
      assert p + [] == p && p + [x] + [] == a;
    }
  }

  lemma {:induction false} TotalOfOthers(c: Config, flows: map<FlowKey, Flow>, more: map<FlowKey, Flow>, s: seq<Entry>,
      now: int)
    requires forall e :: e in multiset(s) ==> Weight(c, flows, e, now) == Weight(c, more, e, now)
    ensures Total(c, flows, s, now) == Total(c, more, s, now)
  {
    hide Weight;
    if s != [] {
      assert s == s[..|s| - 1] + [s[|s| - 1]];
      TotalOfOthers(c, flows, more, s[..|s| - 1], now);
    }
  }

  /** A ready flow whose active deadline has passed and whose inactive one has not: it is pushed back after its
      callback. */
  predicate Between(f: Flow, e: Entry, now: int) {
    f.ready && e.active < now <= e.inactive
  }

  /** With a negative active timeout such a flow is pushed back already due. */
  ghost predicate Spins(c: Config, st: State, now: int) {
    c.activeTimeout < 0 && exists e :: SpinsAt(st, e, now)
  }

  ghost predicate SpinsAt(st: State, e: Entry, now: int) {
    e in multiset(st.queue) && e.key in st.flows && Between(st.flows[e.key], e, now)
  }

  /** Each iteration, popping included, strictly lowers the total weight, unless a flow is pushed back already due. */
  lemma ExpireOneDecreases(c: Config, st: State, now: int, cb: Callback, calls: nat)
    requires Aligned(c.rules.e) && Inv(st) && st.queue != [] && !Spins(c, st, now)
    ensures Pop(st.queue).0.key in st.flows
    ensures var next := ExpireOne(c, st, now, cb, calls).0;
            Total(c, next.flows, next.queue, now) < Total(c, st.flows, st.queue, now)
  {
    hide Pop, Push, IsHeap, Decide, Settle, Weight, Between;
    PopInv(st);
    var (e, rest) := Pop(st.queue);
    assert c.activeTimeout < 0 ==> !SpinsAt(st, e, now);
    assert e in multiset(st.queue);
    var d := Decide(c, st.flows[e.key], e, now, cb, calls);
    var next := Settle(st, e, rest, d);
    SettleInv(st, e, rest, d);
    TotalWithOne(c, st.flows, st.queue, rest, Some(e), now);
    TotalWithOne(c, next.flows, next.queue, rest, d.entry, now);
    WeightOfOthers(c, st, e, rest, d, now);
    TotalOfOthers(c, st.flows, next.flows, rest, now);
    WeightDrops(c, st, e, rest, d, now, cb, calls);
  }

  lemma TotalWithOne(c: Config, flows: map<FlowKey, Flow>, s: seq<Entry>, rest: seq<Entry>, one: Option<Entry>,
      now: int)
    requires multiset(s) == multiset(rest) + if one.Some? then multiset{one.value} else multiset{}
    ensures Total(c, flows, s, now) == Total(c, flows, rest, now) + if one.Some? then Weight(c, flows, one.value, now)
            else 0
  {
    hide Weight;
    if one.Some? {
      TotalOfPermutation(c, flows, s, rest + [one.value], now);
      assert (rest + [one.value])[..|rest|] == rest;
    } else {
      TotalOfPermutation(c, flows, s, rest, now);
    }
  }

  lemma WeightOfOthers(c: Config, st: State, e: Entry, rest: seq<Entry>, d: Decision, now: int)
    requires forall f :: f in multiset(rest) ==> f.key != e.key
    ensures forall f :: f in multiset(rest) ==>
            Weight(c, st.flows, f, now) == Weight(c, Settle(st, e, rest, d).flows, f, now)
  {
  }

  lemma WeightDrops(c: Config, st: State, e: Entry, rest: seq<Entry>, d: Decision, now: int, cb: Callback, calls: nat)
    requires Aligned(c.rules.e) && e.key in st.flows && (c.activeTimeout >= 0 || !Between(st.flows[e.key], e, now))
    requires d == Decide(c, st.flows[e.key], e, now, cb, calls)
    ensures 1 <= Weight(c, st.flows, e, now)
    ensures d.entry.Some? ==> Weight(c, Settle(st, e, rest, d).flows, d.entry.value, now) < Weight(c, st.flows, e, now)
  {
    hide Merge, Reset;
  }

  // ---------- whether the loop ends ----------

  /** Nothing is due. */
  predicate Over(st: State, now: int) {
    st.queue == [] || !Due(st.queue[0], now)
  }

  function CallsAfter(p: Popped, calls: nat): nat {
    if p.act.Send? then calls + 1 else calls
  }

  /** The loop stops after at most `n` iterations: nothing is due, or a callback fails. */
  ghost predicate EndsWithin(c: Config, st: State, now: int, cb: Callback, calls: nat, n: nat)
    requires Aligned(c.rules.e) && Inv(st)
    decreases n
  {
    || Over(st, now)
    || (n > 0 && (
          ExpireOneInv(c, st, now, cb, calls);
          var (next, p) := ExpireOne(c, st, now, cb, calls);
          p.act.Fail? || EndsWithin(c, next, now, cb, CallsAfter(p, calls), n - 1)))
  }

  ghost predicate Ends(c: Config, st: State, now: int, cb: Callback, calls: nat)
    requires Aligned(c.rules.e) && Inv(st)
  {
    exists n: nat :: EndsWithin(c, st, now, cb, calls, n)
  }

  /** The number of iterations, once some number is known to be enough. */
  ghost function Least(c: Config, st: State, now: int, cb: Callback, calls: nat, n: nat): (k: nat)
    requires Aligned(c.rules.e) && Inv(st) && EndsWithin(c, st, now, cb, calls, n)
    ensures EndsWithin(c, st, now, cb, calls, k) && forall m: nat :: EndsWithin(c, st, now, cb, calls, m) ==> k <= m
    decreases n
  {
    if m: nat :| m < n && EndsWithin(c, st, now, cb, calls, m) then Least(c, st, now, cb, calls, m) else n
  }

  ghost function Left(c: Config, st: State, now: int, cb: Callback, calls: nat): (k: nat)
    requires Aligned(c.rules.e) && Inv(st) && Ends(c, st, now, cb, calls)
    ensures EndsWithin(c, st, now, cb, calls, k) && forall m: nat :: EndsWithin(c, st, now, cb, calls, m) ==> k <= m
  {
    var n: nat :| EndsWithin(c, st, now, cb, calls, n);
    Least(c, st, now, cb, calls, n)
  }

  /** Before the end, one iteration leaves fewer. */
  lemma PassStep(c: Config, st: State, now: int, cb: Callback, calls: nat)
    requires Aligned(c.rules.e) && Inv(st) && Ends(c, st, now, cb, calls) && !Over(st, now)
    ensures Pop(st.queue).0.key in st.flows
    ensures var (next, p) := ExpireOne(c, st, now, cb, calls);
            && Inv(next)
            && (!p.act.Fail? ==>
                  && Ends(c, next, now, cb, CallsAfter(p, calls))
                  && Left(c, next, now, cb, CallsAfter(p, calls)) < Left(c, st, now, cb, calls))
  {
    hide ExpireOne, Inv, CallsAfter;
    ExpireOneInv(c, st, now, cb, calls);
    var (next, p) := ExpireOne(c, st, now, cb, calls);
    if !p.act.Fail? {
      assert EndsWithin(c, next, now, cb, CallsAfter(p, calls), Left(c, st, now, cb, calls) - 1);
    }
  }

  /** A flow that is pushed back already due stays so, and makes something due; nothing else becomes such a flow. */
  lemma SpinsStep(c: Config, st: State, now: int, cb: Callback, calls: nat)
    requires Aligned(c.rules.e) && Inv(st)
    ensures Spins(c, st, now) ==> !Over(st, now)
    ensures !Over(st, now) ==>
              && Pop(st.queue).0.key in st.flows
              && var (next, p) := ExpireOne(c, st, now, cb, calls);
              !p.act.Fail? ==> (Spins(c, next, now) <==> Spins(c, st, now))
  {
    hide Pop, Push, IsHeap, Decide, OneEach, Between;
    if Spins(c, st, now) {
      var x :| SpinsAt(st, x, now);
      EarliestOverall(st.queue);
      BetweenIsDue(st.flows[x.key], x, st.queue[0], now);
    }
    if !Over(st, now) {
      PopInv(st);
      var (e, rest) := Pop(st.queue);
      var d := Decide(c, st.flows[e.key], e, now, cb, calls);
      if c.activeTimeout < 0 && !d.act.Fail? {
        SettleInv(st, e, rest, d);
        DecidedBetween(c, st.flows[e.key], e, now, cb, calls);
        hide Spins;
        SettledBetween(c, st, e, rest, d, now);
      }
    }
  }

  lemma BetweenIsDue(f: Flow, e: Entry, first: Entry, now: int)
    requires Between(f, e, now) && Deadline(first) <= Deadline(e)
    ensures Due(first, now)
  {
  }

  /** Of a popped flow: it is such a flow before exactly if it is one after. */
  lemma DecidedBetween(c: Config, f: Flow, e: Entry, now: int, cb: Callback, calls: nat)
    requires Aligned(c.rules.e) && c.activeTimeout < 0
    ensures var d := Decide(c, f, e, now, cb, calls);
            !d.act.Fail? ==>
              (Between(f, e, now) <==> d.flow.Some? && d.entry.Some? && Between(d.flow.value, d.entry.value, now))
  {
    hide HandOver, Merge, Reset;
  }

  /** What is known of the state before and after a pop that has been settled. */
  ghost predicate Settling(st: State, e: Entry, rest: seq<Entry>, d: Decision, next: State, now: int) {
    && e.key in st.flows && multiset(rest) + multiset{e} == multiset(st.queue)
    && (forall f :: f in multiset(rest) ==> f.key in st.flows && f.key != e.key)
    && (d.entry.Some? ==> d.flow.Some? && d.entry.value.key == e.key)
    && multiset(next.queue) == multiset(rest) + (if d.entry.Some? then multiset{d.entry.value} else multiset{})
    && next.flows == (if d.flow.Some? then st.flows[e.key := d.flow.value] else st.flows - {e.key})
    && (Between(st.flows[e.key], e, now) <==>
        d.flow.Some? && d.entry.Some? && Between(d.flow.value, d.entry.value, now))
  }

  lemma SettledBetween(c: Config, st: State, e: Entry, rest: seq<Entry>, d: Decision, now: int)
    requires Settling(st, e, rest, d, Settle(st, e, rest, d), now)
    ensures Spins(c, Settle(st, e, rest, d), now) <==> Spins(c, st, now)
  {
    hide Push, Settle, Settling, SpinsAt;
    var next := Settle(st, e, rest, d);
    if Spins(c, st, now) {
      var x :| SpinsAt(st, x, now);
      StillBetween(st, e, rest, d, next, now, x);
    }
    if Spins(c, next, now) {
      var y :| SpinsAt(next, y, now);
      WasBetween(st, e, rest, d, next, now, y);
    }
  }

  lemma StillBetween(st: State, e: Entry, rest: seq<Entry>, d: Decision, next: State, now: int, x: Entry)
    requires Settling(st, e, rest, d, next, now) && SpinsAt(st, x, now)
    ensures exists y :: SpinsAt(next, y, now)
  {
    hide Between;
    if x in multiset(rest) {
      assert SpinsAt(next, x, now);
    } else {
      assert SpinsAt(next, d.entry.value, now);
    }
  }

  lemma WasBetween(st: State, e: Entry, rest: seq<Entry>, d: Decision, next: State, now: int, y: Entry)
    requires Settling(st, e, rest, d, next, now) && SpinsAt(next, y, now)
    ensures exists x :: SpinsAt(st, x, now)
  {
    hide Between;
    assert SpinsAt(st, if y in multiset(rest) then y else e, now);
  }

  /** Without such a flow the loop ends, whatever the callbacks do. */
  lemma {:induction false} EndsUnlessSpinning(c: Config, st: State, now: int, cb: Callback, calls: nat)
    requires Aligned(c.rules.e) && Inv(st) && !Spins(c, st, now)
    ensures Ends(c, st, now, cb, calls)
    decreases Total(c, st.flows, st.queue, now)
  {
    hide ExpireOne, Inv, Spins, Total;
    if Over(st, now) {
      assert EndsWithin(c, st, now, cb, calls, 0);
    } else {
      ExpireOneInv(c, st, now, cb, calls);
      ExpireOneDecreases(c, st, now, cb, calls);
      SpinsStep(c, st, now, cb, calls);
      var (next, p) := ExpireOne(c, st, now, cb, calls);
      if p.act.Fail? {
        assert EndsWithin(c, st, now, cb, calls, 1);
      } else {
        EndsUnlessSpinning(c, next, now, cb, CallsAfter(p, calls));
        var n: nat :| EndsWithin(c, next, now, cb, CallsAfter(p, calls), n);
        assert EndsWithin(c, st, now, cb, calls, n + 1);
      }
    }
  }

  lemma NonNegativeEnds(c: Config, st: State, now: int, cb: Callback, calls: nat)
    requires Aligned(c.rules.e) && Inv(st) && c.activeTimeout >= 0
    ensures Ends(c, st, now, cb, calls)
  {
    hide Inv, Ends;
    EndsUnlessSpinning(c, st, now, cb, calls);
  }

  // ---------- the pass ----------

  datatype PassResult = PassResult(st: State, log: seq<Popped>, failed: bool)

  /** `ForAllExpiredFlowRecordsDo`: pop and settle until nothing is due or a callback fails. */
  ghost function ExpirePass(c: Config, st: State, now: int, cb: Callback, calls: nat): PassResult
    requires Aligned(c.rules.e) && Inv(st) && Ends(c, st, now, cb, calls)
    decreases Left(c, st, now, cb, calls)
  {
    if Over(st, now) then PassResult(st, [], false)
    else
      PassStep(c, st, now, cb, calls);
      var (next, p) := ExpireOne(c, st, now, cb, calls);
      if p.act.Fail? then PassResult(next, [p], true)
      else
        var rest := ExpirePass(c, next, now, cb, CallsAfter(p, calls));
        PassResult(rest.st, [p] + rest.log, rest.failed)
  }

  /** A pass over such a flow that ends at all ends in a failed callback. */
  lemma {:induction false} SpinningEndsInFailure(c: Config, st: State, now: int, cb: Callback, calls: nat)
    requires Aligned(c.rules.e) && Inv(st) && Ends(c, st, now, cb, calls) && Spins(c, st, now)
    ensures ExpirePass(c, st, now, cb, calls).failed
    decreases Left(c, st, now, cb, calls)
  {
    hide ExpireOne, Inv, Spins, Left;
    SpinsStep(c, st, now, cb, calls);
    PassStep(c, st, now, cb, calls);
    var (next, p) := ExpireOne(c, st, now, cb, calls);
    if !p.act.Fail? {
      SpinningEndsInFailure(c, next, now, cb, CallsAfter(p, calls));
    }
  }

  ghost predicate Obliging(cb: Callback) {
    forall n, key, rec, flag :: cb(n, key, rec, flag).ok
  }

  lemma {:induction false} ObligingPassSucceeds(c: Config, st: State, now: int, cb: Callback, calls: nat)
    requires Aligned(c.rules.e) && Inv(st) && Ends(c, st, now, cb, calls) && Obliging(cb)
    ensures !ExpirePass(c, st, now, cb, calls).failed
    decreases Left(c, st, now, cb, calls)
  {
    hide IsHeap, Pop, Settle, Apply, HandOver, Left, Inv;
    if !Over(st, now) {
      PassStep(c, st, now, cb, calls);
      var (next, p) := ExpireOne(c, st, now, cb, calls);
      ObligingPassSucceeds(c, next, now, cb, CallsAfter(p, calls));
    }
  }

  /** Exactly when the loop ends. It ends if the active timeout is not negative or no ready flow is queued between its
      two deadlines; otherwise it ends only in a failed callback, and with callbacks that succeed it pops for ever. */
  lemma EndsExactly(c: Config, st: State, now: int, cb: Callback, calls: nat)
    requires Aligned(c.rules.e) && Inv(st)
    ensures !Spins(c, st, now) ==> Ends(c, st, now, cb, calls)
    ensures Spins(c, st, now) && Ends(c, st, now, cb, calls) ==> ExpirePass(c, st, now, cb, calls).failed
    ensures Obliging(cb) ==> (Ends(c, st, now, cb, calls) <==> !Spins(c, st, now))
  {
    hide Inv, Spins, Ends, ExpirePass, Obliging;
    if !Spins(c, st, now) {
      EndsUnlessSpinning(c, st, now, cb, calls);
    } else if Ends(c, st, now, cb, calls) {
      SpinningEndsInFailure(c, st, now, cb, calls);
      if Obliging(cb) {
        ObligingPassSucceeds(c, st, now, cb, calls);
      }
    }
  }

  /** Every pass, failed or not, keeps the queue a heap of stored flows, and a pass that did not fail leaves only
      entries both of whose deadlines are still to come. */
  lemma {:induction false} PassKeepsInv(c: Config, st: State, now: int, cb: Callback, calls: nat)
    requires Aligned(c.rules.e) && Inv(st) && Ends(c, st, now, cb, calls)
    ensures var res := ExpirePass(c, st, now, cb, calls);
            && Inv(res.st)
            && (!res.failed ==> forall e :: e in multiset(res.st.queue) ==> now < e.active && now < e.inactive)
    decreases Left(c, st, now, cb, calls)
  {
    hide ExpireOne, IsHeap, Left;
    if Over(st, now) {
      if st.queue != [] {
        EarliestOverall(st.queue);
      }
    } else {
      PassStep(c, st, now, cb, calls);
      var (next, p) := ExpireOne(c, st, now, cb, calls);
      if !p.act.Fail? {
        PassKeepsInv(c, next, now, cb, CallsAfter(p, calls));
      }
    }
  }

  // ---------- order ----------

  /** Deadlines in the order popped, none before `floor`. */
  ghost predicate Ordered(log: seq<Popped>, floor: int) {
    log != [] ==> floor <= Deadline(log[0].entry) && Ordered(log[1..], Deadline(log[0].entry))
  }

  lemma DecideNotBefore(c: Config, f: Flow, e: Entry, now: int, cb: Callback, calls: nat)
    requires Aligned(c.rules.e) && c.activeTimeout >= 0 && c.inactiveTimeout >= 0 && Due(e, now)
    ensures var d := Decide(c, f, e, now, cb, calls);
            d.entry.Some? ==> Deadline(e) <= Deadline(d.entry.value)
  {
    hide Apply;
  }

  /** With timeouts of zero or more, flows are popped in order of their deadlines. */
  lemma {:induction false} PopsInOrder(c: Config, st: State, now: int, cb: Callback, calls: nat, floor: int)
    requires Aligned(c.rules.e) && Inv(st) && Ends(c, st, now, cb, calls) && c.activeTimeout >= 0
             && c.inactiveTimeout >= 0
    requires forall e :: e in multiset(st.queue) ==> floor <= Deadline(e)
    ensures Ordered(ExpirePass(c, st, now, cb, calls).log, floor)
    decreases Left(c, st, now, cb, calls)
  {
    hide IsHeap, Pop, Decide, Settle, Left, Ends;
    if !Over(st, now) {
      PassStep(c, st, now, cb, calls);
      var (next, p) := ExpireOne(c, st, now, cb, calls);
      PopInv(st);
      var (e, rest) := Pop(st.queue);
      var d := Decide(c, st.flows[e.key], e, now, cb, calls);
      SettleInv(st, e, rest, d);
      DecideNotBefore(c, st.flows[e.key], e, now, cb, calls);
      assert e in multiset(st.queue);
      assert forall f :: f in multiset(rest) ==> f in multiset(st.queue);
      if !p.act.Fail? {
        PopsInOrder(c, next, now, cb, CallsAfter(p, calls), Deadline(e));
        var more := ExpirePass(c, next, now, cb, CallsAfter(p, calls)).log;
        assert ([p] + more)[1..] == more;
      } else {
        assert [p][1..] == [];
      }
    }
  }
}
