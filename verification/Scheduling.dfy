/**
  The aggregation process as a state machine on values: its flows, its expiry queue, and the
  atomic steps that the mutex makes of inserting or merging a record, one pass over the
  expired flows, and a reset. The clock and the expiry callback are parameters of the steps.
 */
module Scheduling {
  import opened Bytes
  import opened ExpiryHeap
  import opened FlowContent
  import opened FlowHistory
  import opened FlowAttempts

  datatype Config = Config(rules: Rules, activeTimeout: int, inactiveTimeout: int, maxRetries: int)

  datatype State = State(flows: map<FlowKey, Flow>, queue: seq<Entry>)

  const EMPTY := State(map[], [])

  /** What a callback leaves behind: the record, which it may have edited at will, the flag that says whether the
      correlated fields are filled, and whether it succeeded. */
  datatype CallbackResult = CallbackResult(ok: bool, record: Record, correlated: bool)

  /** Any callback: its behaviour may depend on the number of the call within the pass, the key, the record and the
      flag. */
  type Callback = (nat, FlowKey, Record, bool) -> CallbackResult

  // ---------- a record arrives ----------

  /** The position that a flow's item carries: its place in the queue, or -1 once popped. */
  function IndexOf(queue: seq<Entry>, key: FlowKey): (i: int)
    ensures -1 <= i < |queue|
    ensures i >= 0 ==> queue[i].key == key
    ensures i < 0 ==> forall k :: 0 <= k < |queue| ==> queue[k].key != key
  {
    if queue == [] then -1
    else if queue[|queue| - 1].key == key then |queue| - 1
    else IndexOf(queue[..|queue| - 1], key)
  }

  /** `Update`: a new inactive deadline for the flow's item, then `heap.Fix` at the item's index. */
  function Touch(queue: seq<Entry>, key: FlowKey, inactive: int): seq<Entry> {
    var i := IndexOf(queue, key);
    if i < 0 then Fix(queue, i) else Fix(queue[i := queue[i].(inactive := inactive)], i)
  }

  /** A record that is merged or that opens a flow, and the deadlines that it gets. */
  function AddOrUpdate(c: Config, st: State, key: FlowKey, rec: Record, isIPv4: bool, now: int): State
    requires Aligned(c.rules.e)
  {
    if key in st.flows then
      State(st.flows[key := Apply(c.rules, st.flows[key], Received(rec))],
            Touch(st.queue, key, now + c.inactiveTimeout))
    else
      State(st.flows[key := Open(c.rules, rec, isIPv4)],
            Push(st.queue, Entry(key, now + c.activeTimeout, now + c.inactiveTimeout)))
  }

  /** Any record for any key. A record that is refused is not scheduled: it opens no flow, and a flow that it was to be
      merged into keeps what was merged by then. */
  function Admit(c: Config, st: State, key: FlowKey, rec: Record, isIPv4: bool, now: int): (State, Status)
    requires Aligned(c.rules.e)
  {
    if key in st.flows then
      match TryMerge(c.rules, st.flows[key], rec).1
      case Done => (AddOrUpdate(c, st, key, rec, isIPv4, now), Done)
      case Refused => (st.(flows := st.flows[key := Apply(c.rules, st.flows[key], Spoilt(rec))]), Refused)
      case Panicked => (st, Panicked)
    else
      var status := TryOpened(c.rules.e, rec).status;
      (if status == Done then AddOrUpdate(c, st, key, rec, isIPv4, now) else st, status)
  }

  /** A reset of a stored flow; it stops at the first field that is missing. */
  function Resetting(c: Config, f: Flow): FlowEvent
    requires Aligned(c.rules.e)
  {
    if TryReset(c.rules.e, f.record).status == Done then Cleared else HalfCleared
  }

  function ResetFlow(c: Config, st: State, key: FlowKey): State
    requires Aligned(c.rules.e)
  {
    if key in st.flows then
      st.(flows := st.flows[key := Apply(c.rules, st.flows[key], Resetting(c, st.flows[key]))])
    else st
  }

  // ---------- one iteration of the expiry loop ----------

  predicate Due(e: Entry, now: int) {
    e.active <= now || e.inactive <= now
  }

  datatype Act = Retry | GiveUp | Send | Fail

  /** One pop of a pass, and what was done with it. */
  datatype Popped = Popped(entry: Entry, act: Act)

  function Annotate(r: Rules, f: Flow, rec: Record): (g: Flow)
    requires Aligned(r.e) && Harmless(r.e, f.record, rec)
    ensures g.record == rec && Alike(f, g)
  {
    if rec == f.record then f else Apply(r, f, Annotated(rec))
  }

  /** The same flow but for its record and its history. */
  predicate Alike(f: Flow, g: Flow) {
    g.ready == f.ready && g.retries == f.retries && g.isIPv4 == f.isIPv4 && g.correlated == f.correlated
  }

  /** The callback's record: as it was, reset, or edited, apart from fields that the aggregation does not use. */
  function Rewrite(r: Rules, f: Flow, rec: Record): (g: Flow)
    requires Aligned(r.e)
    ensures g.record == rec && Alike(f, g)
  {
    if Harmless(r.e, f.record, rec) then Annotate(r, f, rec)
    else if Harmless(r.e, Reset(r.e, f.record), rec) then Annotate(r, Apply(r, f, Cleared), rec)
    else Apply(r, f, Edited(rec))
  }

  /** The flow as the callback leaves it. */
  function HandOver(c: Config, f: Flow, res: CallbackResult): (g: Flow)
    requires Aligned(c.rules.e)
    ensures g.record == res.record && g.correlated == res.correlated
    ensures g.ready == f.ready && g.retries == f.retries && g.isIPv4 == f.isIPv4
  {
    Rewrite(c.rules, Apply(c.rules, f, CalledBack(res.correlated)), res.record)
  }

  /** What becomes of a popped flow: the flow if it stays in the map, the entry if it is pushed back. */
  datatype Decision = Decision(flow: Option<Flow>, entry: Option<Entry>, act: Act)

  function Decide(c: Config, f: Flow, e: Entry, now: int, cb: Callback, calls: nat): (d: Decision)
    requires Aligned(c.rules.e)
    ensures d.entry.Some? ==> d.flow.Some? && d.entry.value.key == e.key
  {
    if !f.ready then
      var g := Apply(c.rules, f, Retried);
      if g.retries > c.maxRetries then Decision(None, None, GiveUp)
      else Decision(Some(g), Some(Entry(e.key, now + c.activeTimeout, now + c.inactiveTimeout)), Retry)
    else
      var res := cb(calls, e.key, f.record, f.correlated);
      var g := HandOver(c, f, res);
      if !res.ok then Decision(Some(g), None, Fail)
      else if e.inactive < now then Decision(None, None, Send)
      else if e.active < now then Decision(Some(g), Some(e.(active := now + c.activeTimeout)), Send)
      else Decision(Some(g), None, Send)
  }

  function Settle(st: State, e: Entry, rest: seq<Entry>, d: Decision): State {
    State(if d.flow.Some? then st.flows[e.key := d.flow.value] else st.flows - {e.key},
          if d.entry.Some? then Push(rest, d.entry.value) else rest)
  }

  function ExpireOne(c: Config, st: State, now: int, cb: Callback, calls: nat): (State, Popped)
    requires Aligned(c.rules.e) && st.queue != [] && Pop(st.queue).0.key in st.flows
  {
    var (e, rest) := Pop(st.queue);
    var d := Decide(c, st.flows[e.key], e, now, cb, calls);
    (Settle(st, e, rest, d), Popped(e, d.act))
  }

  // ---------- the invariant ----------

  /** No two entries for one key, and no entry twice. */
  ghost predicate OneEach(m: multiset<Entry>) {
    && (forall e :: e in m ==> m[e] == 1)
    && (forall e, f :: e in m && f in m && e.key == f.key ==> e == f)
  }

  /** The queue is a min-heap on the earlier deadline, holds each key at most once, and only keys of stored flows. */
  ghost predicate Inv(st: State) {
    && IsHeap(st.queue) && OneEach(multiset(st.queue))
    && forall e :: e in multiset(st.queue) ==> e.key in st.flows
  }

  lemma MoreFlowsInv(st: State, flows: map<FlowKey, Flow>)
    requires Inv(st) && st.flows.Keys <= flows.Keys
    ensures Inv(st.(flows := flows))
  {
    hide IsHeap, OneEach;
  }

  lemma PopInv(st: State)
    requires Inv(st) && st.queue != []
    ensures var (e, rest) := Pop(st.queue);
            && e == st.queue[0] && e.key in st.flows && IsHeap(rest)
               && multiset(rest) + multiset{e} == multiset(st.queue)
            && OneEach(multiset(rest)) && (forall f :: f in multiset(rest) ==> f.key in st.flows && f.key != e.key)
            && (forall f :: f in multiset(st.queue) ==> Deadline(e) <= Deadline(f))
  {
    hide Pop, IsHeap;
    PopRestores(st.queue);
    var (e, rest) := Pop(st.queue);
    assert multiset(st.queue)[e] == multiset(rest)[e] + 1;
    assert forall f :: f in multiset(rest) ==> f in multiset(st.queue);
  }

  lemma PushInv(flows: map<FlowKey, Flow>, rest: seq<Entry>, e: Entry)
    requires IsHeap(rest) && OneEach(multiset(rest)) && e.key in flows
    requires forall f :: f in multiset(rest) ==> f.key in flows && f.key != e.key
    ensures Inv(State(flows, Push(rest, e))) && multiset(Push(rest, e)) == multiset(rest) + multiset{e}
  {
    hide Push, IsHeap;
    PushRestores(rest, e);
  }

  lemma SettleInv(st: State, e: Entry, rest: seq<Entry>, d: Decision)
    requires IsHeap(rest) && OneEach(multiset(rest)) && e.key in st.flows
    requires forall f :: f in multiset(rest) ==> f.key in st.flows && f.key != e.key
    requires d.entry.Some? ==> d.flow.Some? && d.entry.value.key == e.key
    ensures var next := Settle(st, e, rest, d);
            && Inv(next)
            && multiset(next.queue) == multiset(rest) + if d.entry.Some? then multiset{d.entry.value} else multiset{}
  {
    hide Push, IsHeap;
    if d.entry.Some? {
      PushInv(st.flows[e.key := d.flow.value], rest, d.entry.value);
    }
  }

  lemma ExpireOneInv(c: Config, st: State, now: int, cb: Callback, calls: nat)
    requires Aligned(c.rules.e) && Inv(st) && st.queue != []
    ensures Pop(st.queue).0.key in st.flows && Inv(ExpireOne(c, st, now, cb, calls).0)
  {
    hide Pop, Push, IsHeap, Decide, Settle;
    PopInv(st);
    var (e, rest) := Pop(st.queue);
    SettleInv(st, e, rest, Decide(c, st.flows[e.key], e, now, cb, calls));
  }

  lemma TouchInv(st: State, key: FlowKey, inactive: int)
    requires Inv(st)
    ensures Inv(st.(queue := Touch(st.queue, key, inactive)))
    ensures var i := IndexOf(st.queue, key);
            multiset(Touch(st.queue, key, inactive)) ==
            if i < 0 then multiset(st.queue)
            else multiset(st.queue) - multiset{st.queue[i]} + multiset{st.queue[i].(inactive := inactive)}
  {
    hide Fix, IsHeap;
    var q, i := st.queue, IndexOf(st.queue, key);
    if i < 0 {
      FixRestores(q, i, Entry(key, 0, 0));
    } else {
      var e := q[i].(inactive := inactive);
      FixRestores(q, i, e);
      assert q[i] in multiset(q);
      assert forall f :: f in multiset(q) - multiset{q[i]} ==> f in multiset(q) && f.key != key;
    }
  }

  /** In a queue that holds each key at most once, the position of a key is unique. */
  lemma IndexUnique(queue: seq<Entry>, i: nat)
    requires OneEach(multiset(queue)) && i < |queue|
    ensures IndexOf(queue, queue[i].key) == i
  {
    hide IndexOf;
    var j := IndexOf(queue, queue[i].key);
    assert queue[i] in multiset(queue) && queue[j] in multiset(queue);
    if i < j {
      Twice(queue, i, j);
    } else if j < i {
      Twice(queue, j, i);
    }
  }

  lemma Twice(s: seq<Entry>, a: nat, b: nat)
    requires a < b < |s| && s[a] == s[b]
    ensures multiset(s)[s[a]] >= 2
  {
    var l, r := s[..b], s[b..];
    assert s == l + r && l[a] == r[0] == s[a];
    assert multiset(s) == multiset(l) + multiset(r);
  }
}
