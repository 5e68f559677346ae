/**
  The expiry queue of the aggregation process, on values: a binary heap of entries ordered
  by the earlier of their two deadlines, with the sift-up, sift-down, push, pop and fix
  steps that Go's `container/heap` performs over the queue's `Less` and `Swap`.
  Times are integers (nanoseconds on one clock).
 */
module ExpiryHeap {

  datatype FlowKey = FlowKey(
    sourceAddress: string, destinationAddress: string,
    protocol: nat, sourcePort: nat, destinationPort: nat)

  /** What the queue knows of one scheduled flow. */
  datatype Entry = Entry(key: FlowKey, active: int, inactive: int)

  function Deadline(e: Entry): int {
    if e.active < e.inactive then e.active else e.inactive
  }

  predicate Less(s: seq<Entry>, i: nat, j: nat)
    requires i < |s| && j < |s|
  {
    Deadline(s[i]) < Deadline(s[j])
  }

  function Swap<T>(s: seq<T>, i: nat, j: nat): seq<T>
    requires i < |s| && j < |s|
  {
    s[i := s[j]][j := s[i]]
  }

  /** Go's `(j - 1) / 2`, which truncates toward zero: the root and index -1 are their own parents. */
  function Parent(j: int): int
    requires -1 <= j
  {
    if j <= 0 then j else (j - 1) / 2
  }

  function SiftUp(s: seq<Entry>, j: int): seq<Entry>
    requires -1 <= j < |s|
    decreases j + 1
  {
    var i := Parent(j);
    if i == j || !Less(s, j, i) then s else SiftUp(Swap(s, i, j), i)
  }

  /** The child that a sift-down from `i` compares with: the smaller one, the left one on a tie. */
  function SmallerChild(s: seq<Entry>, i: nat, n: nat): nat
    requires 2 * i + 1 < n <= |s|
  {
    if 2 * i + 2 < n && Less(s, 2 * i + 2, 2 * i + 1) then 2 * i + 2 else 2 * i + 1
  }

  /** The sequence after sifting down from `i` among the first `n`, and the final position. */
  function SiftDown(s: seq<Entry>, i: int, n: nat): (r: (seq<Entry>, int))
    requires -1 <= i && n <= |s| && i < |s|
    ensures |r.0| == |s| && r.1 < |s| && i <= r.1
    decreases n - i
  {
    if i < 0 || n <= 2 * i + 1 then (s, i)
    else
      var j := SmallerChild(s, i, n);
      if !Less(s, j, i) then (s, i) else SiftDown(Swap(s, i, j), j, n)
  }

  function Fix(s: seq<Entry>, i: int): seq<Entry>
    requires -1 <= i < |s|
  {
    var (t, k) := SiftDown(s, i, |s|);
    if k > i then t else SiftUp(t, i)
  }

  function Push(s: seq<Entry>, e: Entry): seq<Entry> {
    SiftUp(s + [e], |s|)
  }

  /** The popped entry and the remaining queue. */
  function Pop(s: seq<Entry>): (Entry, seq<Entry>)
    requires s != []
  {
    var n := |s| - 1;
    var t := SiftDown(Swap(s, 0, n), 0, n).0;
    (t[n], t[..n])
  }

  // ---------- heap order ----------

  /** No entry among the first `n` is due before its parent, except that the entry at `up` may be, and so may the
      children of `down`. */
  ghost predicate HeapBut(s: seq<Entry>, n: nat, up: int, down: int)
    requires n <= |s|
  {
    forall k :: 1 <= k < n && k != up && Parent(k) != down ==> Deadline(s[Parent(k)]) <= Deadline(s[k])
  }

  ghost predicate IsHeap(s: seq<Entry>) {
    HeapBut(s, |s|, -1, -1)
  }

  /** The children of `i` are not due before the parent of `i`. */
  ghost predicate Bridged(s: seq<Entry>, n: nat, i: int)
    requires n <= |s| && -1 <= i < |s|
  {
    forall k :: 1 <= k < n && Parent(k) == i && 1 <= i ==> Deadline(s[Parent(i)]) <= Deadline(s[k])
  }

  lemma SwapPermutes<T>(s: seq<T>, i: nat, j: nat)
    requires i < |s| && j < |s|
    ensures multiset(Swap(s, i, j)) == multiset(s)
  {
  }

  /** Sifting up only permutes. */
  lemma {:induction false} SiftUpPermutes(s: seq<Entry>, j: int)
    requires -1 <= j < |s|
    ensures |SiftUp(s, j)| == |s|
    ensures multiset(SiftUp(s, j)) == multiset(s)
    decreases j + 1
  {
    var i := Parent(j);
    if i != j && Less(s, j, i) {
      SwapPermutes(s, i, j);
      SiftUpPermutes(Swap(s, i, j), i);
    }
  }

  /** Sifting down only permutes, and leaves everything from `n` on in place. */
  lemma {:induction false} SiftDownPermutes(s: seq<Entry>, i: int, n: nat)
    requires -1 <= i && n <= |s| && i < |s|
    ensures multiset(SiftDown(s, i, n).0) == multiset(s)
    ensures SiftDown(s, i, n).0[n..] == s[n..]
    decreases n - i
  {
    if 0 <= i && 2 * i + 1 < n {
      var j := SmallerChild(s, i, n);
      if Less(s, j, i) {
        SwapPermutes(s, i, j);
        SiftDownPermutes(Swap(s, i, j), j, n);
      }
    }
  }

  lemma {:induction false} SiftUpRestores(s: seq<Entry>, j: int)
    requires 0 <= j < |s|
    requires HeapBut(s, |s|, j, -1) && Bridged(s, |s|, j)
    ensures IsHeap(SiftUp(s, j))
    decreases j
  {
    var i := Parent(j);
    if i != j && Less(s, j, i) {
      SiftUpRestores(Swap(s, i, j), i);
    }
  }

  /** Swapping an entry with its smaller child moves the disorder one level down. */
  lemma SwapDown(s: seq<Entry>, i: nat, n: nat)
    requires 2 * i + 1 < n <= |s| && HeapBut(s, n, i, i) && Bridged(s, n, i)
    requires Less(s, SmallerChild(s, i, n), i)
    ensures var j := SmallerChild(s, i, n);
            HeapBut(Swap(s, i, j), n, -1, j) && Bridged(Swap(s, i, j), n, j)
  {
    var j := SmallerChild(s, i, n);
    var t := Swap(s, i, j);
    assert Parent(j) == i;
    forall k | 1 <= k < n && Parent(k) != j
      ensures Deadline(t[Parent(k)]) <= Deadline(t[k])
    {
      if Parent(k) == i {
        assert k == 2 * i + 1 || k == 2 * i + 2;
      } else if k == i {
        assert Deadline(s[Parent(i)]) <= Deadline(s[j]);
      } else {
        assert t[k] == s[k] && t[Parent(k)] == s[Parent(k)];
      }
    }
    forall k | 1 <= k < n && Parent(k) == j
      ensures Deadline(t[Parent(j)]) <= Deadline(t[k])
    {
      assert t[k] == s[k] && Deadline(s[j]) <= Deadline(s[k]);
    }
  }

  lemma {:induction false} SiftDownRestores(s: seq<Entry>, i: int, n: nat)
    requires 0 <= i && n <= |s| && i < |s|
    requires HeapBut(s, n, -1, i) && Bridged(s, n, i)
    ensures HeapBut(SiftDown(s, i, n).0, n, -1, -1)
    decreases n - i
  {
    if 2 * i + 1 < n && Less(s, SmallerChild(s, i, n), i) {
      hide HeapBut, Bridged, Deadline;
      Weaker(s, n, i);
      SwapDown(s, i, n);
      SiftDownRestores(Swap(s, i, SmallerChild(s, i, n)), SmallerChild(s, i, n), n);
    } else {
      ChildrenInOrder(s, i, n, -1);
    }
  }

  lemma Weaker(s: seq<Entry>, n: nat, i: int)
    requires n <= |s| && HeapBut(s, n, -1, i)
    ensures HeapBut(s, n, i, i)
  {
  }

  lemma ChildrenInOrder(s: seq<Entry>, i: nat, n: nat, up: int)
    requires n <= |s| && i < |s| && HeapBut(s, n, up, i)
    requires 2 * i + 1 < n ==> !Less(s, SmallerChild(s, i, n), i)
    ensures HeapBut(s, n, up, -1)
  {
    forall k | 1 <= k < n && Parent(k) == i
      ensures Deadline(s[i]) <= Deadline(s[k])
    {
      assert k == 2 * i + 1 || k == 2 * i + 2;
    }
  }

  lemma FixOrders(c: seq<Entry>, i: int)
    requires 0 <= i < |c|
    requires HeapBut(c, |c|, i, i) && Bridged(c, |c|, i)
    ensures IsHeap(Fix(c, i))
  {
    var n := |c|;
    if 2 * i + 1 < n && Less(c, SmallerChild(c, i, n), i) {
      hide HeapBut, Bridged, Deadline;
      SwapDown(c, i, n);
      SiftDownRestores(Swap(c, i, SmallerChild(c, i, n)), SmallerChild(c, i, n), n);
    } else {
      ChildrenInOrder(c, i, n, i);
      SiftUpRestores(c, i);
    }
  }

  lemma FixPermutes(c: seq<Entry>, i: int)
    requires -1 <= i < |c|
    ensures |Fix(c, i)| == |c| && multiset(Fix(c, i)) == multiset(c)
  {
    SiftDownPermutes(c, i, |c|);
    SiftUpPermutes(SiftDown(c, i, |c|).0, i);
  }

  /** After any change of one entry's deadlines, `Fix` restores heap order and only permutes;
      on index -1, which a popped item carries, it does nothing. */
  lemma FixRestores(s: seq<Entry>, i: int, e: Entry)
    requires IsHeap(s) && -1 <= i < |s|
    ensures i == -1 ==> Fix(s, i) == s
    ensures i >= 0 ==> IsHeap(Fix(s[i := e], i)) && |Fix(s[i := e], i)| == |s|
    ensures i >= 0 ==> multiset(Fix(s[i := e], i)) == multiset(s) - multiset{s[i]} + multiset{e}
  {
    if i >= 0 {
      var c := s[i := e];
      forall k | 1 <= k < |c| && Parent(k) == i && 1 <= i
        ensures Deadline(c[Parent(i)]) <= Deadline(c[k])
      {
        assert Deadline(s[Parent(i)]) <= Deadline(s[i]) <= Deadline(s[k]);
      }
      FixOrders(c, i);
      FixPermutes(c, i);
    }
  }

  lemma PushRestores(s: seq<Entry>, e: Entry)
    requires IsHeap(s)
    ensures IsHeap(Push(s, e)) && multiset(Push(s, e)) == multiset(s) + multiset{e}
    ensures |Push(s, e)| == |s| + 1
  {
    var t := s + [e];
    assert forall k :: 1 <= k < |s| ==> t[k] == s[k] && t[Parent(k)] == s[Parent(k)];
    SiftUpPermutes(t, |s|);
    SiftUpRestores(t, |s|);
  }

  /** The root of a heap is due no later than anything in it. */
  lemma {:induction false} RootIsEarliest(s: seq<Entry>, k: nat)
    requires IsHeap(s) && k < |s|
    ensures Deadline(s[0]) <= Deadline(s[k])
    decreases k
  {
    if k > 0 {
      RootIsEarliest(s, Parent(k));
    }
  }

  lemma EarliestOverall(s: seq<Entry>)
    requires IsHeap(s) && s != []
    ensures forall f :: f in multiset(s) ==> Deadline(s[0]) <= Deadline(f)
  {
    forall f | f in multiset(s)
      ensures Deadline(s[0]) <= Deadline(f)
    {
      var k :| 0 <= k < |s| && s[k] == f;
      RootIsEarliest(s, k);
    }
  }

  lemma PopOrders(s: seq<Entry>)
    requires IsHeap(s) && s != []
    ensures IsHeap(Pop(s).1)
  {
    var n := |s| - 1;
    var c := Swap(s, 0, n);
    if n > 0 {
      SiftDownRestores(c, 0, n);
    }
  }

  lemma PopTakesRoot(s: seq<Entry>)
    requires s != []
    ensures var (e, t) := Pop(s);
            e == s[0] && multiset(t) + multiset{e} == multiset(s) && |t| == |s| - 1
  {
    var n := |s| - 1;
    var c := Swap(s, 0, n);
    var d := SiftDown(c, 0, n).0;
    SwapPermutes(s, 0, n);
    SiftDownPermutes(c, 0, n);
    hide SiftDown;
    assert d[n] == d[n..][0] && c[n] == c[n..][0];
    assert d == d[..n] + [d[n]];
  }

  /** `Pop` takes out exactly one entry, the earliest, and leaves a heap of the others. */
  lemma PopRestores(s: seq<Entry>)
    requires IsHeap(s) && s != []
    ensures var (e, t) := Pop(s);
            && e == s[0] && IsHeap(t) && multiset(t) + multiset{e} == multiset(s) && |t| == |s| - 1
            && forall f :: f in multiset(s) ==> Deadline(e) <= Deadline(f)
  {
    hide Pop, IsHeap, Deadline;
    PopTakesRoot(s);
    PopOrders(s);
    EarliestOverall(s);
  }
}
