/** The expiry queue as the source keeps it: a slice of item pointers, each item carrying its own position. */
module ExpiryQueue {
  import opened Bytes
  import opened ExpiryHeap
  import opened FlowContent
  import opened FlowHistory

  /** A record as the aggregation handles it: a list of elements changed in place. */
  class FlowRecord {
    var elements: Record

    constructor (elements: Record)
      ensures this.elements == elements
    {
      this.elements := elements;
    }

    /** Linear search by name; the first match wins. */
    method GetInfoElementWithValue(name: string) returns (i: nat, exist: bool)
      ensures exist <==> Find(elements, name).Some?
      ensures exist ==> i < |elements| && Find(elements, name) == Some(elements[i])
      ensures exist ==> forall v :: Put(elements, name, v) == elements[i := elements[i].(value := v)]
    {
      hide Find, Put;
      i := 0;
      while i < |elements| && elements[i].ie.name != name
        invariant i <= |elements| && forall k :: 0 <= k < i ==> elements[k].ie.name != name
      {
        i := i + 1;
      }
      exist := i < |elements|;
      FirstMatch(elements, name, i);
    }
  }

  lemma {:induction false} FirstMatch(rec: Record, name: string, i: nat)
    requires i <= |rec| && forall k :: 0 <= k < i ==> rec[k].ie.name != name
    requires i < |rec| ==> rec[i].ie.name == name
    ensures Find(rec, name) == if i < |rec| then Some(rec[i]) else None
    ensures forall v :: Put(rec, name, v) == if i < |rec| then rec[i := rec[i].(value := v)] else rec
    decreases i
  {
    if i > 0 {
      FirstMatch(rec[1..], name, i - 1);
      forall v
        ensures Put(rec, name, v) == if i < |rec| then rec[i := rec[i].(value := v)] else rec
      {
        assert Put(rec, name, v) == [rec[0]] + Put(rec[1..], name, v);
      }
    } else if rec != [] {
      assert forall v :: rec[0 := rec[0].(value := v)] == [rec[0].(value := v)] + rec[1..];
    }
  }

  class AggregationFlowRecord {
    var record: FlowRecord
    var priorityQueueItem: ItemToExpire?
    var readyToSend: bool
    var waitForReadyToSendRetries: nat
    var areCorrelatedFieldsFilled: bool
    var areExternalFieldsFilled: bool
    var isIPv4: bool
    /** What happened to the flow since it was opened. */
    ghost var history: seq<FlowEvent>

    constructor (record: FlowRecord, isIPv4: bool)
      ensures this.record == record && this.isIPv4 == isIPv4 && priorityQueueItem == null
      ensures !readyToSend && waitForReadyToSendRetries == 0 && !areCorrelatedFieldsFilled && !areExternalFieldsFilled
      ensures history == []
    {
      this.record, this.isIPv4, priorityQueueItem := record, isIPv4, null;
      readyToSend, waitForReadyToSendRetries := false, 0;
      areCorrelatedFieldsFilled, areExternalFieldsFilled := false, false;
      history := [];
    }
  }

  class ItemToExpire {
    var flowKey: FlowKey
    var flowRecord: AggregationFlowRecord?
    var activeExpireTime: int
    var inactiveExpireTime: int
    var index: int

    constructor (flowKey: FlowKey, flowRecord: AggregationFlowRecord, active: int, inactive: int)
      ensures this.flowKey == flowKey && this.flowRecord == flowRecord
      ensures activeExpireTime == active && inactiveExpireTime == inactive && index == 0
    {
      this.flowKey, this.flowRecord := flowKey, flowRecord;
      activeExpireTime, inactiveExpireTime, index := active, inactive, 0;
    }

    function Scheduled(): Entry
      reads this`flowKey, this`activeExpireTime, this`inactiveExpireTime
    {
      Entry(flowKey, activeExpireTime, inactiveExpireTime)
    }
  }

  class TimeToExpirePriorityQueue {
    var items: seq<ItemToExpire>

    constructor ()
      ensures items == []
    {
      items := [];
    }

    /** Every item knows its position. */
    ghost predicate Indexed()
      reads this, items
    {
      forall i :: 0 <= i < |items| ==> items[i].index == i
    }

    ghost function Entries(): (s: seq<Entry>)
      reads this, items
      ensures |s| == |items| && forall i :: 0 <= i < |items| ==> s[i] == items[i].Scheduled()
    {
      seq(|items|, i requires 0 <= i < |items| reads this, items => items[i].Scheduled())
    }

    function MinExpireTime(i: nat): (t: int)
      requires i < |items|
      reads this, items
      ensures t == Deadline(Entries()[i])
    {
      if items[i].activeExpireTime < items[i].inactiveExpireTime then items[i].activeExpireTime
      else items[i].inactiveExpireTime
    }

    ghost function Members(): set<ItemToExpire>
      reads this
    {
      set x | x in items
    }

    /** The child of `i` that is due first. */
    function EarlierChild(i: nat, n: nat): (j: nat)
      requires 2 * i + 1 < n <= |items|
      reads this, items
      ensures i < j < n && j == SmallerChild(Entries(), i, n)
    {
      if 2 * i + 2 < n && MinExpireTime(2 * i + 2) < MinExpireTime(2 * i + 1) then 2 * i + 2 else 2 * i + 1
    }

    method Swap(i: nat, j: nat)
      requires i < |items| && j < |items| && Indexed()
      modifies this, Members()`index
      ensures Indexed() && items == ExpiryHeap.Swap(old(items), i, j) && Members() == old(Members())
      ensures Entries() == ExpiryHeap.Swap(old(Entries()), i, j)
    {
      items := items[i := items[j]][j := items[i]];
      items[i].index := i;
      items[j].index := j;
      assert old(items)[i] == items[j] && old(items)[j] == items[i];
      assert forall k :: 0 <= k < |items| && k != i && k != j ==> old(items)[k] == items[k];
    }

    /** `container/heap`'s `up`. */
    method Up(from: int)
      requires -1 <= from < |items| && Indexed()
      modifies this, Members()`index
      ensures Indexed() && Members() == old(Members()) && |items| == old(|items|)
      ensures Entries() == SiftUp(old(Entries()), from)
    {
      var j := from;
      while true
        invariant -1 <= j < |items| == old(|items|) && Indexed() && Members() == old(Members())
        invariant SiftUp(Entries(), j) == SiftUp(old(Entries()), from)
        decreases j + 1
      {
        var i := Parent(j);
        if i == j || !(MinExpireTime(j) < MinExpireTime(i)) {
          break;
        }
        Swap(i, j);
        j := i;
      }
    }

    /** `container/heap`'s `down`. */
    method Down(from: int, n: nat) returns (moved: bool)
      requires -1 <= from < |items| && n <= |items| && Indexed()
      modifies this, Members()`index
      ensures Indexed() && Members() == old(Members()) && |items| == old(|items|)
      ensures forall k :: n <= k < |items| ==> items[k] == old(items)[k]
      ensures Entries() == SiftDown(old(Entries()), from, n).0
      ensures moved == (SiftDown(old(Entries()), from, n).1 > from)
    {
      hide SiftDown, SmallerChild, EarlierChild, MinExpireTime, Entries;
      var i := from;
      while true
        invariant from <= i < |items| == old(|items|) && Indexed() && Members() == old(Members())
        invariant forall k :: n <= k < |items| ==> items[k] == old(items)[k]
        invariant SiftDown(Entries(), i, n) == SiftDown(old(Entries()), from, n)
        decreases n - i
      {
        SiftDownStep(Entries(), i, n);
        var j1 := 2 * i + 1;
        if j1 >= n || j1 < 0 {
          break;
        }
        var j := EarlierChild(i, n);
        if !(MinExpireTime(j) < MinExpireTime(i)) {
          break;
        }
        Swap(i, j);
        i := j;
      }
      moved := i > from;
    }

    static lemma SiftDownStep(s: seq<Entry>, i: int, n: nat)
      requires -1 <= i && n <= |s| && i < |s|
      ensures SiftDown(s, i, n) ==
              if i < 0 || n <= 2 * i + 1 || !Less(s, SmallerChild(s, i, n), i) then (s, i)
              else SiftDown(ExpiryHeap.Swap(s, i, SmallerChild(s, i, n)), SmallerChild(s, i, n), n)
    {
    }

    method HeapFix(i: int)
      requires -1 <= i < |items| && Indexed()
      modifies this, Members()`index
      ensures Indexed() && Members() == old(Members()) && |items| == old(|items|)
      ensures Entries() == Fix(old(Entries()), i)
    {
      hide SiftDown, SiftUp;
      var moved := Down(i, |items|);
      if !moved {
        Up(i);
      }
    }

    /** `heap.Push`: the item is appended with its position and sifted up. */
    method HeapPush(item: ItemToExpire)
      requires Indexed() && item !in items
      modifies this, Members()`index, item`index
      ensures Indexed() && Members() == old(Members()) + {item} && |items| == old(|items|) + 1
      ensures Entries() == Push(old(Entries()), item.Scheduled())
    {
      hide SiftUp;
      item.index := |items|;
      items := items + [item];
      assert Entries() == old(Entries()) + [item.Scheduled()];
      Up(|items| - 1);
    }

    /** `heap.Pop`: the root is swapped to the end, the rest sifted down, and the last item cut off with index -1. */
    method HeapPop() returns (item: ItemToExpire)
      requires Indexed() && items != []
      modifies this, Members()`index
      ensures Indexed() && item == old(items[0]) && item.index == -1
      ensures Members() == old(Members()) - {item} && |items| == old(|items|) - 1
      ensures item.Scheduled() == Pop(old(Entries())).0 && Entries() == Pop(old(Entries())).1
    {
      hide SiftDown, Entries;
      var n := |items| - 1;
      Swap(0, n);
      var moved := Down(0, n);
      item := items[n];
      Cut(n);
    }

    /** The queue's own `Pop`: the last item leaves the slice and forgets its position. */
    method Cut(n: nat)
      requires Indexed() && n == |items| - 1
      modifies this, Members()`index
      ensures Indexed() && old(items[n]).index == -1 && items == old(items)[..n]
      ensures Members() == old(Members()) - {old(items[n])}
      ensures Entries() == old(Entries())[..n] && old(items[n]).Scheduled() == old(Entries())[n]
    {
      ghost var before := items;
      items[n].index := -1;
      items := items[..n];
      assert before == items + [before[n]];
      assert forall x :: x in before <==> x in items || x == before[n];
    }

    /** An item is in the queue or carries the index of a popped one. With `Indexed`, its index is its position or
        -1. */
    ghost predicate Placed(item: ItemToExpire)
      reads this, item
    {
      item.index == -1 || item in items
    }

    lemma PlacedMeansIndexed(item: ItemToExpire)
      requires Indexed() && Placed(item)
      ensures if item in items then 0 <= item.index < |items| && items[item.index] == item else item.index == -1
    {
    }

    /** `Update`: an item gets new deadlines and is moved to where it now belongs, if it is queued. */
    method Update(item: ItemToExpire, flowKey: FlowKey, flowRecord: AggregationFlowRecord, active: int, inactive: int)
      requires Indexed() && Placed(item)
      modifies this, Members()`index, item
      ensures Indexed() && Members() == old(Members()) && |items| == old(|items|)
      ensures item.flowKey == flowKey && item.flowRecord == flowRecord
      ensures item.activeExpireTime == active && item.inactiveExpireTime == inactive
      ensures var i, e := old(item.index), Entry(flowKey, active, inactive);
              Entries() == if i == -1 then Fix(old(Entries()), i) else Fix(old(Entries())[i := e], i)
      ensures old(item.index) == -1 ==> item.index == -1
    {
      hide SiftDown, SiftUp, Fix;
      PlacedMeansIndexed(item);
      item.flowKey, item.flowRecord := flowKey, flowRecord;
      item.activeExpireTime, item.inactiveExpireTime := active, inactive;
      assert Entries() == if item.index == -1 then old(Entries()) else old(Entries())[item.index := item.Scheduled()];
      HeapFix(item.index);
    }
  }
}
