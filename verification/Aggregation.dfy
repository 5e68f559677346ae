/** The aggregation process as the source keeps it: a map of record pointers and a queue of item pointers that refer to
    each other. */
module Aggregation {
  import opened Bytes
  import opened ExpiryHeap
  import opened FlowContent
  import opened FlowAttempts
  import opened FlowHistory
  import opened Scheduling
  import opened ExpiryPass
  import opened AggregationRuns
  import opened LiveFlows
  import opened ExpiryQueue
  import opened RecordMerger

  datatype ExpiryError = NoError | CallbackFailed | DeleteFailed

  class AggregationProcess {
    const merger: Merger
    const expirePriorityQueue: TimeToExpirePriorityQueue
    const activeExpiryTimeout: int
    const inactiveExpiryTimeout: int
    const maxRetries: int
    var flowKeyRecordMap: map<FlowKey, AggregationFlowRecord>
    ghost var repr: set<object>

    ghost function Cfg(): Config {
      Config(Rules(merger.e, merger.fields), activeExpiryTimeout, inactiveExpiryTimeout, maxRetries)
    }

    static ghost function FlowOf(a: AggregationFlowRecord): Flow
      reads a, a.record
    {
      Flow(a.record.elements, a.readyToSend, a.waitForReadyToSendRetries, a.areCorrelatedFieldsFilled, a.isIPv4,
        a.history)
    }

    /** The record under a key and its item point at each other, and the item is where its index says. */
    ghost predicate Linked(key: FlowKey)
      requires key in flowKeyRecordMap
      reads this, repr
    {
      var a := flowKeyRecordMap[key];
      && a in repr && a.record in repr
      && a.priorityQueueItem != null && a.priorityQueueItem in repr
      && a.priorityQueueItem.flowRecord == a && a.priorityQueueItem.flowKey == key
      && expirePriorityQueue in repr && expirePriorityQueue.Placed(a.priorityQueueItem)
    }

    /** Each queued item is the item of the record stored under its key. */
    ghost predicate Backed(item: ItemToExpire)
      reads this, repr
    {
      && item in repr && item.flowKey in flowKeyRecordMap && flowKeyRecordMap[item.flowKey] in repr
      && flowKeyRecordMap[item.flowKey].priorityQueueItem == item
    }

    ghost predicate Shape()
      reads this, repr
    {
      && this in repr && expirePriorityQueue in repr
      && (forall key :: key in flowKeyRecordMap ==> Linked(key))
      && (forall i :: 0 <= i < |expirePriorityQueue.items| ==> Backed(expirePriorityQueue.items[i]))
      && (forall k1, k2 :: k1 in flowKeyRecordMap && k2 in flowKeyRecordMap && k1 != k2 ==>
            flowKeyRecordMap[k1].record != flowKeyRecordMap[k2].record)
      && expirePriorityQueue.Indexed()
    }

    ghost function Flows(): map<FlowKey, Flow>
      requires Shape()
      reads this, repr
    {
      map key | key in flowKeyRecordMap :: (assert Linked(key); FlowOf(flowKeyRecordMap[key]))
    }

    ghost function Queue(): seq<Entry>
      requires Shape()
      reads this, repr
    {
      assert forall i :: 0 <= i < |expirePriorityQueue.items| ==> Backed(expirePriorityQueue.items[i]);
      expirePriorityQueue.Entries()
    }

    /** The state that the pointers stand for. */
    ghost function Abs(): State
      requires Shape()
      reads this, repr
    {
      State(Flows(), Queue())
    }

    ghost predicate Valid()
      reads this, repr
    {
      Shape() && Inv(Abs())
    }

    constructor (merger: Merger, active: int, inactive: int, maxRetries: int)
      ensures Valid() && fresh(repr) && Abs() == EMPTY
      ensures Cfg() == Config(Rules(merger.e, merger.fields), active, inactive, maxRetries)
    {
      this.merger, activeExpiryTimeout, inactiveExpiryTimeout, this.maxRetries := merger, active, inactive, maxRetries;
      flowKeyRecordMap := map[];
      var q := new TimeToExpirePriorityQueue();
      expirePriorityQueue := q;
      repr := {this, q};
    }

    // ---------- what the links give ----------

    /** Different keys have different records and items, so changing one flow leaves the others alone. */
    lemma Separate(k1: FlowKey, k2: FlowKey)
      requires Shape() && k1 in flowKeyRecordMap && k2 in flowKeyRecordMap && k1 != k2
      ensures flowKeyRecordMap[k1] != flowKeyRecordMap[k2]
      ensures flowKeyRecordMap[k1].record != flowKeyRecordMap[k2].record
      ensures flowKeyRecordMap[k1].priorityQueueItem != flowKeyRecordMap[k2].priorityQueueItem
    {
      assert Linked(k1) && Linked(k2);
    }

    /** The index that an item carries is the position of its key in the queue, or -1. */
    lemma IndexIsPosition(key: FlowKey)
      requires Valid() && key in flowKeyRecordMap
      ensures Linked(key) && flowKeyRecordMap[key].priorityQueueItem.index == IndexOf(Queue(), key)
    {
      hide IsHeap;
      assert Linked(key);
      var item := flowKeyRecordMap[key].priorityQueueItem;
      var q := expirePriorityQueue;
      q.PlacedMeansIndexed(item);
      if item.index == -1 {
        forall i | 0 <= i < |q.items|
          ensures Queue()[i].key != key
        {
          assert Backed(q.items[i]);
        }
      } else {
        IndexUnique(Queue(), item.index);
      }
    }

    // ---------- steps ----------

    method DeleteFlowKeyFromMapWithoutLock(key: FlowKey) returns (err: bool)
      modifies this`flowKeyRecordMap
      ensures err <==> key !in old(flowKeyRecordMap)
      ensures flowKeyRecordMap == old(flowKeyRecordMap) - {key}
    {
      err := key !in flowKeyRecordMap;
      if !err {
        flowKeyRecordMap := flowKeyRecordMap - {key};
      }
    }

    /** How a merge that ended so shows in the history. */
    static function Ended(status: Status, rec: Record): FlowEvent {
      if status == Done then Received(rec) else Spoilt(rec)
    }

    /** The correlation, if the stored flow waits for it. */
    method CorrelateInto(a: AggregationFlowRecord, record: FlowRecord) returns (status: Status)
      requires record != a.record
      modifies a, a.record
      ensures a.record == old(a.record) && a.priorityQueueItem == old(a.priorityQueueItem)
      ensures var (g, s) := TryCorrelated(Cfg().rules, old(FlowOf(a)), record.elements);
              status == s && (s == Done ==> FlowOf(a) == g)
    {
      hide TryCorrelate, FromNode, CorrelationRequired, Find, ReadableType, ReadableNodes;
      status := Done;
      if !ReadableType(record.elements) {
        return Panicked;
      }
      if CorrelationRequired(record.elements) && !a.readyToSend {
        if !ReadableNodes(record.elements, a.record.elements) {
          return Panicked;
        }
        if !FromSameNode(record.elements, a.record.elements) {
          status := merger.CorrelateRecords(record, a.record);
          if status != Done {
            return;
          }
          a.readyToSend := true;
          a.areCorrelatedFieldsFilled := true;
        }
      }
    }

    /** The aggregation, for the sides that the record reports for. */
    method AggregateInto(a: AggregationFlowRecord, record: FlowRecord) returns (status: Status)
      requires Aligned(merger.e) && record != a.record
      modifies a.record
      ensures (FlowOf(a), status) == TryAggregated(Cfg().rules, old(FlowOf(a)), record.elements)
    {
      hide TryAggregate, FromNode, CorrelationRequired, Find, ReadableNode;
      if CorrelationRequired(record.elements) {
        if !ReadableNode(record.elements, Source) {
          return Panicked;
        }
        if FromNode(record.elements, Source) {
          status := merger.AggregateRecords(record, a.record, true, false);
        } else {
          status := merger.AggregateRecords(record, a.record, false, true);
        }
      } else {
        status := merger.AggregateRecords(record, a.record, true, true);
      }
    }

    /** The part of `addOrUpdateRecordInMap` that merges an incoming record into a stored one. */
    method MergeInto(a: AggregationFlowRecord, record: FlowRecord) returns (status: Status)
      requires Aligned(merger.e) && record != a.record
      modifies a, a.record
      ensures a.record == old(a.record) && a.priorityQueueItem == old(a.priorityQueueItem)
      ensures status == TryMerge(Cfg().rules, old(FlowOf(a)), record.elements).1
      ensures status != Panicked ==>
                FlowOf(a) == Apply(Cfg().rules, old(FlowOf(a)), Ended(status, record.elements))
    {
      hide Merge, TryCorrelated, TryAggregated;
      ghost var f := FlowOf(a);
      NotRefused(Cfg().rules, f, record.elements);
      status := CorrelateInto(a, record);
      if status != Done {
        return;
      }
      SameHistory(Cfg().rules, f, record.elements);
      status := AggregateInto(a, record);
      if status == Done {
        DoneMerges(Cfg().rules, f, record.elements);
      }
      a.history := a.history + [Ended(status, record.elements)];
    }

    static lemma NotRefused(r: Rules, f: Flow, rec: Record)
      ensures TryCorrelated(r, f, rec).1 != Refused
    {
      hide TryCorrelate, CorrelationRequired, Correlating, ReadableType, ReadableNodes;
      DoneCorrelates(r.fields, rec, f.record, 0);
    }

    static lemma SameHistory(r: Rules, f: Flow, rec: Record)
      requires Aligned(r.e)
      ensures TryCorrelated(r, f, rec).0.history == f.history
      ensures forall g :: TryAggregated(r, g, rec).0.history == g.history
    {
      hide TryCorrelate, TryAggregate, CorrelationRequired, Correlating, ReadableType, ReadableNodes, ReadableNode;
    }

    /** The new fields of a record that opens a flow. */
    method AddFields(record: FlowRecord, fs: bool, fd: bool) returns (status: Status)
      requires Aligned(merger.e)
      modifies record
      ensures var a := TryAddStats(merger.e, old(record.elements), fs, fd, 0);
              Attempt(record.elements, status) ==
              if a.status != Done then a else TryAddFields(merger.e, a.rec, fs, fd)
    {
      hide TryAddStats, TryAddFields;
      status := merger.AddFieldsForStatsAggregation(record, fs, fd);
      if status == Done {
        status := merger.AddFieldsForThroughputCalculation(record, fs, fd);
      }
    }

    /** The part of `addOrUpdateRecordInMap` that opens a flow with an incoming record. */
    method OpenWith(record: FlowRecord, isIPv4: bool) returns (a: AggregationFlowRecord?, status: Status)
      requires Aligned(merger.e)
      modifies record
      ensures status == TryOpened(merger.e, old(record.elements)).status
      ensures a == null <==> status != Done
      ensures status == Done ==>
                && fresh(a) && a.record == record && a.priorityQueueItem == null
                && FlowOf(a) == Open(Cfg().rules, old(record.elements), isIPv4)
    {
      hide TryAddStats, TryAddFields, Opened, FromNode, Find, Get8, NameOf, ReadableType, ReadableNode,
        CorrelationRequired;
      a := null;
      ghost var was := record.elements;
      if !ReadableType(record.elements) {
        return null, Panicked;
      }
      var required := CorrelationRequired(record.elements);
      var flowType := Get8(record.elements, FLOW_TYPE);
      if required {
        if !ReadableNode(record.elements, Source) {
          return null, Panicked;
        }
        if FromNode(record.elements, Source) {
          status := AddFields(record, true, false);
        } else {
          status := AddFields(record, false, true);
        }
      } else {
        status := AddFields(record, true, true);
      }
      if status != Done {
        return;
      }
      DoneOpens(merger.e, was);
      a := new AggregationFlowRecord(record, isIPv4);
      if !required {
        a.readyToSend := true;
        a.areCorrelatedFieldsFilled := flowType != INTER_NODE;
      }
      a.history := [Received(was)];
    }

    // ---------- changing one flow ----------

    /** The stored flow under `key` is as it was, with the same item for the same key, still where its index says. */
    twostate predicate Undisturbed(key: FlowKey)
      requires old(Shape()) && key in old(flowKeyRecordMap) && old(repr) <= repr
      reads this, repr
    {
      assert old(Linked(key));
      var a := old(flowKeyRecordMap[key]);
      Kept(key, a, old(a.record), old(a.priorityQueueItem))
    }

    twostate predicate Kept(key: FlowKey, a: AggregationFlowRecord, record: FlowRecord, item: ItemToExpire)
      reads a, record, item, expirePriorityQueue
    {
      && unchanged(a) && unchanged(record)
      && item.flowKey == key && item.flowRecord == a && expirePriorityQueue.Placed(item)
    }

    /** Nothing but the flow under `key` was changed, added or removed. */
    twostate predicate OnlyChanged(key: FlowKey)
      reads this, repr
    {
      && old(Shape()) && old(repr) <= repr && this in repr && expirePriorityQueue in repr
      && flowKeyRecordMap - {key} == old(flowKeyRecordMap) - {key}
      && (forall k :: k in old(flowKeyRecordMap) && k != key ==> Undisturbed(k))
      && (key in flowKeyRecordMap ==> Linked(key))
    }

    twostate lemma OthersKept(key: FlowKey)
      requires OnlyChanged(key)
      ensures forall k :: k != key ==> (k in flowKeyRecordMap <==> k in old(flowKeyRecordMap))
      ensures forall k :: k in flowKeyRecordMap && k != key ==>
                && flowKeyRecordMap[k] == old(flowKeyRecordMap[k]) && Linked(k)
                && flowKeyRecordMap[k].record == old(flowKeyRecordMap[k].record)
                && FlowOf(flowKeyRecordMap[k]) == old(FlowOf(flowKeyRecordMap[k]))
    {
      forall k | k != key
        ensures k in flowKeyRecordMap <==> k in old(flowKeyRecordMap)
      {
        assert k in flowKeyRecordMap - {key} <==> k in old(flowKeyRecordMap) - {key};
      }
      forall k | k in flowKeyRecordMap && k != key
        ensures flowKeyRecordMap[k] == old(flowKeyRecordMap[k]) && Linked(k)
        ensures flowKeyRecordMap[k].record == old(flowKeyRecordMap[k].record)
        ensures FlowOf(flowKeyRecordMap[k]) == old(FlowOf(flowKeyRecordMap[k]))
      {
        assert flowKeyRecordMap[k] == (flowKeyRecordMap - {key})[k] == (old(flowKeyRecordMap) - {key})[k];
        assert old(Linked(k)) && Undisturbed(k);
      }
    }

    twostate lemma ItemsBacked(key: FlowKey)
      requires OnlyChanged(key)
      requires forall x :: x in expirePriorityQueue.Members() ==>
                 || (key in flowKeyRecordMap && x == flowKeyRecordMap[key].priorityQueueItem)
                 || (x in old(expirePriorityQueue.Members()) && old(x.flowKey) != key)
      ensures forall i :: 0 <= i < |expirePriorityQueue.items| ==> Backed(expirePriorityQueue.items[i])
    {
      OthersKept(key);
      forall i | 0 <= i < |expirePriorityQueue.items|
        ensures Backed(expirePriorityQueue.items[i])
      {
        var x := expirePriorityQueue.items[i];
        assert x in expirePriorityQueue.Members();
        if x in old(expirePriorityQueue.Members()) && old(x.flowKey) != key {
          assert old(Backed(x));
          assert Undisturbed(old(x.flowKey));
        }
      }
    }

    /** If only the flow under `key` was changed, added or removed, the pointers stand for the same flows but that
        one. */
    twostate lemma Rewired(key: FlowKey)
      requires OnlyChanged(key) && expirePriorityQueue.Indexed()
      requires key in flowKeyRecordMap ==>
                 forall k :: k in old(flowKeyRecordMap) && k != key ==>
                   old(flowKeyRecordMap[k].record) != flowKeyRecordMap[key].record
      requires forall x :: x in expirePriorityQueue.Members() ==>
                 || (key in flowKeyRecordMap && x == flowKeyRecordMap[key].priorityQueueItem)
                 || (x in old(expirePriorityQueue.Members()) && old(x.flowKey) != key)
      ensures Shape()
      ensures Flows() == if key in flowKeyRecordMap then old(Flows())[key := FlowOf(flowKeyRecordMap[key])]
              else old(Flows()) - {key}
    {
      OthersKept(key);
      ItemsBacked(key);
      assert Shape() by {
        hide OnlyChanged, Undisturbed, Linked, Backed, FlowOf;
        assert forall k :: k in flowKeyRecordMap && k != key ==> Linked(k);
      }
      RewiredFlows(key);
    }

    twostate lemma RewiredFlows(key: FlowKey)
      requires OnlyChanged(key) && Shape()
      ensures Flows() == if key in flowKeyRecordMap then old(Flows())[key := FlowOf(flowKeyRecordMap[key])]
              else old(Flows()) - {key}
    {
      OthersKept(key);
      assert old(Shape());
      hide OnlyChanged, Undisturbed, Linked, Backed, FlowOf, Shape;
      var was, now := old(Flows()), Flows();
      forall k | k != key
        ensures k in now <==> k in was
        ensures k in now ==> now[k] == was[k]
      {
      }
      MapUpdated(was, now, key);
    }

    static lemma MapUpdated(was: map<FlowKey, Flow>, now: map<FlowKey, Flow>, key: FlowKey)
      requires forall k :: k != key ==> (k in now <==> k in was)
      requires forall k :: k != key && k in now ==> now[k] == was[k]
      ensures now == if key in now then was[key := now[key]] else was - {key}
    {
    }

    /** The stored flow takes the record, or part of it; the queue is not touched. */
    method MergeStored(key: FlowKey, record: FlowRecord) returns (status: Status)
      requires Shape() && Aligned(merger.e) && record !in repr && key in flowKeyRecordMap
      modifies repr
      ensures Shape() && repr == old(repr) && flowKeyRecordMap == old(flowKeyRecordMap) && Queue() == old(Queue())
      ensures status == TryMerge(Cfg().rules, old(Flows())[key], record.elements).1
      ensures status != Panicked ==>
                Flows() == old(Flows())[key := Apply(Cfg().rules, old(Flows())[key], Ended(status, record.elements))]
    {
      hide Apply, TryMerge, TimeToExpirePriorityQueue.Entries;
      assert Linked(key);
      status := MergeInto(flowKeyRecordMap[key], record);
      forall k | k in flowKeyRecordMap && k != key
        ensures Undisturbed(k)
      {
        assert old(Linked(k));
      }
      assert forall i :: 0 <= i < |expirePriorityQueue.items| ==> old(Backed(expirePriorityQueue.items[i]));
      Rewired(key);
    }

    /** If only the queue and its items' positions and deadlines changed, the pointers stand for the same flows. */
    twostate lemma Requeued(item: ItemToExpire)
      requires old(Shape()) && unchanged(this) && expirePriorityQueue.Indexed()
      requires forall k :: k in flowKeyRecordMap ==> Undisturbed(k)
      requires item in repr && item.flowKey in flowKeyRecordMap
               && flowKeyRecordMap[item.flowKey].priorityQueueItem == item
      requires expirePriorityQueue.Members() <= old(expirePriorityQueue.Members()) + {item}
      ensures Shape() && Flows() == old(Flows())
    {
      hide TimeToExpirePriorityQueue.Entries;
      forall k | k in flowKeyRecordMap
        ensures Linked(k) && FlowOf(flowKeyRecordMap[k]) == old(FlowOf(flowKeyRecordMap[k]))
      {
        assert old(Linked(k)) && Undisturbed(k);
      }
      forall i | 0 <= i < |expirePriorityQueue.items|
        ensures Backed(expirePriorityQueue.items[i])
      {
        var x := expirePriorityQueue.items[i];
        assert x in expirePriorityQueue.Members();
        if x != item {
          assert old(Backed(x));
        }
      }
    }

    /** The item is pushed; no stored flow is disturbed. */
    method PushItem(item: ItemToExpire)
      requires Shape() && item !in expirePriorityQueue.items
      modifies expirePriorityQueue, expirePriorityQueue.Members()`index, item`index
      ensures expirePriorityQueue.Indexed()
              && expirePriorityQueue.Members() == old(expirePriorityQueue.Members()) + {item}
      ensures expirePriorityQueue.Entries() == Push(old(expirePriorityQueue.Entries()), item.Scheduled())
      ensures forall k :: k in flowKeyRecordMap ==> Undisturbed(k)
    {
      hide Push, TimeToExpirePriorityQueue.Entries;
      expirePriorityQueue.HeapPush(item);
      forall k | k in flowKeyRecordMap
        ensures Undisturbed(k)
      {
        assert old(Linked(k));
        var x := old(flowKeyRecordMap[k].priorityQueueItem);
        assert x in old(expirePriorityQueue.Members()) + {item} ==> x in expirePriorityQueue.Members();
      }
    }

    /** The queue's `Update` on the item of a stored flow; no stored flow is disturbed. */
    method UpdateItem(key: FlowKey, inactive: int)
      requires Shape() && key in flowKeyRecordMap && Linked(key)
      modifies expirePriorityQueue, expirePriorityQueue.Members()`index, flowKeyRecordMap[key].priorityQueueItem
      ensures expirePriorityQueue.Indexed() && expirePriorityQueue.Members() == old(expirePriorityQueue.Members())
      ensures flowKeyRecordMap[key].priorityQueueItem.flowKey == key
      ensures var item := flowKeyRecordMap[key].priorityQueueItem;
              var i, e := old(item.index), Entry(key, old(item.activeExpireTime), inactive);
              expirePriorityQueue.Entries() ==
              if i == -1 then Fix(old(expirePriorityQueue.Entries()), i)
                else Fix(old(expirePriorityQueue.Entries())[i := e], i)
      ensures forall k :: k in flowKeyRecordMap ==> Undisturbed(k)
    {
      hide Fix, TimeToExpirePriorityQueue.Entries;
      var a := flowKeyRecordMap[key];
      var item := a.priorityQueueItem;
      expirePriorityQueue.PlacedMeansIndexed(item);
      expirePriorityQueue.Update(item, key, a, item.activeExpireTime, inactive);
      forall k | k in flowKeyRecordMap
        ensures Undisturbed(k)
      {
        assert old(Linked(k));
        var x := old(flowKeyRecordMap[k].priorityQueueItem);
        assert x in old(expirePriorityQueue.Members()) ==> x in expirePriorityQueue.Members();
      }
    }

    /** The item of a stored flow gets a new inactive deadline; the flows are not touched. */
    method Reschedule(key: FlowKey, inactive: int)
      requires Valid() && key in flowKeyRecordMap
      modifies repr
      ensures Shape() && repr == old(repr) && flowKeyRecordMap == old(flowKeyRecordMap) && Flows() == old(Flows())
      ensures Queue() == Touch(old(Queue()), key, inactive)
    {
      hide Fix, IsHeap, TimeToExpirePriorityQueue.Entries, Flows, IndexOf, OneEach, Undisturbed,
        TimeToExpirePriorityQueue.Indexed;
      IndexIsPosition(key);
      QueueIsEntries();
      AllBacked();
      EntryAt(key);
      UpdateItem(key, inactive);
      Requeued(flowKeyRecordMap[key].priorityQueueItem);
      QueueIsEntries();
    }

    /** What the queue says of a queued item is what the item says. */
    lemma EntryAt(key: FlowKey)
      requires Shape() && key in flowKeyRecordMap
      ensures Linked(key)
      ensures var item := flowKeyRecordMap[key].priorityQueueItem;
              0 <= item.index ==> item.index < |Queue()| && Queue()[item.index].active == item.activeExpireTime
    {
      assert Linked(key);
      expirePriorityQueue.PlacedMeansIndexed(flowKeyRecordMap[key].priorityQueueItem);
    }

    /** The pointers are set: the item is pushed and the record filed under its key. */
    method Attach(key: FlowKey, a: AggregationFlowRecord, item: ItemToExpire)
      requires Shape() && key !in flowKeyRecordMap && a !in repr && a.record !in repr && item !in repr
      requires a.priorityQueueItem == item && item.flowRecord == a && item.flowKey == key
      modifies repr, item
      ensures OnlyChanged(key) && repr == old(repr) + {a, a.record, item}
              && flowKeyRecordMap == old(flowKeyRecordMap)[key := a]
      ensures expirePriorityQueue.Indexed()
              && expirePriorityQueue.Members() == old(expirePriorityQueue.Members()) + {item}
      ensures expirePriorityQueue.Entries() == Push(old(expirePriorityQueue.Entries()), old(item.Scheduled()))
      ensures unchanged(a) && unchanged(a.record)
    {
      hide Push, TimeToExpirePriorityQueue.Entries, Kept, TimeToExpirePriorityQueue.Indexed;
      AllBacked();
      PushItem(item);
      hide Linked, Backed;
      flowKeyRecordMap, repr := flowKeyRecordMap[key := a], repr + {a, a.record, item};
      assert item in expirePriorityQueue.Members();
      LinkedNow(key, a, item);
    }

    /** A flow that is not yet stored enters the map and the queue. */
    method Enqueue(key: FlowKey, a: AggregationFlowRecord, item: ItemToExpire)
      requires Shape() && key !in flowKeyRecordMap && a !in repr && a.record !in repr && item !in repr
      requires a.priorityQueueItem == item && item.flowRecord == a && item.flowKey == key
      modifies repr, item
      ensures Shape() && repr == old(repr) + {a, a.record, item}
      ensures Flows() == old(Flows())[key := FlowOf(a)] && Queue() == Push(old(Queue()), old(item.Scheduled()))
    {
      hide Push, TimeToExpirePriorityQueue.Entries, FlowOf, TimeToExpirePriorityQueue.Indexed, Queue, Flows,
        OnlyChanged, Undisturbed;
      QueueIsEntries();
      AllBacked();
      assert forall k :: k in flowKeyRecordMap ==> flowKeyRecordMap[k].record != a.record by {
        assert forall k :: k in flowKeyRecordMap ==> Linked(k);
      }
      Attach(key, a, item);
      Rewired(key);
      QueueIsEntries();
    }

    lemma QueueIsEntries()
      requires Shape()
      ensures Queue() == expirePriorityQueue.Entries()
    {
    }

    lemma AllBacked()
      requires Shape()
      ensures forall x :: x in expirePriorityQueue.Members() ==>
                x in repr && x.flowKey in flowKeyRecordMap && flowKeyRecordMap[x.flowKey].priorityQueueItem == x
    {
      assert forall i :: 0 <= i < |expirePriorityQueue.items| ==> Backed(expirePriorityQueue.items[i]);
    }

    lemma LinkedNow(key: FlowKey, a: AggregationFlowRecord, item: ItemToExpire)
      requires key in flowKeyRecordMap && flowKeyRecordMap[key] == a && a.priorityQueueItem == item
      requires {a, a.record, item, expirePriorityQueue} <= repr && item.flowRecord == a && item.flowKey == key
      requires item in expirePriorityQueue.Members()
      ensures Linked(key)
    {
    }

    /** The earliest item is popped; no stored flow is disturbed. */
    method PopItem() returns (item: ItemToExpire)
      requires Shape() && expirePriorityQueue.items != []
      modifies expirePriorityQueue, expirePriorityQueue.Members()`index
      ensures item in old(expirePriorityQueue.Members())
      ensures expirePriorityQueue.Indexed()
              && expirePriorityQueue.Members() == old(expirePriorityQueue.Members()) - {item}
      ensures (item.Scheduled(), expirePriorityQueue.Entries()) == Pop(old(expirePriorityQueue.Entries()))
      ensures forall k :: k in flowKeyRecordMap ==> Undisturbed(k)
    {
      hide Pop, TimeToExpirePriorityQueue.Entries;
      item := expirePriorityQueue.HeapPop();
      forall k | k in flowKeyRecordMap
        ensures Undisturbed(k)
      {
        assert old(Linked(k));
        var x := old(flowKeyRecordMap[k].priorityQueueItem);
        assert x in old(expirePriorityQueue.Members()) && x != item ==> x in expirePriorityQueue.Members();
      }
    }

    /** The earliest item leaves the queue; its flow stays in the map. */
    method PopTop() returns (item: ItemToExpire)
      requires Valid() && expirePriorityQueue.items != []
      modifies repr
      ensures Shape() && repr == old(repr) && flowKeyRecordMap == old(flowKeyRecordMap) && Flows() == old(Flows())
      ensures (item.Scheduled(), Queue()) == Pop(old(Queue()))
      ensures item.flowKey in flowKeyRecordMap && flowKeyRecordMap[item.flowKey].priorityQueueItem == item
      ensures item in repr && item !in expirePriorityQueue.items
    {
      hide Pop, IsHeap, TimeToExpirePriorityQueue.Entries, Flows, OneEach, Undisturbed,
        TimeToExpirePriorityQueue.Indexed;
      QueueIsEntries();
      AllBacked();
      item := PopItem();
      assert item !in expirePriorityQueue.Members();
      Requeued(item);
      QueueIsEntries();
    }

    /** A popped item's deadlines change; nothing else does. */
    method Postpone(item: ItemToExpire, active: int, inactive: int)
      requires Shape() && item in repr && item !in expirePriorityQueue.items
      modifies item`activeExpireTime, item`inactiveExpireTime
      ensures item.activeExpireTime == active && item.inactiveExpireTime == inactive
      ensures Shape() && Flows() == old(Flows()) && Queue() == old(Queue())
    {
      hide TimeToExpirePriorityQueue.Entries, FlowOf;
      assert forall k :: k in flowKeyRecordMap ==> Linked(k);
      assert forall i :: 0 <= i < |expirePriorityQueue.items| ==> Backed(expirePriorityQueue.items[i]);
      item.activeExpireTime, item.inactiveExpireTime := active, inactive;
      assert forall k :: k in flowKeyRecordMap ==> Linked(k);
      assert forall i :: 0 <= i < |expirePriorityQueue.items| ==> Backed(expirePriorityQueue.items[i]);
    }

    /** A popped item goes back with new deadlines. */
    method PushBack(item: ItemToExpire, active: int, inactive: int)
      requires Shape() && item in repr && item !in expirePriorityQueue.items
      requires item.flowKey in flowKeyRecordMap && flowKeyRecordMap[item.flowKey].priorityQueueItem == item
      modifies repr
      ensures Shape() && repr == old(repr) && flowKeyRecordMap == old(flowKeyRecordMap) && Flows() == old(Flows())
      ensures Queue() == Push(old(Queue()), Entry(old(item.flowKey), active, inactive))
    {
      hide Push, TimeToExpirePriorityQueue.Entries, Flows, Undisturbed, TimeToExpirePriorityQueue.Indexed, Linked,
        Backed;
      Postpone(item, active, inactive);
      label Postponed:
      QueueIsEntries();
      AllBacked();
      PushItem(item);
      Requeued@Postponed(item);
      QueueIsEntries();
    }

    /** A flow whose item is out of the queue leaves the map. */
    method Remove(key: FlowKey) returns (err: bool)
      requires Shape() && key in flowKeyRecordMap
               && flowKeyRecordMap[key].priorityQueueItem !in expirePriorityQueue.items
      modifies repr
      ensures Shape() && repr == old(repr) && !err
      ensures Flows() == old(Flows()) - {key} && Queue() == old(Queue())
    {
      hide TimeToExpirePriorityQueue.Entries, FlowOf;
      assert Linked(key);
      assert forall i :: 0 <= i < |expirePriorityQueue.items| ==> Backed(expirePriorityQueue.items[i]);
      err := DeleteFlowKeyFromMapWithoutLock(key);
      forall k | k in old(flowKeyRecordMap) && k != key
        ensures Undisturbed(k)
      {
        assert old(Linked(k));
      }
      Rewired(key);
    }

    /** A stored flow is reset or retried; the queue does not change. */
    method Mark(key: FlowKey, clear: bool) returns (status: Status)
      requires Shape() && Aligned(merger.e) && key in flowKeyRecordMap
      modifies repr
      ensures Shape() && repr == old(repr) && flowKeyRecordMap == old(flowKeyRecordMap) && Queue() == old(Queue())
      ensures expirePriorityQueue.items == old(expirePriorityQueue.items)
      ensures flowKeyRecordMap[key].priorityQueueItem == old(flowKeyRecordMap[key].priorityQueueItem)
      ensures forall item: ItemToExpire :: item in repr ==> unchanged(item)
      ensures var f := old(Flows())[key];
              && Flows() == old(Flows())[key := Apply(Cfg().rules, f, if clear then Resetting(Cfg(), f) else Retried)]
              && status == if clear then TryReset(merger.e, f.record).status else Done
    {
      hide Apply, Resetting, TryReset, TimeToExpirePriorityQueue.Entries;
      assert Linked(key);
      var a := flowKeyRecordMap[key];
      status := MarkRecord(a, clear);
      forall k | k in flowKeyRecordMap && k != key
        ensures Undisturbed(k)
      {
        assert old(Linked(k));
      }
      assert forall i :: 0 <= i < |expirePriorityQueue.items| ==> old(Backed(expirePriorityQueue.items[i]));
      Rewired(key);
    }

    method MarkRecord(a: AggregationFlowRecord, clear: bool) returns (status: Status)
      requires Aligned(merger.e)
      modifies a, a.record
      ensures a.record == old(a.record) && a.priorityQueueItem == old(a.priorityQueueItem)
      ensures var f := old(FlowOf(a));
              && FlowOf(a) == Apply(Cfg().rules, f, if clear then Resetting(Cfg(), f) else Retried)
              && status == if clear then TryReset(merger.e, f.record).status else Done
    {
      hide TryReset, Reset;
      ghost var f := FlowOf(a);
      status := Done;
      if clear {
        DoneResets(merger.e, f.record);
        status := merger.ResetStatAndThroughputElementsInRecord(a.record);
        a.history := a.history + [Resetting(Cfg(), f)];
      } else {
        a.waitForReadyToSendRetries := a.waitForReadyToSendRetries + 1;
        a.history := a.history + [Retried];
      }
    }

    // ---------- the atomic steps ----------

    /** `addOrUpdateRecordInMap`: insert or merge, then schedule. An error leaves the queue and every other flow as they
        are; a panic promises nothing. */
    method AddOrUpdateRecordInMap(key: FlowKey, record: FlowRecord, isIPv4: bool, now: int) returns (status: Status)
      requires Valid() && Aligned(merger.e) && record !in repr
      modifies repr, record
      ensures status == Admit(Cfg(), old(Abs()), key, old(record.elements), isIPv4, now).1
      ensures status != Panicked ==>
                && Valid() && fresh(repr - old(repr) - {record})
                && Abs() == Admit(Cfg(), old(Abs()), key, old(record.elements), isIPv4, now).0
      ensures status == Done ==> Scheduled(Cfg(), old(Abs()), Abs(), key, now)
    {
      hide Inv, Apply, Touch, Open, Push, Shape, Flows, Queue, TryMerge, TryOpened, Scheduled;
      Keys();
      AdmitInv(Cfg(), Abs(), key, record.elements, isIPv4, now);
      if Admit(Cfg(), Abs(), key, record.elements, isIPv4, now).1 == Done {
        ArrivalSchedules(Cfg(), Abs(), key, record.elements, isIPv4, now);
      }
      if key in flowKeyRecordMap {
        status := MergeAndReschedule(key, record, now);
      } else {
        status := OpenAndSchedule(key, record, isIPv4, now);
      }
    }

    method OpenAndSchedule(key: FlowKey, record: FlowRecord, isIPv4: bool, now: int) returns (status: Status)
      requires Shape() && Aligned(merger.e) && record !in repr && key !in flowKeyRecordMap
      modifies repr, record
      ensures Shape() && fresh(repr - old(repr) - {record})
      ensures status == TryOpened(merger.e, old(record.elements)).status
      ensures Abs() ==
              if status == Done then
                State(old(Flows())[key := Open(Cfg().rules, old(record.elements), isIPv4)],
                      Push(old(Queue()), Entry(key, now + activeExpiryTimeout, now + inactiveExpiryTimeout)))
              else old(Abs())
    {
      hide Push, Open, Shape, TryOpened;
      var a;
      a, status := OpenWith(record, isIPv4);
      StillShaped();
      if a == null {
        return;
      }
      var item := new ItemToExpire(key, a, now + activeExpiryTimeout, now + inactiveExpiryTimeout);
      a.priorityQueueItem := item;
      StillShaped();
      Enqueue(key, a, item);
    }

    /** Nothing stored has changed. */
    twostate lemma StillShaped()
      requires old(Shape()) && unchanged(this) && unchanged(repr)
      ensures Shape() && Flows() == old(Flows()) && Queue() == old(Queue())
    {
    }

    method MergeAndReschedule(key: FlowKey, record: FlowRecord, now: int) returns (status: Status)
      requires Valid() && Aligned(merger.e) && record !in repr && key in flowKeyRecordMap
      modifies repr
      ensures Shape() && repr == old(repr)
      ensures status == TryMerge(Cfg().rules, old(Flows())[key], record.elements).1
      ensures status != Panicked ==>
                Abs() == State(
                  old(Flows())[key := Apply(Cfg().rules, old(Flows())[key], Ended(status, record.elements))],
                  if status == Done then Touch(old(Queue()), key, now + inactiveExpiryTimeout) else old(Queue()))
    {
      hide Inv, Apply, Touch, Shape, Flows, Queue, TryMerge;
      Keys();
      ghost var before := Abs();
      status := MergeStored(key, record);
      if status != Done {
        return;
      }
      MoreFlowsInv(before, Flows());
      Reschedule(key, now + inactiveExpiryTimeout);
    }

    /** `item` was popped: it belongs to a stored flow and is out of the queue. */
    ghost predicate IsPopped(item: ItemToExpire)
      reads this, repr
    {
      && Shape() && item in repr && item !in expirePriorityQueue.items
      && item.flowKey in flowKeyRecordMap
         && (assert Linked(item.flowKey); flowKeyRecordMap[item.flowKey].priorityQueueItem == item)
    }

    lemma Keys()
      requires Shape()
      ensures Flows().Keys == flowKeyRecordMap.Keys && |Queue()| == |expirePriorityQueue.items|
    {
    }

    method IsReady(key: FlowKey) returns (ready: bool)
      requires Shape() && key in flowKeyRecordMap
      ensures ready == Flows()[key].ready
    {
      ready := flowKeyRecordMap[key].readyToSend;
    }

    method RetriesOf(key: FlowKey) returns (n: nat)
      requires Shape() && key in flowKeyRecordMap
      ensures n == Flows()[key].retries
    {
      n := flowKeyRecordMap[key].waitForReadyToSendRetries;
    }

    /** A popped flow that is not ready: another try, or none left. */
    method RetryPopped(item: ItemToExpire, now: int, ghost cb: Callback, ghost calls: nat) returns (act: Act, err: bool)
      requires IsPopped(item) && Aligned(merger.e) && !Flows()[item.flowKey].ready
      modifies repr
      ensures Shape() && repr == old(repr) && !err
      ensures var e := old(item.Scheduled());
              var d := Decide(Cfg(), old(Flows())[e.key], e, now, cb, calls);
              Abs() == Settle(old(Abs()), e, old(Queue()), d) && act == d.act
    {
      hide Apply, Push, TimeToExpirePriorityQueue.Entries, Shape, Flows, Queue;
      Keys();
      err := false;
      var key := item.flowKey;
      var _ := Mark(key, false);
      var retries := RetriesOf(key);
      if retries > maxRetries {
        err := Remove(key);
        act := GiveUp;
      } else {
        PushBack(item, now + activeExpiryTimeout, now + inactiveExpiryTimeout);
        act := Retry;
      }
    }

    /** A popped flow that is ready: the callback, then out of the map, back into the queue, or neither. */
    method SendPopped(item: ItemToExpire, now: int, cb: Callback, calls: nat) returns (act: Act, err: bool)
      requires IsPopped(item) && Aligned(merger.e) && Flows()[item.flowKey].ready
      modifies repr
      ensures Shape() && repr == old(repr) && !err
      ensures var e := old(item.Scheduled());
              var d := Decide(Cfg(), old(Flows())[e.key], e, now, cb, calls);
              Abs() == Settle(old(Abs()), e, old(Queue()), d) && act == d.act
    {
      hide Apply, Push, TimeToExpirePriorityQueue.Entries, Shape, Flows, Queue;
      Keys();
      err := false;
      var key := item.flowKey;
      var res := CallBack(key, cb, calls);
      if !res.ok {
        act := Fail;
        return;
      }
      act := Send;
      if item.inactiveExpireTime < now {
        err := Remove(key);
      } else if item.activeExpireTime < now {
        PushBack(item, now + activeExpiryTimeout, item.inactiveExpireTime);
      }
    }

    /** What the callback leaves is stored. */
    method Leave(a: AggregationFlowRecord, res: CallbackResult)
      requires Aligned(merger.e)
      modifies a, a.record
      ensures a.record == old(a.record) && a.priorityQueueItem == old(a.priorityQueueItem)
      ensures FlowOf(a) == HandOver(Cfg(), old(FlowOf(a)), res)
    {
      hide HandOver;
      ghost var g := HandOver(Cfg(), FlowOf(a), res);
      a.record.elements := res.record;
      a.areCorrelatedFieldsFilled := res.correlated;
      a.history := g.history;
    }

    /** The callback runs on the stored flow: it may edit the record at will and set the flag. */
    method CallBack(key: FlowKey, cb: Callback, calls: nat) returns (res: CallbackResult)
      requires Shape() && Aligned(merger.e) && key in flowKeyRecordMap
      modifies repr
      ensures Shape() && repr == old(repr) && flowKeyRecordMap == old(flowKeyRecordMap) && Queue() == old(Queue())
      ensures expirePriorityQueue.items == old(expirePriorityQueue.items)
      ensures flowKeyRecordMap[key].priorityQueueItem == old(flowKeyRecordMap[key].priorityQueueItem)
      ensures forall item: ItemToExpire :: item in repr ==> unchanged(item)
      ensures res == cb(calls, key, old(Flows())[key].record, old(Flows())[key].correlated)
      ensures Flows() == old(Flows())[key := HandOver(Cfg(), old(Flows())[key], res)]
    {
      hide HandOver, TimeToExpirePriorityQueue.Entries;
      assert Linked(key);
      var a := flowKeyRecordMap[key];
      res := cb(calls, key, a.record.elements, a.areCorrelatedFieldsFilled);
      Leave(a, res);
      forall k | k in flowKeyRecordMap && k != key
        ensures Undisturbed(k)
      {
        assert old(Linked(k));
      }
      assert forall i :: 0 <= i < |expirePriorityQueue.items| ==> old(Backed(expirePriorityQueue.items[i]));
      Rewired(key);
    }

    /** One iteration of the expiry loop. */
    method ExpireTop(now: int, cb: Callback, calls: nat) returns (act: Act, err: bool)
      requires Valid() && Aligned(merger.e) && expirePriorityQueue.items != []
      modifies repr
      ensures Shape() && repr == old(repr) && !err
      ensures Pop(old(Queue())).0.key in old(Flows())
      ensures Abs() == ExpireOne(Cfg(), old(Abs()), now, cb, calls).0
              && act == ExpireOne(Cfg(), old(Abs()), now, cb, calls).1.act
    {
      hide Inv, Apply, Push, Pop, Decide, TimeToExpirePriorityQueue.Entries, Shape, Flows, Queue;
      Keys();
      var item := PopTop();
      Keys();
      var ready := IsReady(item.flowKey);
      if !ready {
        act, err := RetryPopped(item, now, cb, calls);
      } else {
        act, err := SendPopped(item, now, cb, calls);
      }
    }

    static lemma PassUnfolds(c: Config, st: State, now: int, cb: Callback, calls: nat)
      requires Aligned(c.rules.e) && Inv(st) && Ends(c, st, now, cb, calls)
      ensures var res := ExpirePass(c, st, now, cb, calls);
              if Over(st, now) then res == PassResult(st, [], false)
              else
                && Pop(st.queue).0.key in st.flows
                && var (next, p) := ExpireOne(c, st, now, cb, calls);
                && Inv(next)
                && if p.act.Fail? then res == PassResult(next, [p], true)
                   else
                     && Ends(c, next, now, cb, CallsAfter(p, calls))
                     && Left(c, next, now, cb, CallsAfter(p, calls)) < Left(c, st, now, cb, calls)
                     && res == After([p], ExpirePass(c, next, now, cb, CallsAfter(p, calls)))
    {
      hide Inv, ExpireOne, Left;
      if !Over(st, now) {
        PassStep(c, st, now, cb, calls);
      }
    }

    static ghost function After(log: seq<Popped>, res: PassResult): PassResult {
      res.(log := log + res.log)
    }

    method TopIsDue(now: int) returns (due: bool)
      requires Shape() && expirePriorityQueue.items != []
      ensures Queue() != [] && due == Due(Queue()[0], now)
    {
      var top := expirePriorityQueue.items[0];
      due := !(top.activeExpireTime > now && top.inactiveExpireTime > now);
    }

    /** `ForAllExpiredFlowRecordsDo`, whenever its loop ends: the whole pass, with the log of what was popped. Neither
        deletion can fail. */
    method ForAllExpiredFlowRecordsDo(now: int, cb: Callback) returns (err: ExpiryError, ghost log: seq<Popped>)
      requires Valid() && Aligned(merger.e) && Ends(Cfg(), Abs(), now, cb, 0)
      modifies repr
      ensures Valid() && repr == old(repr) && err != DeleteFailed
      ensures ExpirePass(Cfg(), old(Abs()), now, cb, 0) == PassResult(Abs(), log, err == CallbackFailed)
    {
      hide Inv, ExpireOne, ExpirePass, Ends, Left, Shape, Flows, Queue, Due, TimeToExpirePriorityQueue.Entries;
      var calls := 0;
      log := [];
      while |expirePriorityQueue.items| > 0
        invariant Valid() && repr == old(repr) && Ends(Cfg(), Abs(), now, cb, calls)
        invariant ExpirePass(Cfg(), old(Abs()), now, cb, 0) == After(log, ExpirePass(Cfg(), Abs(), now, cb, calls))
        decreases Left(Cfg(), Abs(), now, cb, calls)
      {
        Keys();
        PassUnfolds(Cfg(), Abs(), now, cb, calls);
        var due := TopIsDue(now);
        if !due {
          assert log + [] == log;
          return NoError, log;
        }
        ghost var p := ExpireOne(Cfg(), Abs(), now, cb, calls).1;
        ghost var before := log;
        var act, failed := ExpireTop(now, cb, calls);
        log := log + [p];
        if failed {
          return DeleteFailed, log;
        }
        if act.Fail? {
          return CallbackFailed, log;
        }
        if act.Send? {
          calls := calls + 1;
        }
        assert forall more: seq<Popped> :: before + ([p] + more) == log + more;
      }
      Keys();
      PassUnfolds(Cfg(), Abs(), now, cb, calls);
      assert log + [] == log;
      err := NoError;
    }

    /** A reset by the user while the mutex is held. */
    method ResetStoredRecord(key: FlowKey) returns (status: Status)
      requires Valid() && Aligned(merger.e)
      modifies repr
      ensures Valid() && repr == old(repr) && Abs() == ResetFlow(Cfg(), old(Abs()), key)
      ensures status == if key in old(Flows()) then TryReset(merger.e, old(Flows())[key].record).status else Done
    {
      hide Inv, Shape, Flows, Queue, Apply, TryReset, Resetting;
      Keys();
      status := Done;
      if key in flowKeyRecordMap {
        ghost var before := Abs();
        status := Mark(key, true);
        MoreFlowsInv(before, Flows());
      }
    }

    method GetExpiryFromExpirePriorityQueue(minExpiry: int, now: int) returns (wait: int)
      requires Valid()
      ensures wait == Wait(Cfg(), Abs(), minExpiry, now)
    {
      hide Inv;
      if |expirePriorityQueue.items| > 0 {
        assert Backed(expirePriorityQueue.items[0]);
        wait := minExpiry + (expirePriorityQueue.MinExpireTime(0) - now);
        if wait < 0 {
          wait := minExpiry;
        }
      } else {
        wait := if activeExpiryTimeout < inactiveExpiryTimeout then activeExpiryTimeout else inactiveExpiryTimeout;
      }
    }

    /** Any interleaving of the steps, on the pointers, does what the run does on values, if that neither panics nor
        hangs. */
    method Perform(steps: seq<Step>)
      requires Valid() && Aligned(merger.e) && Abs() == EMPTY && Run(Cfg(), steps).Some?
      modifies repr
      ensures Valid() && Run(Cfg(), steps) == Some(Abs())
    {
      hide Inv, Shape, Flows, Queue, ExpirePass, Admit, ResetFlow, Ends;
      for i := 0 to |steps|
        invariant Valid() && fresh(repr - old(repr)) && Run(Cfg(), steps[..i]) == Some(Abs())
      {
        assert steps[..i + 1][..i] == steps[..i];
        RunPrefix(Cfg(), steps, i + 1);
        match steps[i]
        case Arrive(key, rec, v4, now) =>
          var record := new FlowRecord(rec);
          var status := AddOrUpdateRecordInMap(key, record, v4, now);
        case Expire(now, cb) =>
          var err, log := ForAllExpiredFlowRecordsDo(now, cb);
        case Clear(key) =>
          var status := ResetStoredRecord(key);
      }
      assert steps[..|steps|] == steps;
    }
  }
}
