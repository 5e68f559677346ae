# go-ipfix in Dafny

A model of the two state machines at the centre of go-ipfix, a Go library for the IP Flow Information Export protocol
(RFC 7011), and proofs of what they guarantee.

**The aggregation process** keeps one record per flow key and an indexed binary heap that says which flow expires next.
Records from the source and the destination node of a flow are correlated and merged: end times, delta and total counters,
end reason, throughput. Expiry passes pop due flows, retry those that wait for the other node, call the user back, and
delete or re-queue.

**The codec and the template protocol**: an exporter prints elements into records, sets and messages; a collector cuts the
byte stream into messages and parses them with templates that it learnt from earlier messages. A registry names the elements.

## How the project is built

Each theorem is about functions on values. Classes with the source's own fields, loops and arrays do what the source does
to pointers, maps and buffers, and each of their methods is proved to be one of those functions on the value the object
stands for (`Abs`, `Value`, `Entries`), so that every theorem holds of the classes.

| files | contents |
|---|---|
| `Bytes`, `Elements` | big-endian numbers, values of information elements, their encoding and decoding |
| `ExpiryHeap`, `ExpiryQueue` | the heap on values, and the queue of item objects that carry their index |
| `FlowContent`, `FlowEffects`, `FlowMerge`, `FlowOpen` | what opening, merging, correlating and resetting do to a record, field by field |
| `FlowAttempts`, `FlowOutcomes` | the same on any record whatever: where the code returns an error or panics, what it leaves behind, and exactly when it runs through |
| `FlowShape` | which elements a stored record has, and in which order |
| `FlowSides` | which records count for which node, and what they do to its fields, from the pod names and element names as they are written |
| `FlowHistory`, `FlowCounters`, `FlowReadiness`, `FlowThroughput` | what holds of a flow after any history of records, resets, retries and callbacks |
| `Scheduling`, `ExpiryPass`, `ExpiryFate`, `AggregationRuns`, `LiveFlows` | insertion, expiry passes and whole runs; the deadlines that records give to flows |
| `RecordMerger`, `Aggregation` | the record loops and the aggregation process as objects |
| `Wire`, `WireOctets`, `Parse`, `Protocol`, `Stream`, `ExporterRuns`, `SessionRuns` | the byte layout, the same octet by octet, the parser, one message, the byte stream, whole runs of the exporter and of exporter and collector |
| `RecordBuffers`, `Messages`, `Exporting`, `Collecting`, `Registry` | records, sets, messages, the two processes and the registry as objects |

Modelling choices: times are integers on one clock and are parameters of the steps, as are callbacks, which may fail and
may leave any record and any correlation flag behind; a mutex makes each step atomic, so any number of workers is an
arbitrary sequence of steps. Unsigned arithmetic wraps where the source's does. Floats are bit patterns, addresses and MACs
are byte sequences. An outcome is a value, an error, a panic or a loop that does not end, wherever the source has one; a
panic ends a run, and so does a loop that does not end.

Where code and comments disagree the model follows the code: a record of an inter-node flow needs correlation only if
neither its egress action is drop or reject nor its ingress action is reject (the comment at
`pkg/intermediate/aggregate.go:966-968` says "or"), and the collector's count of received records counts messages.

## What was found not to hold, with the exact condition

- A data set that passes the exporter's check need not arrive. It arrives as it was sent exactly if it conforms to the
  template announced before it (`Protocol.ArrivesExactly`, `SessionRuns.OnlyConformingArrive`); a set that does not can make
  the collector panic (`Protocol.AcceptedThenPanic`), after which it reads no more.
- A pass can leave a flow stored but out of the queue: exactly if a due ready flow meets `ExpiryFate.Dropped` (a deadline
  equal to the clock, or an active timeout of zero), or if a callback fails (`ExpiryFate.PassKeepsAllQueued`,
  `ExpiryFate.FailureDrops`). Such a flow never expires (`AggregationRuns.PassKeepsLost`, `AggregationRuns.LostForEver`),
  so a run keeps map and queue in bijection exactly if none of its passes does this (`AggregationRuns.AllQueuedExactly`).
  A run of two steps does it (`AggregationRuns.TieLosesFlow`).
- The expiry loop need not end. With callbacks that succeed it ends exactly if the active timeout is not negative or no
  ready flow is queued with its active deadline before the clock and its inactive deadline not before it; otherwise only
  a failed callback ends it (`ExpiryPass.EndsExactly`). A run of two steps hangs (`AggregationRuns.NegativeTimeoutHangs`).
- A record or a reset can be refused after part of its work, or make the process panic. Exactly when none of that happens:
  `FlowOutcomes.OpensExactly`, `FlowOutcomes.CorrelatesExactly`, `FlowOutcomes.MergesExactly`, `FlowOutcomes.ResetsExactly`.
  A record refused part-way has moved the end times (`FlowSides.RefusedMoves`), so that the report, sent again complete,
  no longer counts (`FlowSides.SentAgain`).
- Exporter and collector disagree on a template exactly if its id was announced before with other elements
  (`Protocol.AgreeUnlessRedefined`). A template too long for a message is remembered by the exporter and never reaches the
  collector (`Protocol.InStepExactly`, `SessionRuns.UnsentInv`).
- The collector cannot rebuild a registered template exactly if it has an element without an empty value; a 64-bit signed
  one makes it panic (`Parse.SpecifiersRoundTrip`).
- The decoding loop of a data set does not end exactly on a non-empty body whose template has only elements of length
  zero that are addresses or strings; for elements as the registry describes them that is the empty template
  (`Parse.DivergesExactly`).
- A refresh of a template that cannot be built leaves the mutex of the template table held, so that nothing is sent any
  more (`Exporting.ExportingProcess.SendRefreshedTemplates`).
- A new template id is one that a template may have and was not handed out before exactly for the first 65280 calls; the
  next ones give reserved ids, that of template sets among them, and then all come again
  (`Exporting.ExportingProcess.NewTemplateId`).
- The registry's two indexes stop agreeing exactly when an id is given to a second name (`Registry.RegisterConsistent`).
- The end reason is absorbing, and the state is that of the latest record, exactly in configurations that do not correlate
  these fields (`FlowCounters.EndReasonAbsorbs`, `FlowCounters.CorrelatedReasonForgets`, `FlowCounters.StateIsLatest`,
  `FlowCounters.CorrelatedStateIsOlder`).
- A source-node throughput is measured against the destination's previous record when a record reports for both nodes
  (`FlowThroughput.LaterRate`), and then the bound on it can fail (`FlowThroughput.MixedBreaksBound`). `FlowThroughput.Own`
  is sufficient for the bound, not exact; the destination's needs nothing (`FlowThroughput.MeasuredOwn`).

## Model

| member | source | states |
|---|---|---|
| `ExpiryHeap.FixRestores` | pkg/intermediate/priorityqueue.go:78-84 | after any change of one item's deadlines `heap.Fix` at its index gives a min-heap with the same items but the changed one; at the index -1 of a popped item it changes nothing |
| `ExpiryHeap.PushRestores` | pkg/intermediate/priorityqueue.go:56-61 | pushing onto a min-heap gives a min-heap of the old items and the new one |
| `ExpiryHeap.PopRestores` | pkg/intermediate/priorityqueue.go:63-71 | popping takes out exactly one item, due no later than any other, and leaves a min-heap of the rest |
| `ExpiryHeap.EarliestOverall` | pkg/intermediate/priorityqueue.go:73-75 | the item at the top is due no later than any item |
| `ExpiryHeap.SiftDownRestores` | pkg/intermediate/priorityqueue.go:46-54 | sifting down repairs a heap whose only disorder is below one position |
| `ExpiryHeap.SiftUpRestores` | pkg/intermediate/priorityqueue.go:46-54 | sifting up repairs a heap whose only disorder is above one position |
| `ExpiryQueue.TimeToExpirePriorityQueue.Swap` | pkg/intermediate/priorityqueue.go:50-54 | two items change places and their indexes with them |
| `ExpiryQueue.TimeToExpirePriorityQueue.HeapPush` | pkg/intermediate/priorityqueue.go:56-61 | the queue of objects is the pushed heap, and every item's index is its position |
| `ExpiryQueue.TimeToExpirePriorityQueue.HeapPop` | pkg/intermediate/priorityqueue.go:63-71 | the popped item carries index -1, the rest is the popped heap, every remaining item's index is its position |
| `ExpiryQueue.TimeToExpirePriorityQueue.Update` | pkg/intermediate/priorityqueue.go:78-84 | an item gets its new key, record and deadlines and is moved by `Fix` if it is queued; nothing moves if it is not |
| `FlowEffects.CountStatsEffect` | pkg/intermediate/aggregate.go:557-620 | an accepted merge changes exactly the counters: per-node deltas grow modulo 2^64, per-node totals are replaced, the common ones follow when the record is the latest |
| `FlowEffects.CountStatsDifference` | pkg/intermediate/aggregate.go:562-598 | the octet difference handed to the throughput is against the destination's previous total if that side is filled, else the source's |
| `FlowEffects.TouchEndsEffect` | pkg/intermediate/aggregate.go:498-523 | the end time becomes the maximum, each filled node's end time the incoming one, the returned time is the last filled node's previous one or the start time; no other field changes |
| `FlowMerge.AggregateEffect` | pkg/intermediate/aggregate.go:492-646 | a record not later than its node's previous one moves end times and nothing else; a later one also changes counters, end reason and throughput, and no merge touches any other field |
| `FlowMerge.AggregateRates` | pkg/intermediate/aggregate.go:622-644 | after an accepted merge throughput is eight times the octets gained over the seconds since the previous record, on the filled sides and, if latest, in common |
| `FlowOpen.OpenedEffect` | pkg/intermediate/aggregate.go:685-816 | a first record keeps its fields and gains every aggregation field, with its own values on the sides it reports for and zero on the other |
| `FlowSides.OpensReady` | pkg/intermediate/aggregate.go:404-421 | a record needs correlation exactly if its flow is inter-node, its egress action neither drop nor reject and its ingress action not reject; a flow opens ready exactly if it needs none, with its correlated fields counted as filled exactly if it is not inter-node |
| `FlowSides.OpensItsSides` | pkg/intermediate/aggregate.go:379-404 | the opening record gives its end time, counters and throughput to the node whose pod alone it names, or to both if it needs no correlation, and zeros to the other; the first throughput is eight times the octets over the duration, zero if there is none |
| `FlowSides.OnePodOpensOneSide` | pkg/intermediate/aggregate.go:853-884 | an inter-node record that names only the destination pod opens `destination` fields with its values and `source` fields with zeros, and conversely |
| `FlowSides.MergesItsSides` | pkg/intermediate/aggregate.go:362-373 | a merged record moves the end time of the nodes it counts for; if it is later than their previous one, their deltas grow and their totals are replaced; no field of another node changes |
| `FlowSides.MergedThroughput` | pkg/intermediate/aggregate.go:622-644 | the throughput a later record stores for a node: eight times the octets gained, modulo 2^64, over the seconds since the previous end, against the destination if it counts for that |
| `FlowSides.PairingMakesReady` | pkg/intermediate/aggregate.go:341-361 | a merge makes a flow ready, and its correlated fields counted as filled, exactly with the first record of an inter-node flow that does not name the same pod alone as the stored one; nothing takes that back |
| `FlowSides.PairingFillsFields` | pkg/intermediate/aggregate.go:341-361 | a field that the aggregation does not write changes in a merge exactly if the record pairs up, the field is a correlate field and the record has it set |
| `FlowSides.RefusedMoves` | pkg/intermediate/aggregate.go:498-556 | a record that is refused part-way has moved the common end time and those of the nodes it counts for |
| `FlowSides.SentAgain` | pkg/intermediate/aggregate.go:498-523 | after that a report for the same time, complete or not, changes nothing but end times |
| `FlowSides.DeltaNamed` | pkg/intermediate/aggregate.go:557-620 | the delta counters are exactly those with "Delta" in their name |
| `FlowSides.AskableSource` | pkg/intermediate/aggregate.go:853-867 | whether a record is from the source can be asked without a panic exactly if the source pod is missing, empty, or a text beside a destination pod that is missing or a text |
| `FlowOpen.ResetEffect` | pkg/intermediate/aggregate.go:651-683 | a reset zeroes every delta counter and throughput field on all three sides and leaves totals and everything else |
| `FlowOpen.CorrelateEffect` | pkg/intermediate/aggregate.go:440-488 | correlation keeps the list of fields and every field that is not a set correlate field, at every point of its loop |
| `FlowOpen.CorrelatedField` | pkg/intermediate/aggregate.go:440-488 | a correlate field of one of the six types takes the incoming value exactly if that is not the zero of its type, an address of zeros included; every other field stays |
| `FlowOpen.CorrelationCommutes` | pkg/intermediate/aggregate.go:440-488 | if each correlate field is set on one side or equal on both, either order of arrival gives the same correlate fields: the value of the side that is set |
| `FlowOpen.CorrelationIdempotent` | pkg/intermediate/aggregate.go:440-488 | correlating the same record again leaves the whole record as it is |
| `FlowAttempts.DoneOpens` | pkg/intermediate/aggregate.go:685-816 | a record that opens a flow without error or panic opens it as the theorems about opening say |
| `FlowAttempts.DoneAggregates` | pkg/intermediate/aggregate.go:492-646 | a merge that runs through gives what the theorems about merging say; a merge that does not leaves the record part-way |
| `FlowOutcomes.OpensExactly` | pkg/intermediate/aggregate.go:685-816 | a record opens a flow exactly if its type and pods can be read, every statistic it has is a 64-bit value with both counters in the registry, start, end and octet totals are there with their types, and the registry has the other new fields |
| `FlowOutcomes.OpeningErrors` | pkg/intermediate/aggregate.go:685-816 | an opening that fails on a record whose elements are all of their kind returns an error |
| `FlowOutcomes.CorrelatesExactly` | pkg/intermediate/aggregate.go:440-488 | correlation runs through exactly if every set correlate field of the incoming record is there in the stored one with a value of the same kind; otherwise it panics, and it never returns an error |
| `FlowOutcomes.MergesExactly` | pkg/intermediate/aggregate.go:492-646 | a record is merged into a stored one exactly if it has an end time, a start time where one is asked for and, if it is later, everything configured with its type |
| `FlowOutcomes.ErrorOrPanic` | pkg/intermediate/aggregate.go:492-646 | a merge that fails on a record with its times returns an error if all that the record has is of its kind, and panics if it has everything |
| `FlowOutcomes.NoEndTime` | pkg/intermediate/aggregate.go:492-646 | a record without an end time is never merged: it is refused if something else is missing, and otherwise the division by no seconds panics |
| `FlowOutcomes.ResetsExactly` | pkg/intermediate/aggregate.go:651-683 | a reset runs through exactly if every field that it writes is there, else it returns an error; every stored record has them |
| `FlowOutcomes.ResetReaches` | pkg/intermediate/aggregate.go:651-683 | a reset that stops at a missing field has cleared all delta counters before it |
| `FlowHistory.DoneMerges` | pkg/intermediate/aggregate.go:340-373 | correlation, readiness and aggregation that run through are together the merge of the histories |
| `FlowShape.ShapeStays` | pkg/intermediate/aggregate.go:330-436 | over every history in which no callback rewrote the record, refused records and stopped resets included, the stored elements are those of the first record, then per-node counters, end times and throughput, in that order; nothing is added, dropped or moved later |
| `FlowHistory.AlwaysStored` | pkg/intermediate/aggregate.go:330-436 | at every point of every history the stored record has every field that a merge reads or writes |
| `FlowHistory.EndTimes` | pkg/intermediate/aggregate.go:498-523 | over every history `flowEndSeconds` is the maximum over all records received, skipped ones too, and a node's end time is the one it sent last |
| `FlowHistory.GuardsMeanAccepted` | pkg/intermediate/aggregate.go:498-523 | the guards of a merge, which look at stored fields, hold exactly if the history says the record is later than its node's previous one and the latest of all |
| `FlowCounters.DeltaConservation` | pkg/intermediate/aggregate.go:557-620 | over every history the delta values cleared at resets plus the node's current delta are, modulo 2^64, the sum of the deltas of that node's accepted records |
| `FlowSides.DeltasByPod` | pkg/intermediate/aggregate.go:557-620 | over every history of inter-node records that name one pod each, the deltas handed over at resets and the current delta of a node are, modulo 2^64, the sum of the deltas in the records that named its pod and ended later than the one before |
| `FlowCounters.CommonDelta` | pkg/intermediate/aggregate.go:599-616 | after an accepted record that is the latest the common delta is the counter of the side that reported |
| `FlowCounters.TotalIsMaximum` | pkg/intermediate/aggregate.go:599-605 | each common total is the maximum over the opening record and the accepted records that were the latest on arrival |
| `FlowCounters.EndReasonAbsorbs` | pkg/intermediate/aggregate.go:531-538 | the end reason is EndOfFlow exactly if some accepted record said so; it never changes back |
| `FlowCounters.StateIsLatest` | pkg/intermediate/aggregate.go:539-544 | over every history `tcpState` is the state in the last record that was accepted while being the latest |
| `FlowCounters.CorrelatedReasonForgets` | pkg/intermediate/aggregate.go:447-461 | with the end reason among the correlate fields, a second record overwrites that the first had ended the flow |
| `FlowCounters.CorrelatedStateIsOlder` | pkg/intermediate/aggregate.go:447-455 | with the state among the correlate fields, a second record that ended earlier leaves its own state |
| `FlowReadiness.ReadyMeansComplete` | pkg/intermediate/aggregate.go:341-361 | a flow is ready exactly if its opening record needed no correlation or a later record that did came from another node |
| `FlowReadiness.CompleteMeansBothNodes` | pkg/intermediate/aggregate.go:853-896 | if all records of a history need correlation and name one pod each, a later record comes from another node than the first exactly if both nodes occur |
| `FlowReadiness.ReadyMeansBothNodes` | pkg/intermediate/aggregate.go:853-896 | if all records need correlation and name one pod each, a flow is ready exactly if both nodes have reported |
| `FlowReadiness.ReadyStays` | pkg/intermediate/aggregate.go:341-355 | a flow that is ready after some prefix of a history is ready after the whole, rewritten records included |
| `FlowReadiness.EitherOrder` | pkg/intermediate/aggregate.go:330-377 | once one record of each node has arrived, in either order, the flow is ready and each correlate field that the aggregation does not write is the value of the record that has it set |
| `FlowThroughput.CounterIsLastTotal` | pkg/intermediate/aggregate.go:562-598 | a per-node total is always the total of that node's last accepted record |
| `FlowThroughput.StoredRate` | pkg/intermediate/aggregate.go:622-644 | the throughput stored by an accepted record in order is the rate of the octets since the node's previous total, with a divisor of at least one second |
| `FlowThroughput.LaterRate` | pkg/intermediate/aggregate.go:628-644 | with no condition on order: the side against which an accepted merge is measured, and the rate stored |
| `FlowThroughput.MeasuredOwn` | pkg/intermediate/aggregate.go:508-513 | the destination is always measured against itself; the source is unless records for one node and for both are mixed |
| `FlowThroughput.ThroughputBound` | pkg/intermediate/aggregate.go:769-777 | for a node's records in order, throughput times interval sums to more than eight times the total less the elapsed seconds, and to at most eight times the total |
| `FlowThroughput.MixedBreaksBound` | pkg/intermediate/aggregate.go:508-513 | a record from the source and a later one for both nodes, in order for the source, whose volume exceeds eight times its total |
| `Scheduling.TouchInv` | pkg/intermediate/aggregate.go:374-377 | rescheduling a flow keeps the queue a heap of stored flows, each once, with exactly that entry changed |
| `Scheduling.ExpireOneInv` | pkg/intermediate/aggregate.go:262-304 | one iteration keeps the queue a heap of stored flows, each once, whatever the callback does |
| `ExpiryPass.ExpireOneDecreases` | pkg/intermediate/aggregate.go:262-304 | every iteration lowers the sum of the pops still possible, unless the active timeout is negative and a ready flow is queued between its two deadlines |
| `ExpiryPass.EndsExactly` | pkg/intermediate/aggregate.go:262-304 | the loop ends if the active timeout is not negative or no ready flow is queued between its two deadlines; otherwise it ends only in a failed callback, so with callbacks that succeed the condition is exact |
| `ExpiryPass.PassKeepsInv` | pkg/intermediate/aggregate.go:254-306 | every pass that ends, failed or not, keeps the invariant; after one that does not fail every queued flow has both deadlines strictly after the clock |
| `ExpiryPass.PopsInOrder` | pkg/intermediate/aggregate.go:262-304 | with non-negative timeouts a pass pops in order of deadlines |
| `ExpiryFate.PassIsPointwise` | pkg/intermediate/aggregate.go:254-306 | a pass gives every key exactly the fate that its own flow and entry determine: removed or kept, retries, entry, number of callbacks; one cut short by a failed callback leaves every other key the rest of that fate and calls none back more often |
| `ExpiryFate.CalledBackOnce` | pkg/intermediate/aggregate.go:286-304 | how often a queued flow is called back in a pass: never if not due or not ready, once otherwise, twice exactly when it is pushed back already due; a failure makes it no more, and a pass with a flow that would be called back for ever fails |
| `ExpiryFate.PassLeaves` | pkg/intermediate/aggregate.go:286-304 | a flow that a pass, failed or not, does not remove has the record and flag that its callbacks in that pass made of what it had, one after the other |
| `ExpiryFate.NeverReadyIsRemoved` | pkg/intermediate/aggregate.go:270-285 | a due flow that is not ready is never called back; it stays, with one retry more and new deadlines, exactly if a retry is left and both timeouts are positive |
| `AggregationRuns.RemovedAtLastExpiry` | pkg/intermediate/aggregate.go:270-285 | in every run a due flow that is not ready is never called back and stays exactly if it was due fewer than MaxRetries times before and both timeouts are positive |
| `AggregationRuns.AdmitInv` | pkg/intermediate/aggregate.go:330-436 | any record keeps the queue a heap of stored flows; one that is refused changes neither the queue nor the set of flows nor another flow |
| `LiveFlows.ArrivalSchedules` | pkg/intermediate/aggregate.go:374-434 | an accepted record gives a new flow both deadlines, now plus each timeout; the entry of a known flow gets the inactive deadline now plus the timeout and keeps its active one; every other entry stays |
| `LiveFlows.RefusedArrival` | pkg/intermediate/aggregate.go:340-373 | in the process: a record that a ready flow refuses leaves queue and other flows and has moved that flow's end times |
| `LiveFlows.ResetStep` | pkg/intermediate/aggregate.go:648-683 | in the process: a reset leaves queue, flags and other flows and has cleared the delta counters up to the first missing one |
| `LiveFlows.PassKeepsLive` | pkg/intermediate/aggregate.go:286-304 | a pass that is not later than the inactive deadline of a ready flow keeps that flow, whatever the callbacks do |
| `LiveFlows.LiveIsKept` | pkg/intermediate/aggregate.go:254-436 | in every run a ready flow that has had a record is kept, with an inactive deadline no earlier than that record plus the timeout, as long as no pass is later than that, whatever comes for it and for other flows |
| `LiveFlows.IdleIsRemoved` | pkg/intermediate/aggregate.go:286-304 | a ready queued flow without a record for longer than the inactive timeout is called back and removed by the next pass that does not fail |
| `ExpiryFate.PassKeepsAllQueued` | pkg/intermediate/aggregate.go:286-304 | a pass keeps map and queue in bijection exactly if no due ready flow meets the drop condition |
| `ExpiryFate.NoTieNoDrop` | pkg/intermediate/aggregate.go:264-298 | with a positive active timeout and no deadline equal to the clock nothing is dropped |
| `ExpiryFate.FailureDrops` | pkg/intermediate/aggregate.go:286-289 | a failed callback leaves its flow in the map and out of the queue |
| `AggregationRuns.Run` | pkg/intermediate/aggregate.go:254-436 | in every run of arrivals, passes and resets that neither panics nor hangs, whatever the configured timeouts, the records and the callbacks, the queue is a min-heap that holds only stored flows, each once |
| `AggregationRuns.OnlyPanicsEnd` | pkg/intermediate/aggregate.go:254-436 | with an active timeout of zero or more only a record on which the code panics ends a run |
| `AggregationRuns.RunSound` | pkg/intermediate/aggregate.go:254-436 | in every run, whatever the records and callbacks, each stored flow is the replay of its own history, was retried only while not ready and called back only while ready |
| `AggregationRuns.ReachableFlows` | pkg/intermediate/aggregate.go:254-436 | in every run, for every flow whose own history is proper, deltas are conserved, common totals are maxima and per-node totals the last accepted, end times are the largest and last received, end reason and state are those of the accepted records, and readiness means both sides reported |
| `AggregationRuns.RunProper` | pkg/intermediate/aggregate.go:254-436 | a flow has a proper history if each step brings its key only records as nodes send them and only callbacks that leave, reset or annotate its record, whatever happens to other flows |
| `AggregationRuns.NeverRefused` | pkg/intermediate/aggregate.go:340-373 | a record as nodes send it is never refused by a flow of proper history |
| `AggregationRuns.PassKeepsLost` | pkg/intermediate/aggregate.go:254-306 | a pass, failed or not, leaves a stored flow that is out of the queue where it is and does not call it back |
| `AggregationRuns.LostForEver` | pkg/intermediate/aggregate.go:254-436 | no step, whatever it is, gives a stored flow that is out of the queue its place back or removes it |
| `AggregationRuns.AllQueuedExactly` | pkg/intermediate/aggregate.go:254-436 | in every run stored flows and queue entries are in bijection, and equally many, exactly if no pass had a failed callback or a due ready flow that meets the drop condition |
| `AggregationRuns.RunAllQueued` | pkg/intermediate/aggregate.go:254-436 | in every run with a positive active timeout, successful callbacks and no tie, stored flows and queue entries are in bijection and equally many |
| `AggregationRuns.TieLosesFlow` | pkg/intermediate/aggregate.go:286-304 | for every configuration with an inactive timeout below the active one and every record that opens a ready flow, an arrival and a pass at the inactive deadline leave a stored flow out of the queue |
| `AggregationRuns.NegativeTimeoutHangs` | pkg/intermediate/aggregate.go:262-304 | for every configuration with a negative active timeout and an inactive one that is not, an arrival and a pass at the same time never end |
| `AggregationRuns.WaitCoversEarliest` | pkg/intermediate/aggregate.go:202-219 | the wait is the smaller timeout if nothing is queued; otherwise MinExpiryTime after the earliest deadline of all, or MinExpiryTime if that is past |
| `RecordMerger.Merger.AddFieldsForStatsAggregation` | pkg/intermediate/aggregate.go:685-724 | on every record the loop leaves what the attempt on values leaves and ends as it does: through, with an error for a name the registry lacks, or in a panic |
| `RecordMerger.Merger.AddFieldsForThroughputCalculation` | pkg/intermediate/aggregate.go:726-816 | the same for end times and throughput, with an error for a missing start, end or octet element |
| `RecordMerger.Merger.CorrelateRecords` | pkg/intermediate/aggregate.go:440-488 | on every pair of records the loop correlates or panics as the attempt on values does, and leaves the incoming record |
| `RecordMerger.Merger.UpdateFlowEndSecondsFromNodes` | pkg/intermediate/aggregate.go:818-834 | the stored end time becomes the incoming one and the previous one is returned; a missing or mistyped time is a panic |
| `RecordMerger.Merger.AggregateRecords` | pkg/intermediate/aggregate.go:492-646 | on every pair of records the loops together leave the stored one and end as the attempt on values does, errors and panics part-way included; the incoming record is unchanged |
| `RecordMerger.Merger.ResetStatAndThroughputElementsInRecord` | pkg/intermediate/aggregate.go:651-683 | on every record the loops reset as the attempt on values does, up to the first missing element |
| `Aggregation.AggregationProcess.Separate` | pkg/intermediate/aggregate.go:36-70 | different keys have different records and items, so that changing one flow leaves the others |
| `Aggregation.AggregationProcess.IndexIsPosition` | pkg/intermediate/priorityqueue.go:22-32 | an item's index is the position of its flow in the queue, or -1 if it is out of it |
| `Aggregation.AggregationProcess.AddOrUpdateRecordInMap` | pkg/intermediate/aggregate.go:330-436 | on pointers, every record is inserted, merged or refused as the step on values says, with the same outcome, and unless it panics map, heap and back pointers stay linked; one that is accepted gives a new flow both deadlines and a queued one a new inactive deadline, and no other entry changes |
| `Aggregation.AggregationProcess.ForAllExpiredFlowRecordsDo` | pkg/intermediate/aggregate.go:254-306 | on pointers, a pass whose loop ends does what the pass on values does, with the same log, for callbacks that may rewrite the record and fail; neither deletion can fail |
| `Aggregation.AggregationProcess.ResetStoredRecord` | pkg/intermediate/aggregate.go:648-683 | a reset of a stored record by the user changes that flow and nothing else, and returns an error exactly if the reset stops part-way |
| `Aggregation.AggregationProcess.GetExpiryFromExpirePriorityQueue` | pkg/intermediate/aggregate.go:202-219 | the method returns the wait of the state it stands for |
| `Aggregation.AggregationProcess.DeleteFlowKeyFromMapWithoutLock` | pkg/intermediate/aggregate.go:191-200 | an error exactly if the key is missing, and only that key is removed |
| `Aggregation.AggregationProcess.Perform` | pkg/intermediate/aggregate.go:254-436 | any sequence of steps on the objects ends in the state of the run on values, if that neither panics nor hangs |
| `Elements.PayloadRoundTrip` | pkg/entities/ie.go:212-335 | decoding the bytes written for an encodable value gives the value back, for every supported type but strings, which carry a length prefix |
| `Elements.AnnouncedRoundTrip` | pkg/collector/process.go:391-401 | the length prefix of a string, of either form, is read back and leaves text and rest |
| `Elements.ElementRoundTrip` | pkg/entities/ie.go:503-575 | whatever follows, an encoded element is read back and exactly its own bytes are consumed |
| `Elements.EncodableFillsSlot` | pkg/entities/ie_value.go:179-181 | an encodable element is written, fills exactly the length reserved for it, and takes at least one byte |
| `WireOctets.ValueOctets` | pkg/entities/ie.go:503-575 | the octets of a value of every type: numbers most significant octet first, signed ones in two's complement, booleans 1 and 2, IPv4 addresses short and IPv6 ones long with the mapped prefix, texts after a prefix of one or three octets; and exactly which values have none |
| `WireOctets.FieldWidths` | pkg/entities/ie.go:503-575 | the octets that a value of each type takes, which is the length its element has |
| `WireOctets.DecodedOctets` | pkg/entities/ie.go:212-335 | what the collector makes of the octets of a field of each unsigned, boolean, text and address type, and that too short a field is a panic |
| `WireOctets.SignedOctets` | pkg/entities/ie.go:212-335 | signed fields are read as two's complement |
| `WireOctets.PrefixOctets` | pkg/collector/process.go:391-401 | the length prefix of a text is one octet, or 255 and two octets; if octets of it are missing the length is zero and the rest is used up |
| `WireOctets.SpecifierOctets` | pkg/entities/record.go:208-236 | a field specifier is the element id with the enterprise bit, the length and, exactly for a non-zero enterprise, its number |
| `WireOctets.TemplateOctets` | pkg/entities/record.go:201-236 | a template record is its id, its field count in sixteen bits and its specifiers |
| `Wire.MessageFilled` | pkg/exporter/msg.go:28-55 | a built message is as long as its header says, at most 65535 and at least its two headers |
| `WireOctets.MessageOctets` | pkg/exporter/msg.go:24-56 | a message is built exactly if it fits 65535 octets, and then has version 10, its own length, export time, sequence number and domain at their octets, the set id, and at octets 18 and 19 the length of the message less 16; the records follow |
| `WireOctets.SentOctets` | pkg/exporter/process.go:219-306 | what the exporter writes for a set has these octets, with the sequence number after counting |
| `Parse.RecordRoundTrip` | pkg/collector/process.go:302-314 | a printed record is read back element by element, whatever follows it |
| `Parse.RecordsRoundTrip` | pkg/collector/process.go:302-319 | for a non-empty template any list of conforming records is read back in order, every iteration shrinking the buffer |
| `Parse.OnlyConforming` | pkg/collector/process.go:302-319 | printed records that are read back with their elements and values conform to the template |
| `Parse.DivergesExactly` | pkg/collector/process.go:302-319 | the decoding loop fails to end exactly on a non-empty body whose template has only zero-length elements that are addresses or strings, which among registry elements is the empty template |
| `Parse.SpecifierRoundTrip` | pkg/entities/record.go:208-236 | a field specifier is read back as the registered element, with and without enterprise bit |
| `Parse.SpecifiersRoundTrip` | pkg/collector/process.go:233-282 | the element list of a registered template is rebuilt exactly if every type has an empty value; otherwise error or panic, by the first that has none |
| `Parse.TemplateRoundTrip` | pkg/collector/process.go:221-289 | id and elements of a template are recovered and the rebuilt record prints the same bytes |
| `Parse.HeaderRoundTrip` | pkg/collector/process.go:177-191 | every header field of a built message, the set's length among them, is read back where the collector looks |
| `WireOctets.PacketRefused` | pkg/collector/process.go:176-219 | a packet of fewer than 20 octets, of another version than 10 or with data under an unknown template is an error and changes nothing |
| `WireOctets.PacketHeader` | pkg/collector/process.go:177-212 | a message that is handed on has the header fields that stand at their octets, and a template set exactly if the set id is 2 |
| `Protocol.ConformingIsSane` | pkg/exporter/process.go:435-451 | a record that conforms to its registered template passes the check, although minimum length and field count wrap at sixteen bits |
| `Protocol.WrappedMinimumIsSmaller` | pkg/entities/record.go:229-234 | the wrapped minimum length never exceeds the true one |
| `ExporterRuns.LeastRecord` | pkg/entities/record.go:229-234 | no record of a template is shorter than the least length, and those of that length are exactly the ones whose texts are empty |
| `Protocol.SetRoundTrip` | pkg/collector/process.go:200-212 | a learnable template set or a conforming data set decodes to itself and teaches the collector exactly what it announces |
| `Protocol.MessageRoundTrip` | pkg/collector/process.go:176-219 | every header field and every value of a message arrives, in order, for template sets and for data sets of any number of records |
| `Protocol.FairMessage` | pkg/collector/process.go:176-219 | every message with a learnable template or with any data whatever: what is handed on is what is read in the set, and only a template that is read changes the templates |
| `Protocol.ArrivesExactly` | pkg/collector/process.go:291-321 | a data set under a known template is handed on with the records that were sent exactly if it conforms |
| `Protocol.AcceptedThenPanic` | pkg/exporter/process.go:435-451 | a record that the exporter accepts and that makes the collector panic: a number where the template has a text |
| `Protocol.AgreeUnlessRedefined` | pkg/exporter/process.go:373-388 | after an announcement the collector has the announced elements, and exporter and collector agree exactly if the id was new or stood for the same elements |
| `Protocol.InStepExactly` | pkg/exporter/process.go:219-251 | two template maps that agree agree after an announcement exactly if it fits a message and does not redefine, or does not fit and was known |
| `ExporterRuns.FirstIsRemembered` | pkg/exporter/process.go:373-388 | after any sequence of sets, refused and oversized ones included, the exporter knows exactly the ids that some template record had, each with the elements of the first and their least record length modulo 65536 |
| `ExporterRuns.RefusedExactly` | pkg/exporter/process.go:219-306 | after any sequence of sets a data set is refused, with nothing counted or written, exactly if the id of one of its records was never announced, or was first announced with another field count or a greater least length, both modulo 65536; otherwise its records are counted and it is written exactly if it fits |
| `Stream.FramesOfMessages` | pkg/collector/tcp.go:72-97 | a stream that begins with messages is cut into those messages, and goes on after them |
| `Stream.SplitsBack` | pkg/collector/tcp.go:72-97 | any concatenation of messages is cut back into exactly those messages |
| `Stream.BuiltIsFramed` | pkg/exporter/msg.go:28-55 | every message the exporter builds can be cut |
| `Stream.ReadMessages` | pkg/collector/tcp.go:72-97 | the read loop computes that cut, and says whether it stopped at the end, inside a message or on a zero length |
| `WireOctets.StreamEnds` | pkg/collector/tcp.go:72-97 | a rest of fewer than four octets ends the reading, a length of zero never ends it, one beyond the rest ends it inside a message |
| `SessionRuns.RunInv` | pkg/exporter/process.go:219-251 | the invariant of exporter, byte stream and collector holds after every run of sends, of any data sets, and deliveries |
| `SessionRuns.EverythingArrives` | pkg/collector/process.go:176-363 | in every run, whatever the data sets: outcomes come in the order of the sets sent; every set that can be learnt or conforms is handed on with the values sent; only a panic or endless loop stops the reading; for every template handed on the collector has the exporter's elements; the bytes between are those of the remaining sets; with none left the collector has exactly the exporter's templates that fit a message |
| `SessionRuns.OnlyConformingArrive` | pkg/collector/process.go:291-321 | in every run a data set that was read gave the records sent exactly if it conforms to the template announced before it |
| `SessionRuns.RefusedInv` | pkg/exporter/process.go:287-294 | a refused data set leaves the very same session except that the count of data records is advanced, exactly when every record passed the check, before the size is looked at |
| `SessionRuns.UnsentInv` | pkg/exporter/process.go:219-251 | a template set too long for a message is remembered by the exporter and changes nothing else |
| `SessionRuns.RefreshRepeats` | pkg/exporter/process.go:402-433 | at any point of a run a refresh may be sent, leaves the exporter as it is, and prints the record bytes of the first announcement |
| `RecordBuffers.PutBigEndian` | pkg/entities/ie.go:503-575 | the loop writes the number most significant byte first at its place and nothing else |
| `RecordBuffers.EncodeInfoElementValueToBuff` | pkg/entities/ie.go:503-575 | for every element, buffer and place: the value is written to its own place, or nothing is, on an error or a panic, with exactly when each happens; a value wider than its slot runs on into what follows |
| `RecordBuffers.EncodeString` | pkg/entities/ie.go:557-570 | the length prefix of either form and the text, at their places; too long a text is an error |
| `RecordBuffers.Record.Data` | pkg/entities/record.go:60-78 | a new data record is valid and holds no element |
| `RecordBuffers.Record.Template` | pkg/entities/record.go:80-92 | a new template record is valid and its buffer starts with its id and field count |
| `RecordBuffers.Record.AddData` | pkg/entities/record.go:188-199 | an element goes to the next slot or the end; length and count follow; a cached buffer stays one of a prefix |
| `RecordBuffers.Record.AddTemplate` | pkg/entities/record.go:208-236 | the specifier is appended and the minimum length follows; an element with a value is refused and changes nothing |
| `RecordBuffers.Record.GetDataBuffer` | pkg/entities/record.go:168-182 | after any interleaving of additions and reads the buffer is the concatenation of the element encodings |
| `Messages.RecordSet.constructor` | pkg/entities/set.go:64-91 | a new prepared set is valid and empty |
| `Messages.RecordSet.PrepareSet` | pkg/entities/set.go:80-91 | the type and header id are set; the undefined type is refused and changes nothing |
| `Messages.RecordSet.ResetSet` | pkg/entities/set.go:93-102 | the set is empty, undefined and valid again |
| `Messages.RecordSet.UpdateLenInHeader` | pkg/entities/set.go:116-122 | the header is the set header of the set's value; its last two octets are the length of header and records in sixteen bits |
| `Messages.RecordSet.AddRecord` | pkg/entities/set.go:124-170 | the record is appended and the set's length stays header plus record lengths; an error, exactly on an undefined set or a valued template element, changes nothing |
| `Messages.Message.SetVersion` | pkg/entities/message.go:52-57 | the field and its two header bytes change, the header still says what the fields say |
| `Messages.Message.SetMessageLen` | pkg/entities/message.go:63-68 | the same for the length |
| `Messages.Message.SetSequenceNum` | pkg/entities/message.go:74-79 | the same for the sequence number |
| `Messages.Message.SetObsDomainId` | pkg/entities/message.go:85-90 | the same for the observation domain |
| `Messages.Message.SetExportTime` | pkg/entities/message.go:96-101 | the same for the export time |
| `Messages.CreateIPFIXMsg` | pkg/exporter/msg.go:24-56 | the loop that copies buffers into one slice gives message header, the set header as it is and the records, or nothing if that would exceed 65535 bytes; with an updated set header it is the message of the set's value; the set's value stays |
| `Exporting.ExportingProcess.NewTemplateId` | pkg/exporter/process.go:279-283 | the id was never handed out before exactly for the first 65536 calls, is one a template may have exactly for the first 65280 of every 65536, and is that of template sets exactly for one call in 65536 |
| `Exporting.ExportingProcess.UpdateTemplate` | pkg/exporter/process.go:373-388 | the first definition of an id is remembered with its elements and minimum length, a later one is ignored |
| `Exporting.ExportingProcess.DataRecSanityCheck` | pkg/exporter/process.go:435-451 | an error exactly if the template is unknown, the field counts differ modulo 65536 or the record is shorter than the remembered least length |
| `Exporting.ExportingProcess.CreateAndSendIPFIXMsg` | pkg/exporter/process.go:285-306 | the sequence number counts the data records first, then the message is written or an error returned |
| `Exporting.ExportingProcess.SendSet` | pkg/exporter/process.go:219-251 | templates learnt, records checked, message written: the step on values; a refused record stops it before anything is counted or written; what is written has the two headers, the set's length among them, octet by octet, and the printed records |
| `Exporting.ExportingProcess.SendRefreshedTemplates` | pkg/exporter/process.go:402-433 | every known template is sent again once, in some order; only the output changes; it fails exactly if some template cannot be sent, panics only before anything is written and over a 64-bit signed element, and keeps the mutex exactly if some template cannot be built |
| `Exporting.RefreshKeepsExporter` | pkg/exporter/process.go:373-379 | announcing a known template again leaves the exporter as it is |
| `Collecting.GetFieldLength` | pkg/collector/process.go:391-401 | the announced length and the bytes consumed, read errors included |
| `Collecting.DecodeRecord` | pkg/collector/process.go:303-314 | the inner loop reads one record as the function on bytes does |
| `Collecting.DecodeSpecifiers` | pkg/collector/process.go:233-282 | the loop reads the field specifiers as the function on bytes does |
| `Collecting.CollectingProcess.AddTemplate` | pkg/collector/process.go:323-337 | the last definition of an id in a domain is kept and no other template changes |
| `Collecting.CollectingProcess.DecodeTemplateSet` | pkg/collector/process.go:221-289 | the set and the learnt template; on failure the template map is unchanged |
| `Collecting.CollectingProcess.DecodeDataSet` | pkg/collector/process.go:291-321 | the set of all records in the body, or the error, panic or endless loop of the first that has one |
| `Collecting.CollectingProcess.DecodePacket` | pkg/collector/process.go:176-219 | the message with its set, the templates and the count after it; on any failure the collector is as before |
| `Registry.RegisterConsistent` | pkg/registry/registry.go:133-150 | registration keeps names and ids in agreement exactly if no other name has the id, among the reverse elements too |
| `Registry.LoadResolves` | pkg/registry/registry.go:96-150 | for any table with distinct ids every name resolves to the element its id resolves to, every entry is a registered element or its reverse, every reversible element has its reverse |
| `Registry.LoadFinds` | pkg/registry/registry.go:96-150 | after loading any table a name of either enterprise finds the first element of that name in the table, or nothing |
| `Registry.LoadFindsReverse` | pkg/registry/registry.go:133-168 | after loading any table the reverse of a reversible element is found under its name in enterprise 29305 |
| `Registry.ReverseNamed` | pkg/registry/registry.go:152-168 | the reverse element is called "reverse" and the name with its first letter in upper case; id, type and length stay |
| `Registry.OctetsReversed` | pkg/registry/registry.go:133-168 | once "octetTotalCount" is loaded "reverseOctetTotalCount" is found in enterprise 29305 |
| `Registry.GlobalRegistry.LoadRegistry` | pkg/registry/registry.go:96-109 | the loop over any table of elements of the two enterprises gives the indexes of the table, none of the registrations panicking |
| `Registry.NamesAreRegistered` | pkg/registry/registry.go:111-131 | an element looked up by name is recognised from its id by the collector |
| `Registry.GlobalRegistry.InitNewRegistry` | pkg/registry/registry.go:76-83 | an error exactly before loading, and then nothing changes; otherwise the enterprise is known and finds nothing, every lookup elsewhere gives what it gave, and the two indexes agree if they did |
| `Registry.GlobalRegistry.GetIANAReverseInfoElement` | pkg/registry/registry.go:152-168 | the reverse element of a known reversible name, an error otherwise |
| `Registry.GlobalRegistry.RegisterInfoElement` | pkg/registry/registry.go:133-150 | registration as on values; an error leaves both indexes |

## Left out

- AggregationRuns.ReachableFlows: requires that the flow's own history is of records that carry what is configured, with its types, and none of the fields that the aggregation adds, and that no callback rewrote a field of the aggregation; otherwise the fields are no longer what was received. `AggregationRuns.RunProper` says which runs give that.
- AggregationRuns.RunAllQueued: is the special case of `AggregationRuns.AllQueuedExactly` that asks for no deadline equal to the clock.
- Aggregation.AggregationProcess.Perform: requires that the run neither panics nor hangs; after that there is no process.
- Aggregation.AggregationProcess.ForAllExpiredFlowRecordsDo: requires that its loop ends; `ExpiryPass.EndsExactly` says when.
- Aggregation.AggregationProcess.AddOrUpdateRecordInMap: promises nothing of the objects after a panic, and requires that the incoming record is not a stored object.
- FlowOutcomes.OpensExactly: requires a usable configuration in which the octet totals are not also per-node counters.
- FlowCounters.EndReasonAbsorbs: requires that `flowEndReason` is not a correlate field; with it the property is false, as `FlowCounters.CorrelatedReasonForgets` shows.
- FlowCounters.StateIsLatest: requires the same of `tcpState`; `FlowCounters.CorrelatedStateIsOlder` shows why.
- FlowReadiness.EitherOrder: requires correlate fields that the aggregation does not write; of the others the later record decides.
- FlowThroughput.ThroughputBound: requires that a node's records come in order, that totals do not fall, that eight times the total fits 64 bits and that the node is measured against itself; these are sufficient, and no exact condition is given.
- LiveFlows.LiveIsKept: requires that the flow is ready and that its later records do not arrive before the first one; a flow that is not ready is removed by retries, as `AggregationRuns.RemovedAtLastExpiry` says.
- FlowSides.RefusedMoves: requires that the refused record is not correlated with the flow.
- FlowSides.SentAgain: requires that the flow is ready and that the end time is not zero.
- FlowShape.ShapeStays: requires that no per-node counter has the name of a statistic, which every usable configuration gives.
- ExpiryFate.PassLeaves: requires a callback that does the same to a flow each time it is called for it in the pass.
- FlowSides.DeltasByPod: requires that every record of the history needs correlation and names one pod; `FlowCounters.DeltaConservation` has neither condition.
- FlowOutcomes.OpeningErrors: requires what `FlowOutcomes.OpensExactly` requires.
- Configurations with a name in two lists or with more than two throughput elements, and nil aggregate elements.
- Callbacks that change a flow's readiness or deadlines, the external-fields flag, and edits through `ForAllRecordsDo` other than resets.
- `AggregateMsgByFlowKey`, flow keys from records, `GetRecords`, `ForAllRecordsDo`, worker start and stop: plumbing around the steps.
- `deleteFlowKeyFromMap`, which only tests call.
- SessionRuns.EverythingArrives: requires template sets of one record, not empty, of fewer than 65536 registered elements with fifteen-bit ids and an empty value, that redefine no id; no template and no data set that is sent has the id of template sets; every value fits the slot that its element reserves.
- SessionRuns.RunInv: the same.
- SessionRuns.OnlyConformingArrive: the same, and that registered elements have the length of their type.
- Several exporters on one collector, several sets in one message, set padding, template withdrawal, reduced-size encoding.
- UDP, and with it the expiry of templates in the collector; sockets, TLS, connection checks and partial writes: the connection takes every message whole.
- JSON export, the Kafka producer and consumer, protobuf, mocks and commands.
- RecordBuffers.Record.AddData: data records of more than 65536 elements, where the sixteen-bit field count wraps and slots are overwritten, and values whose encoding is longer than their slot (a MAC address of another length).
- Messages.RecordSet.AddRecord: the same records.
- Messages.RecordSet.PrepareSet: only on a set without records; on others the type would no longer be that of the records.
- Exporting.ExportingProcess.UpdateTemplate: requires that the mutex is free, without which it does not return.
- Exporting.ExportingProcess.DataRecSanityCheck: the same.
- Exporting.ExportingProcess.SendSet: the same, if it visits a record.
- `AddRecordWithExtraElements` differs from `AddRecord` in slice capacity only, which the model does not see; nil and empty slices are not told apart.
- `PutInfoElement` differs from registration in adding no reverse element; the generated element tables are any table.
- Registry.LoadFindsReverse: requires that no other element of the table has the name or the reverse name of the element.
- Registry names are ASCII, so that upper-casing one letter is upper-casing one byte.
- The exporter's address and the address parsing in `decodePacket`.
