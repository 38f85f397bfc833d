# Partitioned hash aggregation and the test aggregate functions

This project models two parts of the Impala backend in Dafny and proves
properties about them.

**The partition state machine of the partitioned hash aggregation node**
(`partitioned_aggregation.dfy`, module `PartitionedAggregation`).

- Routing:
  - Each input row is hashed.
  - The upper `NUM_PARTITIONING_BITS` bits of the 32-bit hash pick one of `PARTITION_FANOUT` partitions of the current set.
- Partitions:
  - An active partition owns a hash table. The table indexes the intermediate tuples of its aggregated row stream.
  - A spilled partition has given its table up. It only appends rows to its aggregated and unaggregated streams.
  - Spilling is one-way.
- When the input is consumed, `MoveHashPartitions` sends every partition of the set to exactly one of two queues:
  - the aggregated queue, when it is active;
  - the spilled queue, when it is spilled.
- `NextPartition` returns aggregated partitions first. Otherwise it repartitions a spilled partition into a new set one level deeper, and fails at `MAX_PARTITION_DEPTH`.
- The streaming pre-aggregation never spills. It keeps a per-partition `remaining_capacity` and passes rows through once a table cannot grow.
- `MinRequiredBuffers` is the buffer reservation.
- The node is a class:
  - the current set and the two queues are sequence fields that its methods reassign;
  - the `hash_tbls_` cache is an array;
  - a partition is a datatype value.
- An intermediate tuple is abstracted to its grouping key and the number of input rows folded into it. This lets the model state that no operation loses or duplicates a row, and that every key is held by the partition it routes to.
- Repartitioning terminates: a weight over the spilled queue strictly decreases.

**The test user-defined aggregate functions** (`test_udas.dfy`, module `TestUdas`).

- `MemTest`: a null-aware running sum that tracks its allocations.
- `ToggleNull`: the parity of the inputs, encoded as NULL or 1.
- `CountNulls`: counts the NULL inputs.
- `ArgIsConst`: merges with OR.
- `AggSerialize`/`AggFinalize`: the identity.
- Init, Update and Merge write through an out-pointer, so they are methods on a `Slot` object. Serialize and Finalize are expressions.
- Each function has a reference definition: a sum, a parity, a count or an OR over the input sequence. Lemmas prove that sequential updates compute it, and that merging partial results, however the input is split, gives the same value.

## Model

| member | source | states |
|---|---|---|
| PartitionedAggregation.FanoutMatchesPartitioningBits | be/src/exec/partitioned-aggregation-node.h:149-156 | PARTITION_FANOUT is 2^NUM_PARTITIONING_BITS, and the partitions split the 32-bit hash space into equal spans |
| PartitionedAggregation.PartitionIdx | be/src/exec/partitioned-aggregation-node.h:152-156 | the partition picked from the upper bits of a hash is below PARTITION_FANOUT, and the hash lies in that partition's span |
| PartitionedAggregation.TableBits | be/src/exec/partitioned-aggregation-node.h:152-153 | the lower bits left for the hash table are below the span of one partition |
| PartitionedAggregation.HashSplitsIntoPartitionAndTableBits | be/src/exec/partitioned-aggregation-node.h:152-156 | a hash is exactly its partition bits followed by its table bits, and two hashes that agree on both are equal |
| PartitionedAggregation.Partition.IsSpilled | be/src/exec/partitioned-aggregation-node.h:381 | a partition is spilled exactly when it has no hash table, and a spilled partition is trivially consistent (no table to index its stream) |
| PartitionedAggregation.Partition.InitStreams | be/src/exec/partitioned-aggregation-node.h:350-364 | the new streams are empty, and the unaggregated stream is absent exactly for a streaming pre-aggregation |
| PartitionedAggregation.Partition.InitHashTable | be/src/exec/partitioned-aggregation-node.h:366-367 | the partition gets an empty table exactly when the memory is granted, and stays spilled otherwise |
| PartitionedAggregation.Partition.Spill | be/src/exec/partitioned-aggregation-node.h:378-396 | after a spill the partition is spilled, with the same level, rows, keys and unaggregated stream |
| PartitionedAggregation.Partition.Close | be/src/exec/partitioned-aggregation-node.h:373-376 | a closed partition is marked closed and keeps its level, rows and spilled state |
| PartitionedAggregation.Partition.AppendSpilledRow | be/src/exec/partitioned-aggregation-node.h:546-550 | the stream append itself: a spilled partition stays spilled and gains the row's rows and key, in the aggregated or the unaggregated stream as the argument selects |
| PartitionedAggregation.Partition.AddTuple | be/src/exec/partitioned-aggregation-node.h:535-544 | a new intermediate tuple adds exactly the row's key to the table, and the table still indexes the stream |
| PartitionedAggregation.Partition.UpdateTuple | be/src/exec/partitioned-aggregation-node.h:52-55 | folding a row into an existing tuple keeps the table and keys and adds the row's rows |
| PartitionedAggregation.Partition.Absorb | be/src/exec/partitioned-aggregation-node.h:52-56 | a row is probed into an active partition or spilled into a spilled one; the spilled state is kept, and the rows grow by the row's rows; a new group appears only for a new key |
| PartitionedAggregation.NewPartition | be/src/exec/partitioned-aggregation-node.h:355-356 | a just-constructed partition is open, at the given level, with no table and empty streams, so it holds no rows and no keys |
| PartitionedAggregation.FreshPartition | be/src/exec/partitioned-aggregation-node.h:354-367 | a new partition is open, empty and at its level; it is spilled exactly when it got no table, and it has no unaggregated stream exactly when streaming |
| PartitionedAggregation.FreshPartitionsFacts | be/src/exec/partitioned-aggregation-node.h:605-607 | a freshly created set holds no rows |
| PartitionedAggregation.SelectMembers | be/src/exec/partitioned-aggregation-node.h:342-345 | a partition goes to the spilled selection exactly when it is spilled, and to the aggregated selection exactly when it is not |
| PartitionedAggregation.SelectIsPermutation | be/src/exec/partitioned-aggregation-node.h:56-61 | the two selections together are a permutation of the partition set |
| PartitionedAggregation.SelectKeepsRows | be/src/exec/partitioned-aggregation-node.h:342-345 | splitting the set into the two queues keeps every row |
| PartitionedAggregation.SpillShrinksActive | be/src/exec/partitioned-aggregation-node.h:625-626 | spilling an active partition leaves one active partition fewer |
| PartitionedAggregation.RepartitionLowersWeight | be/src/exec/partitioned-aggregation-node.h:158-165 | replacing the head of the spilled queue by at most PARTITION_FANOUT spilled partitions one level deeper strictly lowers the queue's weight |
| PartitionedAggregation.RepartitionStep | be/src/exec/partitioned-aggregation-node.h:56-61 | repartitioning one spilled partition keeps all rows, adds PARTITION_FANOUT - 1 partitions to the queues and lowers the weight |
| PartitionedAggregation.AbsorbProgresses | be/src/exec/partitioned-aggregation-node.h:52-56 | absorbing a row only adds rows and keys, never un-spills, and adds exactly the row's rows |
| PartitionedAggregation.AbsorbIntoSet | be/src/exec/partitioned-aggregation-node.h:52-56 | absorbing a row into the partition its key routes to keeps the set valid and routed, and changes no other partition |
| PartitionedAggregation.StoreAfterSpills | be/src/exec/partitioned-aggregation-node.h:535-544 | spills made to get memory, followed by storing the row, still only move the set forward |
| PartitionedAggregation.SetOkUpdate | be/src/exec/partitioned-aggregation-node.h:336-337 | replacing one partition and its cache entry keeps the cache equal to the partitions' tables |
| PartitionedAggregation.SetOkAppend | be/src/exec/partitioned-aggregation-node.h:333-337 | appending an empty partition and caching its table keeps the set valid |
| PartitionedAggregation.AllHeldAppendSelect | be/src/exec/partitioned-aggregation-node.h:339-345 | appending the active (or spilled) partitions of a valid set keeps the aggregated (or spilled) queue all active (or all spilled) |
| PartitionedAggregation.AllHeldTail | be/src/exec/partitioned-aggregation-node.h:339-345 | taking the head off a queue keeps the rest of the queue valid, and the head is valid and in the queue's state |
| PartitionedAggregation.StreamedStep | be/src/exec/partitioned-aggregation-node.h:576-579 | after one more input row, every row so far is held by its partition or was passed to the output |
| PartitionedAggregation.CapacityStep | be/src/exec/partitioned-aggregation-node.h:597-600 | a capacity that drops by at least the number of groups created still accounts for them |
| PartitionedAggregation.SplitBySpilled | be/src/exec/partitioned-aggregation-node.h:57-58 | the loop splits the partitions into the active ones and the spilled ones, in order |
| PartitionedAggregation.PartitionedAggregationNode.constructor | be/src/exec/partitioned-aggregation-node.h:333-345 | a new node is valid, with an empty set, empty queues and no output partition |
| PartitionedAggregation.PartitionedAggregationNode.MinRequiredBuffers | be/src/exec/partitioned-aggregation-node.h:675-684 | 0 for a streaming pre-aggregation; otherwise 2 * PARTITION_FANOUT + 1, plus 1 when serializing, which is 33 or 34 |
| PartitionedAggregation.PartitionedAggregationNode.GetHashTable | be/src/exec/partitioned-aggregation-node.h:417-422 | the cached table is the partition's own table, and it is absent exactly when the partition is spilled |
| PartitionedAggregation.PartitionedAggregationNode.PickPartitionToSpill | be/src/exec/partitioned-aggregation-node.h:625-626 | a victim is found exactly when some partition is active; it is active and holds the most rows among the active ones |
| PartitionedAggregation.PartitionedAggregationNode.StorePartition | be/src/exec/partitioned-aggregation-node.h:336-337 | replaces one partition and refreshes its cache entry, keeping the cache consistent |
| PartitionedAggregation.PartitionedAggregationNode.AppendPartition | be/src/exec/partitioned-aggregation-node.h:333-337 | appends one partition to the set and caches its table |
| PartitionedAggregation.PartitionedAggregationNode.CreateNextPartition | be/src/exec/partitioned-aggregation-node.h:360-367 | appends a fresh partition that has a table exactly when the memory is granted; a streaming pre-aggregation denied memory fails with MemLimitExceeded and changes nothing |
| PartitionedAggregation.PartitionedAggregationNode.CreateHashPartitions | be/src/exec/partitioned-aggregation-node.h:605-607 | on success, PARTITION_FANOUT fresh partitions at the level, with the hash context at that level; a level beyond MAX_PARTITION_DEPTH is refused before anything is created: no partition, no memory request, and the hash context keeps its level |
| PartitionedAggregation.PartitionedAggregationNode.SpillPartition | be/src/exec/partitioned-aggregation-node.h:625-626 | spills the largest active partition and clears its cache entry, keeping every row; fails and changes nothing when all are spilled |
| PartitionedAggregation.PartitionedAggregationNode.StoreRow | be/src/exec/partitioned-aggregation-node.h:52-56 | the routed partition absorbs the row, the other partitions are unchanged, and the set gains exactly the row's rows |
| PartitionedAggregation.PartitionedAggregationNode.SpillUntilGranted | be/src/exec/partitioned-aggregation-node.h:538-539 | spills others until memory is granted, or else spills the target itself; keeps every row |
| PartitionedAggregation.PartitionedAggregationNode.AppendSpilledRow | be/src/exec/partitioned-aggregation-node.h:546-554 | asks for memory before appending to a spilled partition, spilling other partitions until it is granted; a first grant appends and changes nothing else; failure (MemLimitExceeded) comes only when every partition of the set is spilled, and then loses no row and leaves the target partition as it was |
| PartitionedAggregation.PartitionedAggregationNode.AddIntermediateTuple | be/src/exec/partitioned-aggregation-node.h:535-544 | on success the row is held by its partition, as a new tuple or spilled, and no row is lost; a streaming pre-aggregation fails changing nothing; otherwise it fails with MemLimitExceeded only when every partition is spilled |
| PartitionedAggregation.PartitionedAggregationNode.ProcessRow | be/src/exec/partitioned-aggregation-node.h:524-528 | the row goes to the partition its hash picks; a key already in an active table is updated in place without new memory; a spilled partition appends through AppendSpilledRow, which may spill other partitions or fail with MemLimitExceeded once every partition is spilled; on success the key is held there and the rows grow by the row's rows |
| PartitionedAggregation.PartitionedAggregationNode.ProcessBatch | be/src/exec/partitioned-aggregation-node.h:501-513 | on success every row of the batch is held by the partition it routes to, and the set gains exactly the batch's rows; it stops at the first failure, which is MemLimitExceeded, and outside streaming only with every partition spilled |
| PartitionedAggregation.PartitionedAggregationNode.ProcessStream | be/src/exec/partitioned-aggregation-node.h:556-558 | on success every row of the stream is held where it routes, and the set gains exactly the stream's rows; a failure is MemLimitExceeded with every partition spilled |
| PartitionedAggregation.PartitionedAggregationNode.MoveHashPartitions | be/src/exec/partitioned-aggregation-node.h:628-632 | empties the set: its active partitions join the aggregated queue and its spilled ones the spilled queue |
| PartitionedAggregation.PartitionedAggregationNode.ProcessSpilledPartition | be/src/exec/partitioned-aggregation-node.h:56-61 | all rows of a spilled partition, from both streams, are routed into the new set, and none is lost; the only failure is MemLimitExceeded, with every partition of the new set spilled |
| PartitionedAggregation.PartitionedAggregationNode.RepartitionInto | be/src/exec/partitioned-aggregation-node.h:158-165 | fails with MaxPartitionDepth exactly at MAX_PARTITION_DEPTH, leaving no set; otherwise builds a set of PARTITION_FANOUT partitions at level + 1 that, on success, holds all of the partition's rows, and fails only with MemLimitExceeded once all of it is spilled |
| PartitionedAggregation.PartitionedAggregationNode.RepartitionSpilled | be/src/exec/partitioned-aggregation-node.h:56-61 | repartitions the head of the spilled queue, keeping all rows and lowering the queue's weight; at MAX_PARTITION_DEPTH it fails and changes no queue; on MemLimitExceeded the queues are unchanged and the fully spilled new set is kept |
| PartitionedAggregation.PartitionedAggregationNode.NextPartition | be/src/exec/partitioned-aggregation-node.h:619-623 | takes the head of the aggregated queue when there is one; otherwise repartitions spilled partitions until one is aggregated, failing at MAX_PARTITION_DEPTH or with MemLimitExceeded once a new set is entirely spilled; only the released output partition's rows leave the node |
| PartitionedAggregation.PartitionedAggregationNode.TryAddToHashTable | be/src/exec/partitioned-aggregation-node.h:593-603 | an existing key is updated and true is returned; a new key is inserted while capacity and memory allow, decrementing the capacity; otherwise it returns false and sets the capacity to 0; it asks for memory exactly once for a new key with capacity left, and never for a found key or an exhausted capacity |
| PartitionedAggregation.PartitionedAggregationNode.StreamRow | be/src/exec/partitioned-aggregation-node.h:593-603 | an added row is held by its partition, and the capacities still account for the groups created |
| PartitionedAggregation.PartitionedAggregationNode.BatchRow | be/src/exec/partitioned-aggregation-node.h:576-579 | one more input row is held or passed on, keeping row counts and capacities accounted |
| PartitionedAggregation.PartitionedAggregationNode.ProcessBatchStreaming | be/src/exec/partitioned-aggregation-node.h:576-591 | every input row is aggregated into its partition or passed to the output; the rows held plus the rows passed on equal the rows in, and the capacities account for the groups created |
| PartitionedAggregation.PartitionedAggregationNode.LargestSpilledPartition | be/src/exec/partitioned-aggregation-node.h:614-617 | the rows over both streams of the largest spilled partition, and 0 when none is spilled |
| PartitionedAggregation.PartitionedAggregationNode.ClosePartitions | be/src/exec/partitioned-aggregation-node.h:634-637 | closes every partition of the aggregated queue, the spilled queue and the set, in that order, and empties all three |
| TestUdas.FunctionContext.TrackAllocation | be/src/testutil/test-udas.cc:71-75 | the tracked byte count grows by the bytes allocated |
| TestUdas.FunctionContext.Free | be/src/testutil/test-udas.cc:87-91 | the tracked byte count shrinks by the bytes freed |
| TestUdas.MemTestInit | be/src/testutil/test-udas.cc:67-69 | the total starts at 0 |
| TestUdas.MemTestUpdate | be/src/testutil/test-udas.cc:71-75 | a NULL input leaves the total unchanged; otherwise its bytes are added and tracked as allocated |
| TestUdas.MemTestMerge | be/src/testutil/test-udas.cc:77-85 | a NULL src leaves dst unchanged, a NULL dst becomes src, otherwise the values add up; src's bytes are tracked |
| TestUdas.MemTestResult | be/src/testutil/test-udas.cc:87-97 | the result is never NULL: 0 for a NULL total, otherwise the total |
| TestUdas.MemTestSerialize | be/src/testutil/test-udas.cc:87-91 | returns the total, or 0 when NULL, and frees the total's bytes |
| TestUdas.MemTestFinalize | be/src/testutil/test-udas.cc:93-97 | returns the total, or 0 when NULL, and frees the total's bytes |
| TestUdas.MemTestRunIsSum | be/src/testutil/test-udas.cc:64-75 | Init followed by Updates yields the sum of the non-NULL inputs |
| TestUdas.MemTestMergeAgreesWithUpdate | be/src/testutil/test-udas.cc:71-85 | merging the states of two runs equals one run over both inputs |
| TestUdas.MemTestMergeNullIdentity | be/src/testutil/test-udas.cc:77-83 | NULL is an identity of the merge |
| TestUdas.MemTestMergeCommutes | be/src/testutil/test-udas.cc:77-85 | merging two sources gives the same state in either order |
| TestUdas.MemTestSplitInvariant | be/src/testutil/test-udas.cc:64-85 | however the inputs are split into runs, merging the runs gives the run over all inputs |
| TestUdas.MemTestGroup | be/src/testutil/test-udas.cc:64-97 | a whole aggregation returns the sum of the non-NULL inputs and frees every byte it allocated |
| TestUdas.Parity | be/src/testutil/test-udas.cc:134-135 | the encoded parity is NULL exactly for an even count |
| TestUdas.ToggleNullInit | be/src/testutil/test-udas.cc:136-138 | the state starts NULL |
| TestUdas.ToggleNullUpdate | be/src/testutil/test-udas.cc:140-146 | a NULL state becomes 1 and a non-NULL state becomes NULL, whatever the input |
| TestUdas.ToggleNullMerge | be/src/testutil/test-udas.cc:148-154 | dst becomes 1 exactly when one of src and dst is non-NULL, and NULL otherwise |
| TestUdas.ToggleNullRunIsParity | be/src/testutil/test-udas.cc:134-146 | after Init and n Updates the state is NULL exactly when n is even |
| TestUdas.ToggleNullMergeIsParity | be/src/testutil/test-udas.cc:148-154 | merging the parities of m and n updates gives the parity of m + n |
| TestUdas.ToggleNullMergeAgreesWithUpdate | be/src/testutil/test-udas.cc:134-154 | merging the states of two runs equals one run over both inputs |
| TestUdas.ToggleNullSplitInvariant | be/src/testutil/test-udas.cc:134-154 | however the inputs are split into runs, merging the runs gives the run over all inputs |
| TestUdas.CountNullsInit | be/src/testutil/test-udas.cc:158-160 | the count starts at 0 |
| TestUdas.CountNullsUpdate | be/src/testutil/test-udas.cc:162-164 | the count grows by one exactly for a NULL input |
| TestUdas.CountNullsMerge | be/src/testutil/test-udas.cc:166-168 | the counts add up |
| TestUdas.CountNullsRunIsNullCount | be/src/testutil/test-udas.cc:156-164 | Init followed by Updates yields the number of NULL inputs |
| TestUdas.CountNullsMergeAgreesWithUpdate | be/src/testutil/test-udas.cc:156-168 | merging the counts of two runs equals one run over both inputs |
| TestUdas.CountNullsSplitInvariant | be/src/testutil/test-udas.cc:156-168 | however the inputs are split into runs, merging the runs gives the number of NULL inputs |
| TestUdas.ArgIsConstInit | be/src/testutil/test-udas.cc:123-125 | the state starts as whether argument 1 is constant |
| TestUdas.ArgIsConstUpdate | be/src/testutil/test-udas.cc:127-128 | an update leaves the state unchanged |
| TestUdas.ArgIsConstMerge | be/src/testutil/test-udas.cc:130-132 | dst's value becomes dst OR src, and its NULL flag is kept |
| TestUdas.ArgIsConstMergeIdempotent | be/src/testutil/test-udas.cc:130-132 | merging the same source twice is the same as merging it once |
| TestUdas.ArgIsConstMergeCommutes | be/src/testutil/test-udas.cc:130-132 | merging two sources gives the same state in either order |
| TestUdas.ArgIsConstMergeAllIsOr | be/src/testutil/test-udas.cc:121-132 | after merging any sources, the value is true exactly when dst or some source was true |
| TestUdas.AggSerializeInt | be/src/testutil/test-udas.cc:39 | AggSerialize of an IntVal returns its argument unchanged |
| TestUdas.AggFinalizeInt | be/src/testutil/test-udas.cc:40 | AggFinalize of an IntVal returns its argument unchanged |
| TestUdas.AggSerializeString | be/src/testutil/test-udas.cc:50 | AggSerialize of a StringVal returns its argument unchanged |
| TestUdas.AggFinalizeString | be/src/testutil/test-udas.cc:51 | AggFinalize of a StringVal returns its argument unchanged |
| TestUdas.AggSerializeFinalizeIdentity | be/src/testutil/test-udas.cc:39-51 | AggSerialize and AggFinalize return their argument, for IntVal and for StringVal, and so does their composition |

## Left out

- The bodies of `partitioned-aggregation-node.cc` are not part of this model. The node's behaviour follows the header's declarations, doc comments and inline bodies. Where those leave a choice open, the model makes a choice and says so below.
- LLVM code generation (`Codegen*` and the `process_batch_*_fn_` pointers) and prefetch modes are left out. They are a fast path with the same meaning as the interpreted functions.
- The buffered tuple streams, the block manager and memory pools are abstract:
  - a stream is a sequence of rows;
  - every request for memory asks the parameter `memGrant`, indexed by the number of requests made so far.
- Spill I/O errors and a failing `InitStreams` are not modelled. Because the buffers are reserved up front, `InitStreams` cannot fail in the model.
- `SerializeStreamForSpilling` is not modelled, because a tuple is abstracted to its key and row count.
- Hash table internals are left out:
  - buckets, probing, prefetching and resizing are not modelled;
  - `CheckAndResizeHashPartitions` is therefore left out;
  - the table is a map from grouping key to the position of its tuple;
  - the hash function is a parameter.
- `CleanupHashTbl` and the finalization of tuples on `Close` are left out: aggregate values are not modelled.
- The no-grouping path (`ProcessBatchNoGrouping`, `GetSingletonOutput`) is left out, and so is output row materialization:
  - `GetRowsFromPartition`, `GetRowsStreaming`, `ShouldExpandPreaggHashTables`;
  - `HandleOutputStrings`, `CopyStringData`, tuple construction.
  The streaming heuristic and raw memory layout have no abstract meaning here.
- `Reset`, runtime profile counters, `DebugString` and `QueryMaintenance` are diagnostics or lifecycle plumbing and are left out.
- The `input_rows` argument of `MoveHashPartitions` is left out, since it only feeds diagnostics.
- Every append to a spilled partition asks `memGrant` once. A grant stands for "the stream has room or obtained its I/O buffer"; the model does not tell the two apart.
- PartitionedAggregation.PartitionedAggregationNode.TryAddToHashTable: errors from the aggregate functions or from constructing the new tuple (the `status` it may set, line 600) are not modelled; aggregate values are abstracted away, so its only failure is running out of capacity or memory.
- PartitionedAggregation.PartitionedAggregationNode.AddIntermediateTuple: errors from constructing the intermediate tuple (lines 535-537) are not modelled; its only failure is MemLimitExceeded.
- PartitionedAggregation.PartitionedAggregationNode.AddIntermediateTuple: the branch where a streaming pre-aggregation is refused memory and fails with MemLimitExceeded, changing nothing, is model-only. The node never calls it when streaming, because a streaming node goes through `ProcessBatchStreaming` and passes rows on under memory pressure (lines 103-108, 576-579). The branch is kept so that the method is total over both kinds of node, and the same holds for `ProcessRow`, `ProcessBatch` and `ProcessStream`.
- PartitionedAggregation.PartitionedAggregationNode.PickPartitionToSpill: sizes a partition by its number of rows rather than by its bytes in memory.
- PartitionedAggregation.PartitionedAggregationNode.CreateHashPartitions: a streaming pre-aggregation denied memory returns with the partitions created so far. Only the error status is stated for that case.
- PartitionedAggregation.PartitionedAggregationNode.ProcessBatchStreaming: the capacity of the output batch is not modelled. The caller's obligation to make it large enough is simply met by a sequence.
- PartitionedAggregation.PartitionedAggregationNode.NextPartition:
  - its doc comment says the partition to repartition comes from `aggregated_partitions_`, but the overview at lines 56-61 says spilled partitions are the ones repartitioned; the model follows the overview;
  - the previous output partition is released (closed) on entry;
  - new spilled partitions go to the back of the spilled queue;
  - levels run from 0 to `MAX_PARTITION_DEPTH`, and a spilled partition at that level cannot be repartitioned.
- PartitionedAggregation.PartitionedAggregationNode.ClosePartitions: the `hash_tbls_` cache is left as it is, because the emptied set makes it unused.
- The partitions are values: identity and aliasing of `Partition*` pointers between the set, the queues and the output partition are not modelled.
- Repartitioning terminates, but the node does not prove that a skewed input stops below `MAX_PARTITION_DEPTH`; reaching the depth is the error path.
- `TruncSum*` is left out: it is floating-point accumulation with a double-to-int64 cast.
- The empty stub aggregates (`TwoArg*`, `VarArg*`, `AggUpdate`, `AggFn`, `AggInit`, `AggMerge`, `Agg2Update`, `AggIntermediate*`) are left out because they have no behaviour.
- `FunctionContext` is the part the functions use:
  - `IsArgConstant` answers from a given sequence;
  - `TrackAllocation`/`Free` keep a byte counter.
- TestUdas.MemTestUpdate: integers are unbounded, so 64-bit wrap-around of `BigIntVal` sums is not modelled. The same holds for TestUdas.MemTestMerge, TestUdas.CountNullsUpdate and TestUdas.CountNullsMerge.
- TestUdas.ToggleNullUpdate: the comment at `test-udas.cc` lines 134-135 speaks of non-NULL inputs, but the code toggles on every input. The model follows the code, so the parity is over all inputs.
