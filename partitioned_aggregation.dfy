/**
 * The partition state machine and buffer accounting of the partitioned hash
 * aggregation node.
 *
 * Input rows are routed by the upper bits of their hash into one of
 * PARTITION_FANOUT partitions. An active partition owns a hash table whose
 * entries are the intermediate tuples of its aggregated row stream; a spilled
 * partition has released its table and only appends rows to its streams. When
 * the input is consumed, every partition of the current set goes into exactly
 * one of two queues: aggregated (done) or spilled (to be repartitioned one level
 * deeper). The streaming pre-aggregation never spills: it stops growing its
 * tables and passes rows through instead.
 *
 * The node is a class whose containers are updated in place; a partition is a
 * value held by those containers, and its hash table is a map from grouping key
 * to the position of the key's intermediate tuple in the aggregated stream.
 *
 * Aggregate functions, the hash function, the row streams and the buffer manager
 * are outside this model. An intermediate tuple is abstracted to its grouping key
 * and the number of input rows folded into it, which is what lets the model state
 * that routing, spilling, moving and repartitioning never lose or duplicate a row.
 */
module PartitionedAggregation {

  /** Number of partitions per level. Must be a power of 2. */
  const PARTITION_FANOUT: nat := 16

  /** log2(PARTITION_FANOUT): how many upper hash bits pick the partition. */
  const NUM_PARTITIONING_BITS: nat := 4

  /** Maximum number of times rows are repartitioned, i.e. the deepest level. */
  const MAX_PARTITION_DEPTH: nat := 16

  newtype uint32 = x: int | 0 <= x < 0x1_0000_0000

  datatype Option<T> = None | Some(value: T)

  /** Outcome of an operation that can fail. */
  datatype Status = Ok | MemLimitExceeded | MaxPartitionDepth

  /** The values of the grouping expressions for one row. */
  type GroupingKey = seq<int>

  /**
   * An intermediate tuple: the grouping key and the number of input rows whose
   * aggregate values have been folded into it. A raw input row is `Group(key, 1)`.
   */
  datatype Group = Group(key: GroupingKey, rows: nat)

  function Pow2(n: nat): (r: nat)
    ensures r >= 1
  {
    if n == 0 then 1 else 2 * Pow2(n - 1)
  }

  /** The number of hash values that map to one partition: 2^(32 - NUM_PARTITIONING_BITS). */
  const PARTITION_SPAN: nat := 0x1000_0000

  lemma {:induction false} Pow2Add(a: nat, b: nat)
    ensures Pow2(a + b) == Pow2(a) * Pow2(b)
  {
    if a > 0 {
      Pow2Add(a - 1, b);
    }
  }

  /**
   * The fan-out is 2^NUM_PARTITIONING_BITS, each partition covers 2^(32 - NUM_PARTITIONING_BITS)
   * hash values, and together the partitions cover the 32-bit hash space.
   */
  lemma FanoutMatchesPartitioningBits()
    ensures PARTITION_FANOUT == Pow2(NUM_PARTITIONING_BITS)
    ensures PARTITION_SPAN == Pow2(32 - NUM_PARTITIONING_BITS)
    ensures PARTITION_FANOUT * PARTITION_SPAN == Pow2(32)
  {
    assert Pow2(7) == 128;
    Pow2Add(7, 7);
    Pow2Add(14, 14);
    Pow2Add(4, 28);
  }

  /**
   * The partition picked by a 32-bit hash: its upper NUM_PARTITIONING_BITS bits,
   * `hash >> (32 - NUM_PARTITIONING_BITS)`.
   */
  function PartitionIdx(hash: uint32): (idx: nat)
    ensures idx < PARTITION_FANOUT
    ensures idx * PARTITION_SPAN <= hash as int < (idx + 1) * PARTITION_SPAN
  {
    hash as int / PARTITION_SPAN
  }

  /**
   * The hash bits left to the hash table once the partition is picked. The
   * tables of this model are maps keyed by the grouping key itself, so no
   * operation here probes with these bits; they are stated only to show that
   * the partition index consumes the top bits and leaves the rest intact.
   */
  function TableBits(hash: uint32): (low: nat)
    ensures low < PARTITION_SPAN
  {
    hash as int % PARTITION_SPAN
  }

  /**
   * The partition bits and the table bits together are the whole hash: no hash is
   * recomputed between picking the partition and probing its table, and two
   * hashes that agree on both parts are the same hash. (The map-based tables of
   * this model do not use the table bits.)
   */
  lemma HashSplitsIntoPartitionAndTableBits(h1: uint32, h2: uint32)
    ensures h1 as int == PartitionIdx(h1) * PARTITION_SPAN + TableBits(h1)
    ensures PartitionIdx(h1) == PartitionIdx(h2) && TableBits(h1) == TableBits(h2) ==> h1 == h2
  {
  }

  /** The raw rows of an unaggregated stream, as single-row groups. */
  function RawRows(keys: seq<GroupingKey>): (r: seq<Group>)
    ensures |r| == |keys|
    ensures forall i | 0 <= i < |keys| :: r[i] == Group(keys[i], 1)
  {
    seq(|keys|, i requires 0 <= i < |keys| => Group(keys[i], 1))
  }

  /** Total number of input rows represented by a stream of intermediate tuples. */
  function StreamRows(s: seq<Group>): nat
  {
    if s == [] then 0 else StreamRows(s[..|s| - 1]) + s[|s| - 1].rows
  }

  lemma StreamRowsAppend(s: seq<Group>, g: Group)
    ensures StreamRows(s + [g]) == StreamRows(s) + g.rows
  {
    assert (s + [g])[..|s|] == s;
  }

  lemma StreamRowsStep(s: seq<Group>, i: nat)
    requires i < |s|
    ensures StreamRows(s[..i + 1]) == StreamRows(s[..i]) + s[i].rows
  {
    assert s[..i + 1][..i] == s[..i];
  }

  lemma PrefixConcat(s: seq<Group>, i: nat, j: nat)
    requires i <= j <= |s|
    ensures s[..i] + s[i..j] == s[..j]
  {
  }

  /** Folding more rows into one tuple of a stream adds exactly those rows to the stream's total. */
  lemma {:induction false} StreamRowsUpdate(s: seq<Group>, i: nat, g: Group)
    requires i < |s|
    ensures StreamRows(s[i := g]) + s[i].rows == StreamRows(s) + g.rows
  {
    var n := |s| - 1;
    if i < n {
      assert s[i := g][..n] == s[..n][i := g];
      StreamRowsUpdate(s[..n], i, g);
    } else {
      assert s[i := g][..n] == s[..n];
    }
  }

  lemma {:induction false} RawRowsCount(keys: seq<GroupingKey>)
    ensures StreamRows(RawRows(keys)) == |keys|
  {
    if keys != [] {
      var n := |keys| - 1;
      assert RawRows(keys)[..n] == RawRows(keys[..n]);
      RawRowsCount(keys[..n]);
    }
  }

  /**
   * The hash table of an active partition is a directory over the partition's
   * aggregated row stream: every key in the table points at the one tuple of the
   * stream holding that key, and every tuple of the stream is in the table.
   */
  ghost predicate IndexesStream(buckets: map<GroupingKey, nat>, stream: seq<Group>)
  {
    && (forall k | k in buckets :: buckets[k] < |stream| && stream[buckets[k]].key == k)
    && (forall i | 0 <= i < |stream| :: stream[i].key in buckets && buckets[stream[i].key] == i)
  }

  /** Number of input rows folded into the tuples of two consecutive stream pieces. */
  lemma {:induction false} StreamRowsConcat(s: seq<Group>, t: seq<Group>)
    ensures StreamRows(s + t) == StreamRows(s) + StreamRows(t)
  {
    if t == [] {
      assert s + t == s;
    } else {
      var n := |t| - 1;
      assert s + t == (s + t[..n]) + [t[n]] && t == t[..n] + [t[n]];
      StreamRowsAppend(s + t[..n], t[n]);
      StreamRowsAppend(t[..n], t[n]);
      StreamRowsConcat(s, t[..n]);
    }
  }

  /** The grouping keys of the tuples of a stream. */
  ghost function StreamKeys(s: seq<Group>): set<GroupingKey>
  {
    set g | g in s :: g.key
  }

  /** The table of a partition: the position of each grouping key's tuple in its aggregated stream. */
  type HashTable = map<GroupingKey, nat>

  /**
   * One partition: its level, the hash table (absent once spilled) and its two
   * streams. A streaming pre-aggregation has no unaggregated stream.
   */
  datatype Partition = Partition(
    level: nat,
    isClosed: bool,
    hashTbl: Option<HashTable>,
    aggregatedRowStream: seq<Group>,
    unaggregatedRowStream: Option<seq<GroupingKey>>)
  {
    /**
     * A partition is spilled exactly when it has no hash table; with no table
     * there is nothing to fall out of step with its stream.
     */
    predicate IsSpilled(): (r: bool)
      ensures r <==> hashTbl.None?
      ensures r ==> Valid()
    {
      hashTbl.None?
    }

    /** While the partition holds a table, the table indexes its aggregated stream. */
    ghost predicate Valid()
    {
      hashTbl.Some? ==> IndexesStream(hashTbl.value, aggregatedRowStream)
    }

    /** Number of input rows held by the partition, in its two streams. */
    function Rows(): nat
    {
      StreamRows(aggregatedRowStream)
        + (if unaggregatedRowStream.Some? then |unaggregatedRowStream.value| else 0)
    }

    /** The grouping keys of all rows held by the partition. */
    ghost function Keys(): set<GroupingKey>
    {
      StreamKeys(aggregatedRowStream)
        + (if unaggregatedRowStream.Some? then set k | k in unaggregatedRowStream.value else {})
    }

    /** Number of rows written to the two streams: tuples of the aggregated one and raw rows of the other. */
    function StreamedRows(): nat
    {
      |aggregatedRowStream| + (if unaggregatedRowStream.Some? then |unaggregatedRowStream.value| else 0)
    }

    /** Number of groups in the hash table; a spilled partition has none in memory. */
    function Groups(): nat
    {
      if hashTbl.Some? then |hashTbl.value| else 0
    }

    /**
     * Creates the streams, both empty; only a spilling aggregation gets an
     * unaggregated stream.
     */
    function InitStreams(streaming: bool): (q: Partition)
      ensures q.Rows() == 0 && q.Keys() == {}
      ensures q.unaggregatedRowStream.None? <==> streaming
      ensures q.level == level && q.isClosed == isClosed && q.hashTbl == hashTbl
    {
      this.(aggregatedRowStream := [], unaggregatedRowStream := if streaming then None else Some([]))
    }

    /**
     * Creates an empty hash table when the buffer manager grants the memory for
     * it; without it the partition stays without a table, i.e. spilled.
     */
    function InitHashTable(granted: bool): (q: Partition)
      requires hashTbl.None? && aggregatedRowStream == []
      ensures q.Valid()
      ensures q.IsSpilled() <==> !granted
      ensures !q.IsSpilled() ==> q.hashTbl.value == map[]
      ensures q.Rows() == Rows() && q.Keys() == Keys()
      ensures q.level == level && q.isClosed == isClosed && q.unaggregatedRowStream == unaggregatedRowStream
    {
      if granted then this.(hashTbl := Some(map[])) else this
    }

    /**
     * Releases the hash table. The tuples stay in the aggregated stream, so the
     * partition keeps its rows, its keys and its level.
     */
    function Spill(): (q: Partition)
      ensures q.IsSpilled() && q.Valid()
      ensures q.Rows() == Rows() && q.Keys() == Keys()
      ensures q.level == level && q.isClosed == isClosed
      ensures q.unaggregatedRowStream == unaggregatedRowStream
    {
      this.(hashTbl := None)
    }

    function Close(): (q: Partition)
      ensures q.isClosed
      ensures q.Rows() == Rows() && q.level == level && q.IsSpilled() == IsSpilled()
    {
      this.(isClosed := true)
    }

    /**
     * Appends a row to a spilled partition: an intermediate tuple to the
     * aggregated stream, a raw input row (a single row) to the unaggregated one.
     */
    function AppendSpilledRow(row: Group, aggregated: bool): (q: Partition)
      requires IsSpilled()
      requires !aggregated ==> unaggregatedRowStream.Some? && row.rows == 1
      ensures q.IsSpilled() && q.Valid()
      ensures q.Rows() == Rows() + row.rows
      ensures q.Keys() == Keys() + {row.key}
      ensures q.level == level && q.isClosed == isClosed
      ensures q.unaggregatedRowStream.Some? == unaggregatedRowStream.Some?
    {
      StreamRowsAppend(aggregatedRowStream, row);
      if aggregated then
        assert StreamKeys(aggregatedRowStream + [row]) == StreamKeys(aggregatedRowStream) + {row.key};
        this.(aggregatedRowStream := aggregatedRowStream + [row])
      else
        var u := unaggregatedRowStream.value;
        assert (set k | k in u + [row.key]) == (set k | k in u) + {row.key};
        this.(unaggregatedRowStream := Some(u + [row.key]))
    }

    /**
     * Adds a new intermediate tuple, initialised from `row`, to an active
     * partition whose table does not hold the row's key yet.
     */
    function AddTuple(row: Group): (q: Partition)
      requires Valid() && hashTbl.Some? && row.key !in hashTbl.value
      ensures q.Valid() && q.hashTbl.Some?
      ensures q.hashTbl.value.Keys == hashTbl.value.Keys + {row.key}
      ensures q.Rows() == Rows() + row.rows
      ensures q.Keys() == Keys() + {row.key}
      ensures q.level == level && q.isClosed == isClosed && q.unaggregatedRowStream == unaggregatedRowStream
    {
      var s, t := aggregatedRowStream, hashTbl.value;
      StreamRowsAppend(s, row);
      AddTupleKeepsIndex(t, s, row);
      assert StreamKeys(s + [row]) == StreamKeys(s) + {row.key};
      this.(aggregatedRowStream := s + [row], hashTbl := Some(t[row.key := |s|]))
    }

    /**
     * Folds `row` into the intermediate tuple the table holds for its key: the
     * tuple now accounts for the row, and the table and the keys are unchanged.
     */
    function UpdateTuple(row: Group): (q: Partition)
      requires Valid() && hashTbl.Some? && row.key in hashTbl.value
      ensures q.Valid() && q.hashTbl == hashTbl
      ensures q.Rows() == Rows() + row.rows
      ensures q.Keys() == Keys()
      ensures q.level == level && q.isClosed == isClosed && q.unaggregatedRowStream == unaggregatedRowStream
    {
      var s, b := aggregatedRowStream, hashTbl.value[row.key];
      var g := Group(row.key, s[b].rows + row.rows);
      StreamRowsUpdate(s, b, g);
      assert StreamKeys(s[b := g]) == StreamKeys(s) by {
        forall k | k in StreamKeys(s) ensures k in StreamKeys(s[b := g]) {
          var i :| 0 <= i < |s| && s[i].key == k;
          assert s[b := g][i].key == k;
        }
      }
      this.(aggregatedRowStream := s[b := g])
    }

    /**
     * Takes one row in, without asking for memory: a spilled partition appends
     * it, an active one folds it into the key's tuple or, for a new key,
     * creates that tuple. Either way the partition now accounts for the row and
     * its key.
     */
    function Absorb(row: Group, aggregated: bool): (q: Partition)
      requires Valid()
      requires IsSpilled() && !aggregated ==> unaggregatedRowStream.Some? && row.rows == 1
      ensures q.Valid() && q.IsSpilled() == IsSpilled()
      ensures q.Rows() == Rows() + row.rows
      ensures q.Keys() == Keys() + {row.key}
      ensures !IsSpilled() ==> q.Groups() == Groups() + (if row.key in hashTbl.value then 0 else 1)
      ensures q.level == level && q.isClosed == isClosed
      ensures q.unaggregatedRowStream.Some? == unaggregatedRowStream.Some?
    {
      if IsSpilled() then AppendSpilledRow(row, aggregated)
      else if row.key in hashTbl.value then
        assert row.key in Keys() by {
          assert aggregatedRowStream[hashTbl.value[row.key]].key == row.key;
        }
        UpdateTuple(row)
      else AddTuple(row)
    }
  }

  /** Adding a tuple for a new key at the end of the stream keeps the table an index of the stream. */
  lemma AddTupleKeepsIndex(t: HashTable, s: seq<Group>, row: Group)
    requires IndexesStream(t, s) && row.key !in t
    ensures IndexesStream(t[row.key := |s|], s + [row])
  {
    var t', s' := t[row.key := |s|], s + [row];
    forall i | 0 <= i < |s'| ensures s'[i].key in t' && t'[s'[i].key] == i {
      if i < |s| {
        assert s'[i] == s[i];
      }
    }
  }

  /** A partition just constructed at `level`: open, with neither streams nor table. */
  function NewPartition(level: nat): (p: Partition)
    ensures p.level == level && !p.isClosed && p.IsSpilled() && p.aggregatedRowStream == []
    ensures p.unaggregatedRowStream.None? && p.Rows() == 0 && p.Keys() == {}
  {
    Partition(level, false, None, [], None)
  }

  /**
   * A partition as the node creates it for a new set at `level`: streams for
   * the kind of aggregation, and a table when the memory for it is granted.
   */
  function FreshPartition(level: nat, streaming: bool, granted: bool): (p: Partition)
    ensures p.level == level && !p.isClosed && p.Valid() && p.Rows() == 0 && p.Keys() == {}
    ensures p.IsSpilled() <==> !granted
    ensures p.unaggregatedRowStream.None? <==> streaming
  {
    NewPartition(level).InitStreams(streaming).InitHashTable(granted)
  }

  /**
   * The first `n` partitions of a new set at `level`, the one at position i
   * created with the answer `grant(base + i)` of the buffer manager.
   */
  ghost function FreshPartitions(level: nat, streaming: bool, grant: nat -> bool, base: nat, n: nat): (fs: seq<Partition>)
    ensures |fs| == n
  {
    seq(n, i requires 0 <= i < n => FreshPartition(level, streaming, grant(base + i)))
  }

  /** A new set grows one partition at a time, each with the next answer of the buffer manager. */
  lemma FreshPartitionsNext(level: nat, streaming: bool, grant: nat -> bool, base: nat, n: nat)
    ensures FreshPartitions(level, streaming, grant, base, n + 1)
            == FreshPartitions(level, streaming, grant, base, n) + [FreshPartition(level, streaming, grant(base + n))]
  {
    var fs, prev := FreshPartitions(level, streaming, grant, base, n + 1), FreshPartitions(level, streaming, grant, base, n);
    assert forall i | 0 <= i < n :: fs[i] == prev[i];
  }

  /** A new set holds no rows. */
  lemma {:induction false} FreshPartitionsFacts(level: nat, streaming: bool, grant: nat -> bool, base: nat, n: nat)
    ensures TotalRows(FreshPartitions(level, streaming, grant, base, n)) == 0
  {
    if n > 0 {
      var prev, p := FreshPartitions(level, streaming, grant, base, n - 1), FreshPartition(level, streaming, grant(base + n - 1));
      FreshPartitionsFacts(level, streaming, grant, base, n - 1);
      FreshPartitionsNext(level, streaming, grant, base, n - 1);
      assert (prev + [p])[..n - 1] == prev;
    }
  }

  /**
   * What holds of every partition the node holds, in any container: it is open
   * and well formed, at most MAX_PARTITION_DEPTH deep, it has an unaggregated
   * stream exactly when the aggregation may spill, and a streaming
   * pre-aggregation never holds a spilled partition.
   */
  ghost predicate Held(p: Partition, streaming: bool)
  {
    && !p.isClosed && p.Valid() && p.level <= MAX_PARTITION_DEPTH
    && (p.unaggregatedRowStream.None? <==> streaming)
    && (streaming ==> !p.IsSpilled())
  }

  /** Number of input rows held by a sequence of partitions. */
  function TotalRows(ps: seq<Partition>): nat
  {
    if ps == [] then 0 else TotalRows(ps[..|ps| - 1]) + ps[|ps| - 1].Rows()
  }

  lemma {:induction false} TotalRowsAppend(ps: seq<Partition>, qs: seq<Partition>)
    ensures TotalRows(ps + qs) == TotalRows(ps) + TotalRows(qs)
  {
    if qs == [] {
      assert ps + qs == ps;
    } else {
      var n := |qs| - 1;
      assert (ps + qs)[..|ps + qs| - 1] == ps + qs[..n];
      TotalRowsAppend(ps, qs[..n]);
    }
  }

  /** The first partition of a queue and the rest hold all of the queue's rows. */
  lemma TotalRowsOfFirst(ps: seq<Partition>)
    requires ps != []
    ensures TotalRows(ps) == ps[0].Rows() + TotalRows(ps[1..])
  {
    assert ps == [ps[0]] + ps[1..];
    TotalRowsAppend([ps[0]], ps[1..]);
    assert [ps[0]][..0] == [];
  }

  /** Changing one partition changes the total by exactly that partition's change. */
  lemma {:induction false} TotalRowsOneChanged(ps: seq<Partition>, qs: seq<Partition>, i: nat)
    requires |ps| == |qs| && i < |ps|
    requires forall j | 0 <= j < |ps| && j != i :: qs[j].Rows() == ps[j].Rows()
    ensures TotalRows(qs) + ps[i].Rows() == TotalRows(ps) + qs[i].Rows()
  {
    var n := |ps| - 1;
    if n == i {
      TotalRowsSame(ps[..n], qs[..n]);
    } else {
      TotalRowsOneChanged(ps[..n], qs[..n], i);
    }
  }

  /** Sequences whose partitions hold the same numbers of rows hold the same total. */
  lemma {:induction false} TotalRowsSame(ps: seq<Partition>, qs: seq<Partition>)
    requires |ps| == |qs|
    requires forall j | 0 <= j < |ps| :: qs[j].Rows() == ps[j].Rows()
    ensures TotalRows(qs) == TotalRows(ps)
  {
    if ps != [] {
      TotalRowsSame(ps[..|ps| - 1], qs[..|qs| - 1]);
    }
  }

  /** The partitions of `ps` whose spilled flag is `spilled`, in order. */
  function Select(ps: seq<Partition>, spilled: bool): seq<Partition>
  {
    if ps == [] then []
    else
      var n := |ps| - 1;
      Select(ps[..n], spilled) + (if ps[n].IsSpilled() == spilled then [ps[n]] else [])
  }

  /** Selecting keeps exactly the partitions whose flag matches. */
  lemma {:induction false} SelectMembers(ps: seq<Partition>, spilled: bool)
    ensures forall p :: p in Select(ps, spilled) <==> p in ps && p.IsSpilled() == spilled
  {
    if ps != [] {
      var n := |ps| - 1;
      SelectMembers(ps[..n], spilled);
      assert ps == ps[..n] + [ps[n]];
    }
  }

  /**
   * Selecting by both values of the flag sends every partition to exactly one
   * side: the two sides together are a rearrangement of the sequence.
   */
  lemma {:induction false} SelectIsPermutation(ps: seq<Partition>)
    ensures multiset(Select(ps, false)) + multiset(Select(ps, true)) == multiset(ps)
  {
    if ps != [] {
      var n := |ps| - 1;
      assert ps == ps[..n] + [ps[n]];
      SelectIsPermutation(ps[..n]);
    }
  }

  /** Selecting by both values of the flag neither loses nor duplicates rows. */
  lemma {:induction false} SelectKeepsRows(ps: seq<Partition>)
    ensures TotalRows(Select(ps, false)) + TotalRows(Select(ps, true)) == TotalRows(ps)
  {
    if ps != [] {
      var n := |ps| - 1;
      var w := ps[n].IsSpilled();
      SelectKeepsRows(ps[..n]);
      assert Select(ps, w) == Select(ps[..n], w) + [ps[n]];
      assert Select(ps, !w) == Select(ps[..n], !w);
      TotalRowsAppend(Select(ps[..n], w), [ps[n]]);
      assert [ps[n]][..0] == [];
    }
  }

  /** Spilling one active partition leaves exactly one active partition fewer. */
  lemma {:induction false} SpillShrinksActive(ps: seq<Partition>, v: nat)
    requires v < |ps| && !ps[v].IsSpilled()
    ensures |Select(ps[v := ps[v].Spill()], false)| + 1 == |Select(ps, false)|
  {
    var n := |ps| - 1;
    var qs := ps[v := ps[v].Spill()];
    assert qs[..n] == if v < n then ps[..n][v := ps[v].Spill()] else ps[..n];
    if v < n {
      SpillShrinksActive(ps[..n], v);
    }
  }

  /** `n` copies of `w` added up; kept recursive so the weight proofs stay linear. */
  ghost function Times(n: nat, w: nat): nat
  {
    if n == 0 then 0 else Times(n - 1, w) + w
  }

  lemma {:induction false} TimesAtMost(a: nat, b: nat, w: nat)
    requires a <= b
    ensures Times(a, w) <= b * w
  {
    if a > 0 {
      TimesAtMost(a - 1, b - 1, w);
    }
  }

  /**
   * Weight of a spilled partition for the repartitioning loop: a partition at
   * level L weighs (PARTITION_FANOUT + 1) times one at level L + 1, so replacing
   * it by at most PARTITION_FANOUT partitions one level deeper lowers the total.
   */
  ghost function RepartitionWeight(level: nat): (w: nat)
    ensures w >= 1
    decreases MAX_PARTITION_DEPTH + 1 - level
  {
    if level > MAX_PARTITION_DEPTH then 1 else (PARTITION_FANOUT + 1) * RepartitionWeight(level + 1)
  }

  ghost function Weight(ps: seq<Partition>): nat
  {
    if ps == [] then 0 else Weight(ps[..|ps| - 1]) + RepartitionWeight(ps[|ps| - 1].level)
  }

  lemma {:induction false} WeightAppend(ps: seq<Partition>, qs: seq<Partition>)
    ensures Weight(ps + qs) == Weight(ps) + Weight(qs)
  {
    if qs == [] {
      assert ps + qs == ps;
    } else {
      var n := |qs| - 1;
      assert (ps + qs)[..|ps + qs| - 1] == ps + qs[..n];
      WeightAppend(ps, qs[..n]);
    }
  }

  /** Partitions that are all at one level weigh their number times that level's weight. */
  lemma {:induction false} WeightOfOneLevel(ps: seq<Partition>, level: nat)
    requires forall p | p in ps :: p.level == level
    ensures Weight(ps) == Times(|ps|, RepartitionWeight(level))
  {
    if ps != [] {
      var n := |ps| - 1;
      assert ps[n] in ps;
      assert forall p | p in ps[..n] :: p in ps;
      WeightOfOneLevel(ps[..n], level);
    }
  }

  lemma WeightOfFirst(ps: seq<Partition>)
    requires ps != []
    ensures Weight(ps) == RepartitionWeight(ps[0].level) + Weight(ps[1..])
  {
    assert ps == [ps[0]] + ps[1..];
    WeightAppend([ps[0]], ps[1..]);
    assert [ps[0]][..0] == [];
  }

  /** Dropping some partitions of a sequence does not add weight. */
  lemma {:induction false} WeightOfSelect(ps: seq<Partition>, spilled: bool)
    ensures Weight(Select(ps, spilled)) <= Weight(ps)
  {
    if ps != [] {
      var n := |ps| - 1;
      WeightOfSelect(ps[..n], spilled);
      if ps[n].IsSpilled() == spilled {
        WeightAppend(Select(ps[..n], spilled), [ps[n]]);
        assert [ps[n]][..0] == [];
      } else {
        assert Select(ps, spilled) == Select(ps[..n], spilled);
      }
    }
  }

  /**
   * One repartitioning step: the first spilled partition (level L) is replaced by
   * the spilled ones among at most PARTITION_FANOUT new partitions at level L + 1.
   * The queue's weight strictly decreases, so output preparation terminates.
   */
  lemma RepartitionLowersWeight(queue: seq<Partition>, created: seq<Partition>)
    requires queue != [] && |created| <= PARTITION_FANOUT
    requires queue[0].level <= MAX_PARTITION_DEPTH
    requires forall i | 0 <= i < |created| :: created[i].level == queue[0].level + 1
    ensures Weight(queue[1..] + Select(created, true)) < Weight(queue)
  {
    var rest, spilled := queue[1..], Select(created, true);
    var w, top := RepartitionWeight(queue[0].level + 1), RepartitionWeight(queue[0].level);
    assert Weight(queue) == top + Weight(rest) by { WeightOfFirst(queue); }
    assert top == 17 * w by { RepartitionWeightStep(queue[0].level); }
    assert Weight(rest + spilled) == Weight(rest) + Weight(spilled) by { WeightAppend(rest, spilled); }
    assert Weight(spilled) <= 16 * w by { CreatedWeight(created, queue[0].level + 1); }
    WeightDrop(Weight(queue), Weight(rest), Weight(spilled), top, w);
  }

  /** The arithmetic of one repartitioning step, kept apart from the weights it is about. */
  lemma WeightDrop(total: int, kept: int, moved: int, top: int, w: int)
    requires total == top + kept && top == 17 * w && moved <= 16 * w && w >= 1
    ensures kept + moved < total
  {
  }

  /** The spilled ones among at most PARTITION_FANOUT partitions at one level weigh at most that many. */
  lemma CreatedWeight(created: seq<Partition>, level: nat)
    requires |created| <= PARTITION_FANOUT
    requires forall i | 0 <= i < |created| :: created[i].level == level
    ensures Weight(Select(created, true)) <= PARTITION_FANOUT * RepartitionWeight(level)
  {
    WeightOfSelect(created, true);
    assert forall p | p in created :: p.level == level;
    WeightOfOneLevel(created, level);
    TimesAtMost(|created|, PARTITION_FANOUT, RepartitionWeight(level));
  }

  /** A partition weighs PARTITION_FANOUT + 1 partitions one level deeper. */
  lemma RepartitionWeightStep(level: nat)
    requires level <= MAX_PARTITION_DEPTH
    ensures RepartitionWeight(level) == (PARTITION_FANOUT + 1) * RepartitionWeight(level + 1)
  {
  }

  /** Number of rows the node reads from a stream at a time. */
  const BATCH_SIZE: nat := 1024

  /**
   * `after` is `before` after rows were added and partitions possibly spilled:
   * each partition keeps its level, its rows and its keys, and a spilled
   * partition never becomes active again.
   */
  ghost predicate Progressed(before: seq<Partition>, after: seq<Partition>)
  {
    && |after| == |before|
    && forall i | 0 <= i < |before| ::
         && after[i].level == before[i].level
         && before[i].Rows() <= after[i].Rows()
         && before[i].Keys() <= after[i].Keys()
         && (before[i].IsSpilled() ==> after[i].IsSpilled())
  }

  lemma ProgressedUpdate(a: seq<Partition>, b: seq<Partition>, idx: nat, q: Partition)
    requires Progressed(a, b) && idx < |b|
    requires q.level == b[idx].level && b[idx].Rows() <= q.Rows() && b[idx].Keys() <= q.Keys()
    requires b[idx].IsSpilled() ==> q.IsSpilled()
    ensures Progressed(a, b[idx := q])
  {
  }

  /** Absorbing a row into one partition of a set is progress that adds that row's count. */
  lemma AbsorbProgresses(ps: seq<Partition>, idx: nat, row: Group, aggregated: bool)
    requires idx < |ps| && ps[idx].Valid()
    requires ps[idx].IsSpilled() && !aggregated ==> ps[idx].unaggregatedRowStream.Some? && row.rows == 1
    ensures Progressed(ps, ps[idx := ps[idx].Absorb(row, aggregated)])
    ensures TotalRows(ps[idx := ps[idx].Absorb(row, aggregated)]) == TotalRows(ps) + row.rows
  {
    var q := ps[idx].Absorb(row, aggregated);
    TotalRowsOneChanged(ps, ps[idx := q], idx);
    assert Progressed(ps, ps);
    ProgressedUpdate(ps, ps, idx, q);
  }

  /**
   * Absorbing a row into the partition of a well-formed set that its key
   * routes to yields a partition that may replace the old one.
   */
  lemma AbsorbIntoSet(hash: (GroupingKey, nat) -> uint32, streaming: bool, hs: seq<Partition>, level: nat,
                      tbls: seq<Option<HashTable>>, idx: nat, row: Group, aggregated: bool)
    requires SetOk(hash, streaming, hs, level, tbls) && idx < |hs| && PartitionIdx(hash(row.key, level)) == idx
    requires !aggregated ==> row.rows == 1
    ensures hs[idx].Valid() && (hs[idx].IsSpilled() && !aggregated ==> hs[idx].unaggregatedRowStream.Some?)
    ensures Held(hs[idx].Absorb(row, aggregated), streaming) && hs[idx].Absorb(row, aggregated).level == level
    ensures forall k | k in hs[idx].Absorb(row, aggregated).Keys() ::
              k in hs[idx].Keys() || PartitionIdx(hash(k, level)) == idx
    ensures Progressed(hs, hs[idx := hs[idx].Absorb(row, aggregated)])
    ensures OthersAtMostSpilled(hs, hs[idx := hs[idx].Absorb(row, aggregated)], idx)
    ensures TotalRows(hs[idx := hs[idx].Absorb(row, aggregated)]) == TotalRows(hs) + row.rows
  {
    assert Held(hs[idx], streaming);
    AbsorbProgresses(hs, idx, row, aggregated);
  }

  lemma ProgressedTrans(a: seq<Partition>, b: seq<Partition>, c: seq<Partition>)
    requires Progressed(a, b) && Progressed(b, c)
    ensures Progressed(a, c)
  {
  }

  /** Every key held by partition i of `hs` routes to partition i at `level`. */
  ghost predicate Routed(hash: (GroupingKey, nat) -> uint32, hs: seq<Partition>, level: nat)
  {
    forall i, k | 0 <= i < |hs| && k in hs[i].Keys() :: PartitionIdx(hash(k, level)) == i
  }

  /**
   * What holds of the current partition set: at most PARTITION_FANOUT
   * partitions, all held and at the level the hash context hashes for, whose
   * tables the cache `tbls` mirrors and whose keys all route to them.
   */
  ghost predicate SetOk(hash: (GroupingKey, nat) -> uint32, streaming: bool, hs: seq<Partition>, level: nat,
                        tbls: seq<Option<HashTable>>)
  {
    && |hs| <= PARTITION_FANOUT && |tbls| == PARTITION_FANOUT
    && (forall i | 0 <= i < |hs| :: Held(hs[i], streaming) && hs[i].level == level && tbls[i] == hs[i].hashTbl)
    && Routed(hash, hs, level)
  }

  /**
   * Replacing one partition of the set by a held partition at the same level
   * whose new keys route to it keeps the set well formed, with the cache entry
   * following the table.
   */
  lemma SetOkUpdate(hash: (GroupingKey, nat) -> uint32, streaming: bool, hs: seq<Partition>, level: nat,
                    tbls: seq<Option<HashTable>>, idx: nat, q: Partition)
    requires SetOk(hash, streaming, hs, level, tbls) && idx < |hs|
    requires Held(q, streaming) && q.level == level
    requires forall k | k in q.Keys() :: k in hs[idx].Keys() || PartitionIdx(hash(k, level)) == idx
    ensures SetOk(hash, streaming, hs[idx := q], level, tbls[idx := q.hashTbl])
    ensures q.hashTbl == hs[idx].hashTbl ==> SetOk(hash, streaming, hs[idx := q], level, tbls)
  {
    assert q.hashTbl == hs[idx].hashTbl ==> tbls[idx := q.hashTbl] == tbls;
  }

  /** Appending a held partition without rows at the set's level keeps the set well formed. */
  lemma SetOkAppend(hash: (GroupingKey, nat) -> uint32, streaming: bool, hs: seq<Partition>, level: nat,
                    tbls: seq<Option<HashTable>>, p: Partition)
    requires SetOk(hash, streaming, hs, level, tbls) && |hs| < PARTITION_FANOUT
    requires Held(p, streaming) && p.level == level && p.Keys() == {}
    ensures SetOk(hash, streaming, hs + [p], level, tbls[|hs| := p.hashTbl])
  {
    var hs', tbls' := hs + [p], tbls[|hs| := p.hashTbl];
    forall i | 0 <= i < |hs'| ensures Held(hs'[i], streaming) && hs'[i].level == level && tbls'[i] == hs'[i].hashTbl {
      if i < |hs| {
        assert hs'[i] == hs[i];
      }
    }
    forall i, k | 0 <= i < |hs'| && k in hs'[i].Keys() ensures PartitionIdx(hash(k, level)) == i {
      assert i < |hs| && hs'[i] == hs[i];
    }
  }

  /** Every partition of `after` but the one at `idx` is the one of `before`, or that one spilled. */
  ghost predicate OthersAtMostSpilled(before: seq<Partition>, after: seq<Partition>, idx: nat)
  {
    && |after| == |before|
    && forall i | 0 <= i < |before| && i != idx :: after[i] == before[i] || after[i] == before[i].Spill()
  }

  /** Two steps that each change partitions other than `idx` only by spilling them make one such step. */
  lemma OthersAtMostSpilledTrans(a: seq<Partition>, b: seq<Partition>, c: seq<Partition>, idx: nat)
    requires OthersAtMostSpilled(a, b, idx) && OthersAtMostSpilled(b, c, idx)
    ensures OthersAtMostSpilled(a, c, idx)
  {
  }

  /** No partition of the set is active: there is nothing left to spill. */
  ghost predicate NoneActive(ps: seq<Partition>)
  {
    forall i | 0 <= i < |ps| :: ps[i].IsSpilled()
  }

  /** Spilling another active partition keeps `after` within what OthersAtMostSpilled allows. */
  lemma OthersAfterSpill(before: seq<Partition>, after: seq<Partition>, idx: nat, v: nat)
    requires OthersAtMostSpilled(before, after, idx) && v < |after| && !after[v].IsSpilled()
    ensures OthersAtMostSpilled(before, after[v := after[v].Spill()], idx)
  {
  }

  /** A set in which only spills happened, other than at `idx`, has progressed. */
  lemma AtMostSpilledProgressed(before: seq<Partition>, after: seq<Partition>, idx: nat)
    requires OthersAtMostSpilled(before, after, idx) && idx < |after|
    requires after[idx] == before[idx] || after[idx] == before[idx].Spill()
    ensures Progressed(before, after)
  {
  }

  /**
   * Storing into partition `idx` after spilling others (and possibly `idx`
   * itself) is progress that changes the other partitions only by spilling.
   */
  lemma StoreAfterSpills(before: seq<Partition>, mid: seq<Partition>, idx: nat, q: Partition)
    requires OthersAtMostSpilled(before, mid, idx) && idx < |mid|
    requires mid[idx] == before[idx] || mid[idx] == before[idx].Spill()
    requires Progressed(mid, mid[idx := q])
    ensures Progressed(before, mid[idx := q]) && OthersAtMostSpilled(before, mid[idx := q], idx)
  {
    AtMostSpilledProgressed(before, mid, idx);
    ProgressedTrans(before, mid, mid[idx := q]);
  }

  /** Partition `hs[i]`, where i is the partition `key` routes to at `level`, holds `key`. */
  ghost predicate HeldWhereRouted(hash: (GroupingKey, nat) -> uint32, hs: seq<Partition>, level: nat, key: GroupingKey)
  {
    PartitionIdx(hash(key, level)) < |hs| && key in hs[PartitionIdx(hash(key, level))].Keys()
  }

  /** Every row of `rows` has its key held by the partition of `hs` it routes to at `level`. */
  ghost predicate Absorbed(hash: (GroupingKey, nat) -> uint32, hs: seq<Partition>, level: nat, rows: seq<Group>)
  {
    forall j | 0 <= j < |rows| :: HeldWhereRouted(hash, hs, level, rows[j].key)
  }

  /** Absorbing the next row of `rows` extends the absorbed prefix by one. */
  lemma AbsorbedStep(hash: (GroupingKey, nat) -> uint32, hs: seq<Partition>, level: nat, rows: seq<Group>, i: nat)
    requires i < |rows| && Absorbed(hash, hs, level, rows[..i])
    requires HeldWhereRouted(hash, hs, level, rows[i].key)
    ensures Absorbed(hash, hs, level, rows[..i + 1])
  {
    forall j | 0 <= j < i
      ensures HeldWhereRouted(hash, hs, level, rows[j].key)
    {
      assert rows[j] == rows[..i][j];
    }
  }

  /** Absorbing the next slice of `rows` extends the absorbed prefix by the slice. */
  lemma StreamBatchStep(hash: (GroupingKey, nat) -> uint32, hs: seq<Partition>, level: nat, rows: seq<Group>, i: nat, j: nat)
    requires i <= j <= |rows|
    requires Absorbed(hash, hs, level, rows[..i]) && Absorbed(hash, hs, level, rows[i..j])
    ensures Absorbed(hash, hs, level, rows[..j])
    ensures StreamRows(rows[..j]) == StreamRows(rows[..i]) + StreamRows(rows[i..j])
  {
    PrefixConcat(rows, i, j);
    AbsorbedConcat(hash, hs, level, rows[..i], rows[i..j]);
    StreamRowsConcat(rows[..i], rows[i..j]);
  }

  /** The prefix covering all of `rows` is `rows`. */
  lemma StreamDone(hash: (GroupingKey, nat) -> uint32, hs: seq<Partition>, level: nat, rows: seq<Group>)
    requires Absorbed(hash, hs, level, rows[..|rows|])
    ensures Absorbed(hash, hs, level, rows) && StreamRows(rows[..|rows|]) == StreamRows(rows)
  {
    assert rows[..|rows|] == rows;
  }

  /** Rows absorbed by a set stay absorbed as the set progresses. */
  lemma AbsorbedProgress(hash: (GroupingKey, nat) -> uint32, before: seq<Partition>, after: seq<Partition>,
                         level: nat, rows: seq<Group>)
    requires Absorbed(hash, before, level, rows) && Progressed(before, after)
    ensures Absorbed(hash, after, level, rows)
  {
  }

  lemma AbsorbedConcat(hash: (GroupingKey, nat) -> uint32, hs: seq<Partition>, level: nat, a: seq<Group>, b: seq<Group>)
    requires Absorbed(hash, hs, level, a) && Absorbed(hash, hs, level, b)
    ensures Absorbed(hash, hs, level, a + b)
  {
    forall j | 0 <= j < |a + b|
      ensures HeldWhereRouted(hash, hs, level, (a + b)[j].key)
    {
      if j >= |a| {
        assert (a + b)[j] == b[j - |a|];
      }
    }
  }

  /** Every partition of a queue is held, and spilled exactly when `spilled`. */
  ghost predicate AllHeld(ps: seq<Partition>, streaming: bool, spilled: bool)
  {
    forall p | p in ps :: Held(p, streaming) && p.IsSpilled() == spilled
  }

  /** Moving the matching partitions of a well-formed set to the back of a queue keeps the queue held. */
  lemma AllHeldAppendSelect(hash: (GroupingKey, nat) -> uint32, streaming: bool, hs: seq<Partition>, level: nat,
                            tbls: seq<Option<HashTable>>, queue: seq<Partition>, spilled: bool)
    requires SetOk(hash, streaming, hs, level, tbls) && AllHeld(queue, streaming, spilled)
    ensures AllHeld(queue + Select(hs, spilled), streaming, spilled)
  {
    SelectMembers(hs, spilled);
    forall p | p in Select(hs, spilled) ensures Held(p, streaming) {
      var i :| 0 <= i < |hs| && hs[i] == p;
    }
  }

  /** A queue's tail is held when the queue is. */
  lemma AllHeldTail(ps: seq<Partition>, streaming: bool, spilled: bool)
    requires AllHeld(ps, streaming, spilled) && ps != []
    ensures AllHeld(ps[1..], streaming, spilled)
    ensures Held(ps[0], streaming) && ps[0].IsSpilled() == spilled
  {
    assert ps[0] in ps;
    assert forall p | p in ps[1..] :: p in ps;
  }

  /**
   * What a streaming pre-aggregation has done with the keys of its input: each
   * was absorbed where it routes or passed on as a single-row intermediate
   * tuple, and every passed-on tuple is one input row.
   */
  ghost predicate Streamed(hash: (GroupingKey, nat) -> uint32, hs: seq<Partition>, level: nat,
                           keys: seq<GroupingKey>, out: seq<Group>)
  {
    && (forall j | 0 <= j < |keys| :: HeldWhereRouted(hash, hs, level, keys[j]) || Group(keys[j], 1) in out)
    && (forall g | g in out :: g.rows == 1 && g.key in keys)
  }

  lemma StreamedStep(hash: (GroupingKey, nat) -> uint32, before: seq<Partition>, after: seq<Partition>, level: nat,
                     keys: seq<GroupingKey>, out: seq<Group>, i: nat, passed: bool)
    requires i < |keys| && Streamed(hash, before, level, keys[..i], out) && Progressed(before, after)
    requires !passed ==> HeldWhereRouted(hash, after, level, keys[i])
    ensures Streamed(hash, after, level, keys[..i + 1], if passed then out + [Group(keys[i], 1)] else out)
  {
    var out' := if passed then out + [Group(keys[i], 1)] else out;
    forall j | 0 <= j <= i
      ensures HeldWhereRouted(hash, after, level, keys[j]) || Group(keys[j], 1) in out'
    {
      if j < i {
        assert keys[..i][j] == keys[j];
      }
    }
    forall g | g in out' ensures g.rows == 1 && g.key in keys[..i + 1] {
      if g in out {
        var j :| 0 <= j < i && keys[..i][j] == g.key;
        assert keys[..i + 1][j] == g.key;
      } else {
        assert keys[..i + 1][i] == g.key;
      }
    }
  }

  /** One row of a streaming batch keeps the batch's progress, accounting and routing facts. */
  lemma BatchStep(hash: (GroupingKey, nat) -> uint32, h0: seq<Partition>, h1: seq<Partition>, h2: seq<Partition>,
                  level: nat, c0: seq<int>, c1: seq<int>, c2: seq<int>, keys: seq<GroupingKey>, out: seq<Group>,
                  i: nat, passed: bool)
    requires Progressed(h0, h1) && Progressed(h1, h2)
    requires CapacityAccounted(h0, h1, c0, c1) && CapacityAccounted(h1, h2, c1, c2)
    requires i < |keys| && Streamed(hash, h1, level, keys[..i], out)
    requires !passed ==> HeldWhereRouted(hash, h2, level, keys[i])
    ensures Progressed(h0, h2) && CapacityAccounted(h0, h2, c0, c2)
    ensures Streamed(hash, h2, level, keys[..i + 1], if passed then out + [Group(keys[i], 1)] else out)
  {
    ProgressedTrans(h0, h1, h2);
    CapacityTrans(h0, h1, h2, c0, c1, c2);
    StreamedStep(hash, h1, h2, level, keys, out, i, passed);
  }

  /**
   * The per-partition capacities of a streaming pre-aggregation: none is
   * negative or has grown, and no table has gained more groups than its
   * capacity has gone down.
   */
  ghost predicate CapacityAccounted(before: seq<Partition>, after: seq<Partition>, cap0: seq<int>, cap: seq<int>)
  {
    && |cap| == |cap0| && |before| == |cap| && |after| == |cap|
    && forall i | 0 <= i < |cap| :: 0 <= cap[i] <= cap0[i] && after[i].Groups() <= before[i].Groups() + (cap0[i] - cap[i])
  }

  /**
   * One row of a streaming batch changes at most the table and the capacity of
   * its partition; if the table gains no more groups than the capacity went
   * down, the capacities still account for every group.
   */
  lemma CapacityStep(h0: seq<Partition>, h1: seq<Partition>, c0: seq<int>, c1: seq<int>, c2: seq<int>, idx: nat, q: Partition)
    requires CapacityAccounted(h0, h1, c0, c1) && idx < |c1| && |c2| == |c1|
    requires forall i | 0 <= i < |c2| && i != idx :: c2[i] == c1[i]
    requires 0 <= c2[idx] <= c1[idx] && q.Groups() <= h1[idx].Groups() + (c1[idx] - c2[idx])
    ensures CapacityAccounted(h0, h1[idx := q], c0, c2)
  {
  }

  lemma CapacityTrans(h0: seq<Partition>, h1: seq<Partition>, h2: seq<Partition>, c0: seq<int>, c1: seq<int>, c2: seq<int>)
    requires CapacityAccounted(h0, h1, c0, c1) && CapacityAccounted(h1, h2, c1, c2)
    ensures CapacityAccounted(h0, h2, c0, c2)
  {
  }

  /** Extending a prefix by one partition extends one of its two selections by it. */
  lemma SelectStep(ps: seq<Partition>, i: nat)
    requires i < |ps|
    ensures Select(ps[..i + 1], ps[i].IsSpilled()) == Select(ps[..i], ps[i].IsSpilled()) + [ps[i]]
    ensures Select(ps[..i + 1], !ps[i].IsSpilled()) == Select(ps[..i], !ps[i].IsSpilled())
  {
    assert ps[..i + 1][..i] == ps[..i];
  }

  /** The two selections together have as many partitions as the sequence. */
  lemma SelectSizes(ps: seq<Partition>)
    ensures |Select(ps, false)| + |Select(ps, true)| == |ps|
  {
    SelectIsPermutation(ps);
    assert |multiset(Select(ps, false)) + multiset(Select(ps, true))| == |multiset(ps)|;
  }

  /**
   * Replacing the first spilled partition by the PARTITION_FANOUT partitions it
   * was repartitioned into, split between the two queues: the rows the queues
   * hold change by the rows of the new partitions less those of the old one,
   * the queues grow by PARTITION_FANOUT - 1 partitions, and the spilled queue
   * loses weight.
   */
  lemma RepartitionStep(agg: seq<Partition>, queue: seq<Partition>, created: seq<Partition>)
    requires queue != [] && queue[0].level <= MAX_PARTITION_DEPTH && |created| == PARTITION_FANOUT
    requires forall i | 0 <= i < |created| :: created[i].level == queue[0].level + 1
    ensures TotalRows(agg + Select(created, false)) + TotalRows(queue[1..] + Select(created, true)) + queue[0].Rows()
            == TotalRows(agg) + TotalRows(queue) + TotalRows(created)
    ensures TotalRows(created) == queue[0].Rows() ==>
              TotalRows(agg + Select(created, false)) + TotalRows(queue[1..] + Select(created, true))
              == TotalRows(agg) + TotalRows(queue)
    ensures |agg + Select(created, false)| + |queue[1..] + Select(created, true)| == |agg| + |queue| - 1 + PARTITION_FANOUT
    ensures Weight(queue[1..] + Select(created, true)) < Weight(queue)
  {
    TotalRowsAppend(agg, Select(created, false));
    TotalRowsAppend(queue[1..], Select(created, true));
    SelectKeepsRows(created);
    TotalRowsOfFirst(queue);
    SelectSizes(created);
    RepartitionLowersWeight(queue, created);
  }

  /** Splits partitions into the active and the spilled ones, each in their original order. */
  method SplitBySpilled(ps: seq<Partition>) returns (active: seq<Partition>, spilled: seq<Partition>)
    ensures active == Select(ps, false) && spilled == Select(ps, true)
  {
    active, spilled := [], [];
    var i := 0;
    while i < |ps|
      invariant i <= |ps|
      invariant active == Select(ps[..i], false) && spilled == Select(ps[..i], true)
    {
      SelectStep(ps, i);
      if ps[i].IsSpilled() {
        spilled := spilled + [ps[i]];
      } else {
        active := active + [ps[i]];
      }
      i := i + 1;
    }
    assert ps[..i] == ps;
  }

  /**
   * The aggregation node. `hash` stands for the hash table context (the hash of
   * the grouping values, seeded by level) and `memGrant` for the buffer manager:
   * its answer to the n-th request for memory.
   */
  class PartitionedAggregationNode {
    const isStreamingPreagg: bool
    const needsSerialize: bool
    const hash: (GroupingKey, nat) -> uint32
    const memGrant: nat -> bool

    /** Number of memory requests made to the buffer manager so far. */
    var memRequests: nat

    /** The level the hash table context currently hashes for. */
    var htLevel: nat

    /** The partitions rows are currently routed into. */
    var hashPartitions: seq<Partition>

    /** Cache of the hash tables of `hashPartitions`. */
    const hashTbls: array<Option<HashTable>>

    /** Spilled partitions still to be repartitioned. */
    var spilledPartitions: seq<Partition>

    /** Fully aggregated partitions whose groups can be returned. */
    var aggregatedPartitions: seq<Partition>

    /** The partition being returned and the position in its hash table. */
    var outputPartition: Option<Partition>
    var outputIterator: nat

    constructor (isStreamingPreagg: bool, needsSerialize: bool,
                 hash: (GroupingKey, nat) -> uint32, memGrant: nat -> bool)
      ensures Valid()
      ensures this.isStreamingPreagg == isStreamingPreagg && this.needsSerialize == needsSerialize
      ensures this.hash == hash && this.memGrant == memGrant && memRequests == 0
      ensures hashPartitions == [] && spilledPartitions == [] && aggregatedPartitions == []
      ensures outputPartition.None?
    {
      this.isStreamingPreagg := isStreamingPreagg;
      this.needsSerialize := needsSerialize;
      this.hash := hash;
      this.memGrant := memGrant;
      memRequests := 0;
      htLevel := 0;
      hashPartitions := [];
      hashTbls := new Option<HashTable>[PARTITION_FANOUT](_ => None);
      spilledPartitions := [];
      aggregatedPartitions := [];
      outputPartition := None;
      outputIterator := 0;
    }

    /**
     * The node's invariant: the current set has at most PARTITION_FANOUT
     * partitions, all at the level the hash context hashes for, whose tables the
     * cache mirrors and whose rows all route to them; the aggregated queue and
     * the output partition hold active partitions and the spilled queue spilled
     * ones.
     */
    ghost predicate Valid()
      reads this`htLevel, this`hashPartitions, this`aggregatedPartitions, this`spilledPartitions,
            this`outputPartition, hashTbls
    {
      PartitionsValid() && QueuesValid()
    }

    /**
     * The current partition set: at most PARTITION_FANOUT partitions, all held
     * and at the level the hash context hashes for, whose tables the cache
     * mirrors and whose rows all route to them.
     */
    ghost predicate PartitionsValid()
      reads this`htLevel, this`hashPartitions, hashTbls
    {
      htLevel <= MAX_PARTITION_DEPTH && SetOk(hash, isStreamingPreagg, hashPartitions, htLevel, hashTbls[..])
    }

    /**
     * The queues: the aggregated queue and the output partition hold active
     * partitions, the spilled queue spilled ones.
     */
    ghost predicate QueuesValid()
      reads this`aggregatedPartitions, this`spilledPartitions, this`outputPartition
    {
      && AllHeld(aggregatedPartitions, isStreamingPreagg, false)
      && AllHeld(spilledPartitions, isStreamingPreagg, true)
      && (outputPartition.Some? ==> Held(outputPartition.value, isStreamingPreagg) && !outputPartition.value.IsSpilled())
    }

    /** All rows the node currently holds. */
    ghost function AllRows(): nat
      reads this`hashPartitions, this`aggregatedPartitions, this`spilledPartitions, this`outputPartition
    {
      TotalRows(hashPartitions) + TotalRows(aggregatedPartitions) + TotalRows(spilledPartitions)
        + (if outputPartition.Some? then outputPartition.value.Rows() else 0)
    }

    /**
     * Buffers that must be reserved before the node can run: two per partition
     * (aggregated and unaggregated stream), one to read the partition being
     * repartitioned and one more to rewrite a stream when spilling needs
     * serialization. A streaming pre-aggregation never spills and reserves none.
     */
    function MinRequiredBuffers(): (n: nat)
      ensures isStreamingPreagg ==> n == 0
      ensures !isStreamingPreagg ==> n == 2 * PARTITION_FANOUT + 1 + (if needsSerialize then 1 else 0)
      ensures !isStreamingPreagg ==> n == 33 || n == 34
    {
      if isStreamingPreagg then 0 else 2 * PARTITION_FANOUT + 1 + (if needsSerialize then 1 else 0)
    }

    /** Accessor for the cache of hash tables; it agrees with the partition's own table. */
    function GetHashTable(partitionIdx: nat): (ht: Option<HashTable>)
      requires PartitionsValid() && partitionIdx < |hashPartitions|
      reads this, hashTbls
      ensures ht == hashPartitions[partitionIdx].hashTbl
      ensures ht.None? <==> hashPartitions[partitionIdx].IsSpilled()
    {
      hashTbls[partitionIdx]
    }

    /** Asks the buffer manager for memory for a new tuple or table. */
    method RequestMemory() returns (granted: bool)
      modifies this`memRequests
      ensures granted == memGrant(old(memRequests)) && memRequests == old(memRequests) + 1
    {
      granted := memGrant(memRequests);
      memRequests := memRequests + 1;
    }

    /**
     * Picks the partition of the current set to spill: the active one holding the
     * most rows. `found` is false when every partition is already spilled.
     */
    method PickPartitionToSpill() returns (found: bool, victim: nat)
      ensures found <==> exists i | 0 <= i < |hashPartitions| :: !hashPartitions[i].IsSpilled()
      ensures found ==> victim < |hashPartitions| && !hashPartitions[victim].IsSpilled()
      ensures found ==> forall i | 0 <= i < |hashPartitions| && !hashPartitions[i].IsSpilled() ::
                          hashPartitions[i].Rows() <= hashPartitions[victim].Rows()
    {
      found, victim := false, 0;
      var most := 0;
      var i := 0;
      while i < |hashPartitions|
        invariant 0 <= i <= |hashPartitions|
        invariant found <==> exists j | 0 <= j < i :: !hashPartitions[j].IsSpilled()
        invariant found ==> victim < i && !hashPartitions[victim].IsSpilled() && most == hashPartitions[victim].Rows()
        invariant found ==> forall j | 0 <= j < i && !hashPartitions[j].IsSpilled() :: hashPartitions[j].Rows() <= most
      {
        var p := hashPartitions[i];
        if !p.IsSpilled() && (!found || p.Rows() > most) {
          found, victim, most := true, i, p.Rows();
        }
        i := i + 1;
      }
    }

    /** Puts `q` in place of partition `idx` of the current set and refreshes its cache entry. */
    method StorePartition(idx: nat, q: Partition)
      requires PartitionsValid() && idx < |hashPartitions|
      requires Held(q, isStreamingPreagg) && q.level == htLevel
      requires forall k | k in q.Keys() :: k in hashPartitions[idx].Keys() || PartitionIdx(hash(k, htLevel)) == idx
      modifies this`hashPartitions, hashTbls
      ensures PartitionsValid() && hashPartitions == old(hashPartitions)[idx := q]
    {
      ghost var tbls := hashTbls[..];
      SetOkUpdate(hash, isStreamingPreagg, hashPartitions, htLevel, tbls, idx, q);
      hashPartitions := hashPartitions[idx := q];
      hashTbls[idx] := q.hashTbl;
      assert hashTbls[..] == tbls[idx := q.hashTbl];
    }

    /** Appends `q` to the current set and caches its table. */
    method AppendPartition(q: Partition)
      requires PartitionsValid() && |hashPartitions| < PARTITION_FANOUT
      requires Held(q, isStreamingPreagg) && q.level == htLevel && q.Keys() == {}
      modifies this`hashPartitions, hashTbls
      ensures PartitionsValid() && hashPartitions == old(hashPartitions) + [q]
    {
      ghost var tbls := hashTbls[..];
      SetOkAppend(hash, isStreamingPreagg, hashPartitions, htLevel, tbls, q);
      hashTbls[|hashPartitions|] := q.hashTbl;
      hashPartitions := hashPartitions + [q];
      assert hashTbls[..] == tbls[|old(hashPartitions)| := q.hashTbl];
    }

    /**
     * Creates the next partition of a new set: it gets a table when the buffer
     * manager grants the memory and starts out spilled otherwise, which a
     * streaming pre-aggregation cannot do.
     */
    method CreateNextPartition() returns (status: Status)
      requires PartitionsValid() && |hashPartitions| < PARTITION_FANOUT
      modifies this`hashPartitions, this`memRequests, hashTbls
      ensures PartitionsValid() && memRequests == old(memRequests) + 1
      ensures status == Ok || status == MemLimitExceeded
      ensures status == MemLimitExceeded <==> isStreamingPreagg && !memGrant(old(memRequests))
      ensures status == Ok ==>
                hashPartitions == old(hashPartitions) + [FreshPartition(htLevel, isStreamingPreagg, memGrant(old(memRequests)))]
      ensures status != Ok ==> hashPartitions == old(hashPartitions)
    {
      var granted := RequestMemory();
      if !granted && isStreamingPreagg {
        return MemLimitExceeded;
      }
      AppendPartition(FreshPartition(htLevel, isStreamingPreagg, granted));
      status := Ok;
    }

    /**
     * Creates the PARTITION_FANOUT partitions of a new set at `level`, each with
     * its streams and, when the buffer manager grants the memory, a hash table;
     * a partition that gets no table starts out spilled. A streaming
     * pre-aggregation cannot spill and fails instead. A level beyond
     * MAX_PARTITION_DEPTH is refused before anything is created.
     */
    method CreateHashPartitions(level: nat) returns (status: Status)
      requires PartitionsValid() && hashPartitions == []
      modifies this`htLevel, this`hashPartitions, this`memRequests, hashTbls
      ensures PartitionsValid()
      ensures status == MaxPartitionDepth <==> level > MAX_PARTITION_DEPTH
      ensures status == MaxPartitionDepth ==> hashPartitions == [] && memRequests == old(memRequests) && htLevel == old(htLevel)
      ensures status != Ok ==> status == MaxPartitionDepth || (status == MemLimitExceeded && isStreamingPreagg)
      ensures status == Ok ==> htLevel == level && memRequests == old(memRequests) + |hashPartitions|
      ensures status == Ok ==> |hashPartitions| == PARTITION_FANOUT
      ensures status == Ok ==> hashPartitions == FreshPartitions(level, isStreamingPreagg, memGrant, old(memRequests), |hashPartitions|)
    {
      if level > MAX_PARTITION_DEPTH {
        return MaxPartitionDepth;
      }
      htLevel := level;
      var i := 0;
      while i < PARTITION_FANOUT
        invariant i <= PARTITION_FANOUT && htLevel == level
        invariant PartitionsValid() && memRequests == old(memRequests) + i
        invariant hashPartitions == FreshPartitions(level, isStreamingPreagg, memGrant, old(memRequests), i)
      {
        FreshPartitionsNext(level, isStreamingPreagg, memGrant, old(memRequests), i);
        status := CreateNextPartition();
        if status != Ok {
          return;
        }
        i := i + 1;
      }
      status := Ok;
    }

    /**
     * Spills a partition of the current set to free memory: the active one with
     * the most rows. Its cache entry is cleared with it. Fails when every
     * partition is already spilled.
     */
    method SpillPartition() returns (status: Status, victim: nat)
      requires PartitionsValid() && !isStreamingPreagg
      modifies this`hashPartitions, hashTbls
      ensures PartitionsValid()
      ensures status == Ok <==> exists i | 0 <= i < |old(hashPartitions)| :: !old(hashPartitions)[i].IsSpilled()
      ensures status == Ok ==>
                && victim < |old(hashPartitions)| && !old(hashPartitions)[victim].IsSpilled()
                && hashPartitions == old(hashPartitions)[victim := old(hashPartitions)[victim].Spill()]
                && forall i | 0 <= i < |hashPartitions| && !old(hashPartitions)[i].IsSpilled() ::
                     old(hashPartitions)[i].Rows() <= old(hashPartitions)[victim].Rows()
      ensures status != Ok ==> status == MemLimitExceeded && hashPartitions == old(hashPartitions)
      ensures TotalRows(hashPartitions) == old(TotalRows(hashPartitions))
    {
      var found;
      found, victim := PickPartitionToSpill();
      if !found {
        return MemLimitExceeded, 0;
      }
      ghost var before := hashPartitions;
      StorePartition(victim, hashPartitions[victim].Spill());
      TotalRowsOneChanged(before, hashPartitions, victim);
      status := Ok;
    }

    /**
     * Has partition `idx`, to which the row's key routes, absorb the row, and
     * refreshes the partition's cache entry. The memory a new tuple needs has
     * been granted already.
     */
    method StoreRow(idx: nat, row: Group, aggregated: bool)
      requires PartitionsValid() && idx < |hashPartitions| && PartitionIdx(hash(row.key, htLevel)) == idx
      requires !aggregated ==> row.rows == 1
      modifies this`hashPartitions, hashTbls
      ensures PartitionsValid() && hashPartitions == old(hashPartitions)[idx := old(hashPartitions)[idx].Absorb(row, aggregated)]
      ensures Progressed(old(hashPartitions), hashPartitions) && OthersAtMostSpilled(old(hashPartitions), hashPartitions, idx)
      ensures TotalRows(hashPartitions) == old(TotalRows(hashPartitions)) + row.rows
    {
      var q := hashPartitions[idx].Absorb(row, aggregated);
      AbsorbIntoSet(hash, isStreamingPreagg, hashPartitions, htLevel, hashTbls[..], idx, row, aggregated);
      StorePartition(idx, q);
    }

    /**
     * After a refused request for memory, spills partitions of the current set,
     * largest first, asking for the memory again after each spill, until the
     * memory is granted or partition `idx` itself has been spilled.
     */
    method SpillUntilGranted(idx: nat) returns (granted: bool)
      requires PartitionsValid() && !isStreamingPreagg
      requires idx < |hashPartitions| && !hashPartitions[idx].IsSpilled()
      modifies this`hashPartitions, this`memRequests, hashTbls
      ensures PartitionsValid() && OthersAtMostSpilled(old(hashPartitions), hashPartitions, idx)
      ensures granted ==> hashPartitions[idx] == old(hashPartitions)[idx]
      ensures !granted ==> hashPartitions[idx] == old(hashPartitions)[idx].Spill()
      ensures TotalRows(hashPartitions) == old(TotalRows(hashPartitions))
    {
      granted := false;
      while !granted && !hashPartitions[idx].IsSpilled()
        invariant PartitionsValid()
        invariant OthersAtMostSpilled(old(hashPartitions), hashPartitions, idx)
        invariant hashPartitions[idx] == old(hashPartitions)[idx] || hashPartitions[idx] == old(hashPartitions)[idx].Spill()
        invariant granted ==> hashPartitions[idx] == old(hashPartitions)[idx]
        invariant TotalRows(hashPartitions) == old(TotalRows(hashPartitions))
        decreases |Select(hashPartitions, false)|
      {
        ghost var before := hashPartitions;
        var status, v := SpillPartition();
        assert !before[idx].IsSpilled();
        assert status == Ok && hashPartitions == before[v := before[v].Spill()];
        SpillShrinksActive(before, v);
        OthersAfterSpill(old(hashPartitions), before, idx, v);
        ghost var spilled := hashPartitions;
        if !hashPartitions[idx].IsSpilled() {
          granted := RequestMemory();
        }
        assert hashPartitions == spilled;
      }
    }

    /**
     * Appends a row to the streams of spilled partition `idx`. When the stream
     * needs a new buffer and the buffer manager refuses it, partitions are
     * spilled, largest first, asking again after each spill; with no active
     * partition left to spill the append fails and the row is not stored.
     */
    method AppendSpilledRow(idx: nat, row: Group, aggregated: bool) returns (status: Status)
      requires PartitionsValid() && idx < |hashPartitions| && hashPartitions[idx].IsSpilled()
      requires PartitionIdx(hash(row.key, htLevel)) == idx
      requires !aggregated ==> row.rows == 1
      modifies this`hashPartitions, this`memRequests, hashTbls
      ensures PartitionsValid() && Progressed(old(hashPartitions), hashPartitions)
      ensures OthersAtMostSpilled(old(hashPartitions), hashPartitions, idx)
      ensures status == Ok || status == MemLimitExceeded
      ensures memGrant(old(memRequests)) ==>
                && status == Ok
                && hashPartitions == old(hashPartitions)[idx := old(hashPartitions)[idx].AppendSpilledRow(row, aggregated)]
      ensures status == Ok ==> hashPartitions[idx] == old(hashPartitions)[idx].AppendSpilledRow(row, aggregated)
      ensures status == Ok ==> TotalRows(hashPartitions) == old(TotalRows(hashPartitions)) + row.rows
      ensures status != Ok ==> NoneActive(hashPartitions) && hashPartitions[idx] == old(hashPartitions)[idx]
      ensures status != Ok ==> TotalRows(hashPartitions) == old(TotalRows(hashPartitions))
    {
      assert Held(hashPartitions[idx], isStreamingPreagg);
      var granted := RequestMemory();
      ghost var first := granted;
      while !granted
        invariant PartitionsValid() && idx < |hashPartitions|
        invariant OthersAtMostSpilled(old(hashPartitions), hashPartitions, idx)
        invariant hashPartitions[idx] == old(hashPartitions)[idx]
        invariant TotalRows(hashPartitions) == old(TotalRows(hashPartitions))
        invariant first ==> granted && hashPartitions == old(hashPartitions)
        decreases |Select(hashPartitions, false)|
      {
        ghost var before := hashPartitions;
        var spilled, v := SpillPartition();
        if spilled != Ok {
          AtMostSpilledProgressed(old(hashPartitions), hashPartitions, idx);
          return MemLimitExceeded;
        }
        SpillShrinksActive(before, v);
        OthersAfterSpill(old(hashPartitions), before, idx, v);
        ghost var afterSpill := hashPartitions;
        granted := RequestMemory();
        assert hashPartitions == afterSpill;
      }
      ghost var mid := hashPartitions;
      StoreRow(idx, row, aggregated);
      StoreAfterSpills(old(hashPartitions), mid, idx, hashPartitions[idx]);
      status := Ok;
    }

    /**
     * Creates a new intermediate tuple for `row` in active partition `idx`, whose
     * table does not hold the row's key. When the buffer manager refuses the
     * memory, partitions are spilled until either the memory is granted or
     * partition `idx` itself is spilled, in which case the row is appended to
     * its streams instead, which may fail when nothing is left to spill. A
     * streaming pre-aggregation cannot spill and fails, changing nothing.
     */
    method AddIntermediateTuple(idx: nat, row: Group, aggregated: bool) returns (status: Status)
      requires PartitionsValid() && idx < |hashPartitions|
      requires !hashPartitions[idx].IsSpilled() && row.key !in hashPartitions[idx].hashTbl.value
      requires PartitionIdx(hash(row.key, htLevel)) == idx
      requires !aggregated ==> row.rows == 1
      modifies this`hashPartitions, this`memRequests, hashTbls
      ensures PartitionsValid()
      ensures Progressed(old(hashPartitions), hashPartitions)
      ensures OthersAtMostSpilled(old(hashPartitions), hashPartitions, idx)
      ensures status == Ok && !hashPartitions[idx].IsSpilled() ==>
                hashPartitions[idx] == old(hashPartitions)[idx].AddTuple(row)
      ensures status == Ok && hashPartitions[idx].IsSpilled() ==>
                hashPartitions[idx] == old(hashPartitions)[idx].Spill().AppendSpilledRow(row, aggregated)
      ensures status == Ok ==> TotalRows(hashPartitions) == old(TotalRows(hashPartitions)) + row.rows
      ensures status == Ok ==> row.key in hashPartitions[idx].Keys()
      ensures status != Ok ==> status == MemLimitExceeded
      ensures status != Ok && isStreamingPreagg ==> hashPartitions == old(hashPartitions)
      ensures status != Ok && !isStreamingPreagg ==> NoneActive(hashPartitions)
    {
      var granted := RequestMemory();
      if !granted {
        if isStreamingPreagg {
          return MemLimitExceeded;
        }
        granted := SpillUntilGranted(idx);
      }
      ghost var mid := hashPartitions;
      if granted {
        StoreRow(idx, row, aggregated);
        StoreAfterSpills(old(hashPartitions), mid, idx, hashPartitions[idx]);
        status := Ok;
      } else {
        status := AppendSpilledRow(idx, row, aggregated);
        AtMostSpilledProgressed(old(hashPartitions), mid, idx);
        ProgressedTrans(old(hashPartitions), mid, hashPartitions);
        OthersAtMostSpilledTrans(old(hashPartitions), mid, hashPartitions, idx);
      }
    }

    /**
     * Routes one row to its partition by the upper bits of its hash. A spilled
     * partition appends it to its streams; an active one folds it into the tuple
     * its table holds for the key, or creates that tuple. Only a row that needs
     * memory can fail: a streaming pre-aggregation refused the memory, or a
     * spilling one with no active partition left to spill.
     */
    method ProcessRow(row: Group, aggregated: bool) returns (status: Status)
      requires PartitionsValid() && |hashPartitions| == PARTITION_FANOUT
      requires !aggregated ==> row.rows == 1
      modifies this`hashPartitions, this`memRequests, hashTbls
      ensures PartitionsValid() && Progressed(old(hashPartitions), hashPartitions)
      ensures OthersAtMostSpilled(old(hashPartitions), hashPartitions, PartitionIdx(hash(row.key, htLevel)))
      ensures status == Ok ==> TotalRows(hashPartitions) == old(TotalRows(hashPartitions)) + row.rows
      ensures status == Ok ==> row.key in hashPartitions[PartitionIdx(hash(row.key, htLevel))].Keys()
      ensures status != Ok ==> status == MemLimitExceeded
      ensures status != Ok && isStreamingPreagg ==> hashPartitions == old(hashPartitions)
      ensures status != Ok && !isStreamingPreagg ==> NoneActive(hashPartitions)
      ensures var p := old(hashPartitions)[PartitionIdx(hash(row.key, htLevel))];
              !p.IsSpilled() && row.key in p.hashTbl.value ==>
                && status == Ok && memRequests == old(memRequests)
                && hashPartitions == old(hashPartitions)[PartitionIdx(hash(row.key, htLevel)) := p.UpdateTuple(row)]
      ensures var p := old(hashPartitions)[PartitionIdx(hash(row.key, htLevel))];
              p.IsSpilled() && status == Ok ==>
                hashPartitions[PartitionIdx(hash(row.key, htLevel))] == p.AppendSpilledRow(row, aggregated)
    {
      var idx := PartitionIdx(hash(row.key, htLevel));
      var p := hashPartitions[idx];
      if p.IsSpilled() {
        status := AppendSpilledRow(idx, row, aggregated);
      } else if row.key in p.hashTbl.value {
        StoreRow(idx, row, aggregated);
        status := Ok;
      } else {
        status := AddIntermediateTuple(idx, row, aggregated);
      }
    }

    /**
     * Aggregates a batch of rows: each row in turn is routed to its partition,
     * spilling partitions as memory runs out. Raw rows (`aggregated` false) are
     * single input rows; pre-aggregated ones are intermediate tuples. Stops at
     * the first failure.
     */
    method ProcessBatch(batch: seq<Group>, aggregated: bool) returns (status: Status)
      requires PartitionsValid() && |hashPartitions| == PARTITION_FANOUT
      requires !aggregated ==> forall g | g in batch :: g.rows == 1
      modifies this`hashPartitions, this`memRequests, hashTbls
      ensures PartitionsValid() && Progressed(old(hashPartitions), hashPartitions)
      ensures status == Ok ==> TotalRows(hashPartitions) == old(TotalRows(hashPartitions)) + StreamRows(batch)
      ensures status == Ok ==> Absorbed(hash, hashPartitions, htLevel, batch)
      ensures status != Ok ==> status == MemLimitExceeded
      ensures status != Ok && !isStreamingPreagg ==> NoneActive(hashPartitions)
    {
      var i := 0;
      assert Progressed(hashPartitions, hashPartitions);
      while i < |batch|
        invariant i <= |batch| && PartitionsValid() && |hashPartitions| == PARTITION_FANOUT
        invariant Progressed(old(hashPartitions), hashPartitions)
        invariant TotalRows(hashPartitions) == old(TotalRows(hashPartitions)) + StreamRows(batch[..i])
        invariant Absorbed(hash, hashPartitions, htLevel, batch[..i])
      {
        ghost var before := hashPartitions;
        status := ProcessRow(batch[i], aggregated);
        if status != Ok {
          return;
        }
        ProgressedTrans(old(hashPartitions), before, hashPartitions);
        AbsorbedProgress(hash, before, hashPartitions, htLevel, batch[..i]);
        AbsorbedStep(hash, hashPartitions, htLevel, batch, i);
        StreamRowsStep(batch, i);
        i := i + 1;
      }
      StreamDone(hash, hashPartitions, htLevel, batch);
      status := Ok;
    }

    /**
     * Reads a whole stream back and aggregates its rows, BATCH_SIZE rows at a
     * time, stopping at the first failure.
     */
    method ProcessStream(stream: seq<Group>, aggregated: bool) returns (status: Status)
      requires PartitionsValid() && |hashPartitions| == PARTITION_FANOUT
      requires !aggregated ==> forall g | g in stream :: g.rows == 1
      modifies this`hashPartitions, this`memRequests, hashTbls
      ensures PartitionsValid() && Progressed(old(hashPartitions), hashPartitions)
      ensures status == Ok ==> TotalRows(hashPartitions) == old(TotalRows(hashPartitions)) + StreamRows(stream)
      ensures status == Ok ==> Absorbed(hash, hashPartitions, htLevel, stream)
      ensures status != Ok ==> status == MemLimitExceeded
      ensures status != Ok && !isStreamingPreagg ==> NoneActive(hashPartitions)
    {
      var i := 0;
      assert Progressed(hashPartitions, hashPartitions);
      while i < |stream|
        invariant i <= |stream| && PartitionsValid() && |hashPartitions| == PARTITION_FANOUT
        invariant Progressed(old(hashPartitions), hashPartitions)
        invariant TotalRows(hashPartitions) == old(TotalRows(hashPartitions)) + StreamRows(stream[..i])
        invariant Absorbed(hash, hashPartitions, htLevel, stream[..i])
      {
        var end := if |stream| - i < BATCH_SIZE then |stream| else i + BATCH_SIZE;
        assert forall g | g in stream[i..end] :: g in stream;
        ghost var before := hashPartitions;
        status := ProcessBatch(stream[i..end], aggregated);
        if status != Ok {
          return;
        }
        ProgressedTrans(old(hashPartitions), before, hashPartitions);
        AbsorbedProgress(hash, before, hashPartitions, htLevel, stream[..i]);
        StreamBatchStep(hash, hashPartitions, htLevel, stream, i, end);
        i := end;
      }
      StreamDone(hash, hashPartitions, htLevel, stream);
      status := Ok;
    }

    /**
     * Empties the current set: its active partitions go to the back of the
     * aggregated queue and its spilled ones to the back of the spilled queue,
     * each in the order of the set.
     */
    method MoveHashPartitions()
      requires Valid()
      modifies this`hashPartitions, this`aggregatedPartitions, this`spilledPartitions
      ensures Valid() && hashPartitions == []
      ensures aggregatedPartitions == old(aggregatedPartitions) + Select(old(hashPartitions), false)
      ensures spilledPartitions == old(spilledPartitions) + Select(old(hashPartitions), true)
    {
      var active, spilled := SplitBySpilled(hashPartitions);
      AllHeldAppendSelect(hash, isStreamingPreagg, hashPartitions, htLevel, hashTbls[..], aggregatedPartitions, false);
      AllHeldAppendSelect(hash, isStreamingPreagg, hashPartitions, htLevel, hashTbls[..], spilledPartitions, true);
      aggregatedPartitions, spilledPartitions, hashPartitions := aggregatedPartitions + active, spilledPartitions + spilled, [];
    }

    /**
     * Routes the rows of the spilled partition `sp` into the current set: first
     * its intermediate tuples, then its raw input rows. Every row ends up in the
     * partition its key hashes to at the set's level. Fails when a row needs
     * memory and no active partition is left to spill.
     */
    method ProcessSpilledPartition(sp: Partition) returns (status: Status)
      requires PartitionsValid() && |hashPartitions| == PARTITION_FANOUT && !isStreamingPreagg
      requires Held(sp, false) && TotalRows(hashPartitions) == 0
      modifies this`hashPartitions, this`memRequests, hashTbls
      ensures PartitionsValid() && Progressed(old(hashPartitions), hashPartitions)
      ensures status == Ok || status == MemLimitExceeded
      ensures status == Ok ==> TotalRows(hashPartitions) == sp.Rows()
      ensures status == Ok ==> Absorbed(hash, hashPartitions, htLevel, sp.aggregatedRowStream)
      ensures status == Ok ==> Absorbed(hash, hashPartitions, htLevel, RawRows(sp.unaggregatedRowStream.value))
      ensures status != Ok ==> NoneActive(hashPartitions)
    {
      status := ProcessStream(sp.aggregatedRowStream, true);
      if status != Ok {
        return;
      }
      ghost var before := hashPartitions;
      var raw := RawRows(sp.unaggregatedRowStream.value);
      assert forall g | g in raw :: g.rows == 1;
      RawRowsCount(sp.unaggregatedRowStream.value);
      status := ProcessStream(raw, false);
      ProgressedTrans(old(hashPartitions), before, hashPartitions);
      AbsorbedProgress(hash, before, hashPartitions, htLevel, sp.aggregatedRowStream);
    }

    /**
     * Repartitions the spilled partition `sp` into a new set one level deeper.
     * A partition already at MAX_PARTITION_DEPTH cannot be repartitioned; the
     * rows can run out of memory with nothing left to spill.
     */
    method RepartitionInto(sp: Partition) returns (status: Status)
      requires PartitionsValid() && hashPartitions == [] && !isStreamingPreagg
      requires Held(sp, false)
      modifies this`htLevel, this`hashPartitions, this`memRequests, hashTbls
      ensures PartitionsValid()
      ensures status == MaxPartitionDepth <==> sp.level == MAX_PARTITION_DEPTH
      ensures status == Ok || status == MaxPartitionDepth || status == MemLimitExceeded
      ensures status == MaxPartitionDepth ==> hashPartitions == []
      ensures status != MaxPartitionDepth ==> |hashPartitions| == PARTITION_FANOUT && htLevel == sp.level + 1
      ensures status == Ok ==> TotalRows(hashPartitions) == sp.Rows()
      ensures status == MemLimitExceeded ==> NoneActive(hashPartitions)
    {
      status := CreateHashPartitions(sp.level + 1);
      if status != Ok {
        return;
      }
      FreshPartitionsFacts(sp.level + 1, false, memGrant, old(memRequests), |hashPartitions|);
      status := ProcessSpilledPartition(sp);
    }

    /**
     * Takes the first spilled partition off its queue, repartitions it and
     * moves the new partitions to the two queues. When it is already at
     * MAX_PARTITION_DEPTH nothing changes and the error is returned. When memory
     * runs out with nothing left to spill, the queues are unchanged and the
     * partly filled new set stays in place.
     */
    method RepartitionSpilled() returns (status: Status)
      requires Valid() && hashPartitions == [] && spilledPartitions != []
      modifies this`htLevel, this`hashPartitions, this`memRequests, hashTbls,
               this`aggregatedPartitions, this`spilledPartitions
      ensures Valid()
      ensures status == Ok || status == MaxPartitionDepth || status == MemLimitExceeded
      ensures status == MaxPartitionDepth <==> old(spilledPartitions)[0].level == MAX_PARTITION_DEPTH
      ensures status != Ok ==>
                aggregatedPartitions == old(aggregatedPartitions) && spilledPartitions == old(spilledPartitions)
      ensures status != MemLimitExceeded ==> hashPartitions == []
      ensures status == MemLimitExceeded ==> |hashPartitions| == PARTITION_FANOUT && NoneActive(hashPartitions)
      ensures status == Ok ==> AllRows() == old(AllRows())
      ensures status == Ok ==> |aggregatedPartitions| + |spilledPartitions|
                               == |old(aggregatedPartitions)| + |old(spilledPartitions)| - 1 + PARTITION_FANOUT
      ensures status == Ok ==> Weight(spilledPartitions) < Weight(old(spilledPartitions))
    {
      ghost var agg0, queue0 := aggregatedPartitions, spilledPartitions;
      ghost var aggRows, queueRows := TotalRows(agg0), TotalRows(queue0);
      ghost var out0 := outputPartition;
      ghost var outRows := if out0.Some? then out0.value.Rows() else 0;
      assert AllRows() == aggRows + queueRows + outRows;
      var sp := spilledPartitions[0];
      AllHeldTail(spilledPartitions, isStreamingPreagg, true);
      status := RepartitionInto(sp);
      if status != Ok {
        return;
      }
      assert outputPartition == out0;
      ghost var created := hashPartitions;
      spilledPartitions := spilledPartitions[1..];
      MoveHashPartitions();
      assert aggregatedPartitions == agg0 + Select(created, false);
      assert spilledPartitions == queue0[1..] + Select(created, true);
      assert TotalRows(created) == queue0[0].Rows();
      RepartitionStep(agg0, queue0, created);
      ghost var newAggRows, newQueueRows := TotalRows(aggregatedPartitions), TotalRows(spilledPartitions);
      assert newAggRows + newQueueRows == aggRows + queueRows;
      assert outputPartition == out0;
      assert TotalRows(hashPartitions) == 0;
      assert AllRows() == newAggRows + newQueueRows + outRows;
    }

    /**
     * Prepares the next partition to return groups from: the previous output
     * partition is released, then the first aggregated partition becomes the
     * output partition. While there is none, spilled partitions are
     * repartitioned one after the other; that fails with MaxPartitionDepth on
     * a spilled partition already at MAX_PARTITION_DEPTH, and with
     * MemLimitExceeded when memory runs out with nothing left to spill.
     */
    method NextPartition() returns (status: Status)
      requires Valid() && hashPartitions == []
      requires aggregatedPartitions != [] || spilledPartitions != []
      modifies this`htLevel, this`hashPartitions, this`memRequests, hashTbls,
               this`aggregatedPartitions, this`spilledPartitions, this`outputPartition, this`outputIterator
      ensures Valid()
      ensures status == Ok || status == MaxPartitionDepth || status == MemLimitExceeded
      ensures status != MemLimitExceeded ==> hashPartitions == []
      ensures status == Ok ==> outputPartition.Some? && outputIterator == 0
      ensures status == Ok ==>
                AllRows() == old(AllRows()) - (if old(outputPartition).Some? then old(outputPartition).value.Rows() else 0)
      ensures old(aggregatedPartitions) != [] ==>
                && status == Ok && outputPartition == Some(old(aggregatedPartitions)[0])
                && aggregatedPartitions == old(aggregatedPartitions)[1..] && spilledPartitions == old(spilledPartitions)
      ensures status == MaxPartitionDepth ==>
                && outputPartition.None? && aggregatedPartitions == []
                && spilledPartitions != [] && spilledPartitions[0].level == MAX_PARTITION_DEPTH
      ensures status == MemLimitExceeded ==>
                && outputPartition.None? && aggregatedPartitions == [] && spilledPartitions != []
                && |hashPartitions| == PARTITION_FANOUT && NoneActive(hashPartitions)
    {
      outputPartition := None;
      status := Ok;
      while aggregatedPartitions == []
        invariant Valid() && hashPartitions == [] && outputPartition.None? && status == Ok
        invariant aggregatedPartitions == [] ==> spilledPartitions != []
        invariant old(aggregatedPartitions) != [] ==>
                    aggregatedPartitions == old(aggregatedPartitions) && spilledPartitions == old(spilledPartitions)
        invariant AllRows() == old(AllRows()) - (if old(outputPartition).Some? then old(outputPartition).value.Rows() else 0)
        decreases Weight(spilledPartitions)
      {
        status := RepartitionSpilled();
        if status != Ok {
          return;
        }
      }
      AllHeldTail(aggregatedPartitions, isStreamingPreagg, false);
      TotalRowsOfFirst(aggregatedPartitions);
      outputPartition := Some(aggregatedPartitions[0]);
      aggregatedPartitions := aggregatedPartitions[1..];
      outputIterator := 0;
    }

    /**
     * Streaming pre-aggregation of one input row into the partition its key
     * routes to: an existing group is updated; otherwise a group is created
     * while the partition has capacity left and the buffer manager grants the
     * memory. A refusal sets the capacity to zero so later rows do not retry.
     * `added` is false when the row must be passed on instead.
     */
    method TryAddToHashTable(idx: nat, key: GroupingKey, remainingCapacity: array<int>) returns (added: bool)
      requires PartitionsValid() && isStreamingPreagg && idx < |hashPartitions|
      requires PartitionIdx(hash(key, htLevel)) == idx && remainingCapacity.Length == PARTITION_FANOUT
      modifies this`hashPartitions, this`memRequests, hashTbls, remainingCapacity
      ensures PartitionsValid()
      ensures added <==> key in old(hashPartitions[idx].hashTbl.value)
                         || (old(remainingCapacity[idx]) != 0 && memGrant(old(memRequests)))
      ensures hashPartitions == if added then old(hashPartitions)[idx := old(hashPartitions[idx]).Absorb(Group(key, 1), false)]
                                else old(hashPartitions)
      ensures forall i | 0 <= i < PARTITION_FANOUT && i != idx :: remainingCapacity[i] == old(remainingCapacity[i])
      ensures remainingCapacity[idx] == if !added then 0
                                       else if key in old(hashPartitions[idx].hashTbl.value) then old(remainingCapacity[idx])
                                       else old(remainingCapacity[idx]) - 1
      ensures TotalRows(hashPartitions) == old(TotalRows(hashPartitions)) + (if added then 1 else 0)
      ensures memRequests == old(memRequests)
                             + (if key !in old(hashPartitions[idx].hashTbl.value) && old(remainingCapacity[idx]) != 0 then 1 else 0)
    {
      var tbl := GetHashTable(idx);
      if key in tbl.value {
        StoreRow(idx, Group(key, 1), false);
        return true;
      }
      if remainingCapacity[idx] == 0 {
        return false;
      }
      var granted := RequestMemory();
      if !granted {
        remainingCapacity[idx] := 0;
        return false;
      }
      StoreRow(idx, Group(key, 1), false);
      remainingCapacity[idx] := remainingCapacity[idx] - 1;
      added := true;
    }

    /**
     * One input row of a streaming batch, tried on the partition its key
     * routes to. When it is added its key is held there; either way the
     * capacities still account for the groups created.
     */
    method StreamRow(key: GroupingKey, remainingCapacity: array<int>) returns (added: bool)
      requires PartitionsValid() && isStreamingPreagg && |hashPartitions| == PARTITION_FANOUT
      requires remainingCapacity.Length == PARTITION_FANOUT
      requires forall i | 0 <= i < PARTITION_FANOUT :: remainingCapacity[i] >= 0
      modifies this`hashPartitions, this`memRequests, hashTbls, remainingCapacity
      ensures PartitionsValid() && Progressed(old(hashPartitions), hashPartitions)
      ensures CapacityAccounted(old(hashPartitions), hashPartitions, old(remainingCapacity[..]), remainingCapacity[..])
      ensures added ==> HeldWhereRouted(hash, hashPartitions, htLevel, key)
      ensures TotalRows(hashPartitions) == old(TotalRows(hashPartitions)) + (if added then 1 else 0)
    {
      var idx := PartitionIdx(hash(key, htLevel));
      ghost var cap := remainingCapacity[..];
      added := TryAddToHashTable(idx, key, remainingCapacity);
      assert Progressed(old(hashPartitions), old(hashPartitions));
      ProgressedUpdate(old(hashPartitions), old(hashPartitions), idx, hashPartitions[idx]);
      assert CapacityAccounted(old(hashPartitions), old(hashPartitions), cap, cap);
      CapacityStep(old(hashPartitions), old(hashPartitions), cap, cap, remainingCapacity[..], idx, hashPartitions[idx]);
    }

    /**
     * Row `i` of a streaming batch whose first `i` rows are streamed into
     * `outBatch`: streams it and passes it on when it is not added.
     */
    method BatchRow(inBatch: seq<GroupingKey>, i: nat, outBatch: seq<Group>, remainingCapacity: array<int>,
                    ghost start: seq<Partition>, ghost cap0: seq<int>) returns (out: seq<Group>)
      requires PartitionsValid() && isStreamingPreagg && |hashPartitions| == PARTITION_FANOUT
      requires remainingCapacity.Length == PARTITION_FANOUT && i < |inBatch|
      requires Progressed(start, hashPartitions) && Streamed(hash, hashPartitions, htLevel, inBatch[..i], outBatch)
      requires CapacityAccounted(start, hashPartitions, cap0, remainingCapacity[..])
      modifies this`hashPartitions, this`memRequests, hashTbls, remainingCapacity
      ensures PartitionsValid() && Progressed(start, hashPartitions)
      ensures TotalRows(hashPartitions) + |out| == old(TotalRows(hashPartitions)) + |outBatch| + 1
      ensures Streamed(hash, hashPartitions, htLevel, inBatch[..i + 1], out)
      ensures CapacityAccounted(start, hashPartitions, cap0, remainingCapacity[..])
    {
      ghost var before, cap := hashPartitions, remainingCapacity[..];
      var added := StreamRow(inBatch[i], remainingCapacity);
      BatchStep(hash, start, before, hashPartitions, htLevel, cap0, cap, remainingCapacity[..], inBatch, outBatch, i, !added);
      out := if added then outBatch else outBatch + [Group(inBatch[i], 1)];
    }

    /**
     * Streaming pre-aggregation of a batch: each input row is aggregated into
     * its partition's table or passed on to the output batch as an
     * intermediate tuple of one row. No row is lost or counted twice, and the
     * capacities account for every group created.
     */
    method ProcessBatchStreaming(inBatch: seq<GroupingKey>, remainingCapacity: array<int>) returns (outBatch: seq<Group>)
      requires PartitionsValid() && isStreamingPreagg && |hashPartitions| == PARTITION_FANOUT
      requires remainingCapacity.Length == PARTITION_FANOUT
      requires forall i | 0 <= i < PARTITION_FANOUT :: remainingCapacity[i] >= 0
      modifies this`hashPartitions, this`memRequests, hashTbls, remainingCapacity
      ensures PartitionsValid() && Progressed(old(hashPartitions), hashPartitions)
      ensures TotalRows(hashPartitions) + |outBatch| == old(TotalRows(hashPartitions)) + |inBatch|
      ensures Streamed(hash, hashPartitions, htLevel, inBatch, outBatch)
      ensures CapacityAccounted(old(hashPartitions), hashPartitions, old(remainingCapacity[..]), remainingCapacity[..])
    {
      outBatch := [];
      var i := 0;
      while i < |inBatch|
        invariant i <= |inBatch| && PartitionsValid() && Progressed(old(hashPartitions), hashPartitions)
        invariant TotalRows(hashPartitions) + |outBatch| == old(TotalRows(hashPartitions)) + i
        invariant Streamed(hash, hashPartitions, htLevel, inBatch[..i], outBatch)
        invariant CapacityAccounted(old(hashPartitions), hashPartitions, old(remainingCapacity[..]), remainingCapacity[..])
      {
        outBatch := BatchRow(inBatch, i, outBatch, remainingCapacity, old(hashPartitions), old(remainingCapacity[..]));
        i := i + 1;
      }
      assert inBatch[..i] == inBatch;
    }

    /**
     * The number of rows, counted over both streams, of the largest spilled
     * partition of the current set; 0 when none is spilled.
     */
    method LargestSpilledPartition() returns (largest: nat)
      ensures forall i | 0 <= i < |hashPartitions| && hashPartitions[i].IsSpilled() ::
                hashPartitions[i].StreamedRows() <= largest
      ensures largest == 0 || exists i | 0 <= i < |hashPartitions| ::
                hashPartitions[i].IsSpilled() && hashPartitions[i].StreamedRows() == largest
    {
      largest := 0;
      var i := 0;
      while i < |hashPartitions|
        invariant i <= |hashPartitions|
        invariant forall j | 0 <= j < i && hashPartitions[j].IsSpilled() :: hashPartitions[j].StreamedRows() <= largest
        invariant largest == 0 || exists j | 0 <= j < i ::
                    hashPartitions[j].IsSpilled() && hashPartitions[j].StreamedRows() == largest
      {
        var p := hashPartitions[i];
        if p.IsSpilled() && p.StreamedRows() > largest {
          largest := p.StreamedRows();
        }
        i := i + 1;
      }
    }

    /**
     * Closes every partition of the aggregated queue, the spilled queue and the
     * current set, in that order, and empties the three containers.
     */
    method ClosePartitions() returns (closed: seq<Partition>)
      requires Valid()
      modifies this`aggregatedPartitions, this`spilledPartitions, this`hashPartitions
      ensures Valid() && aggregatedPartitions == [] && spilledPartitions == [] && hashPartitions == []
      ensures |closed| == |old(aggregatedPartitions) + old(spilledPartitions) + old(hashPartitions)|
      ensures forall i | 0 <= i < |closed| ::
                closed[i] == (old(aggregatedPartitions) + old(spilledPartitions) + old(hashPartitions))[i].Close()
    {
      var all := aggregatedPartitions + spilledPartitions + hashPartitions;
      closed := [];
      var i := 0;
      while i < |all|
        modifies {}
        invariant i <= |all| && |closed| == i
        invariant forall j | 0 <= j < i :: closed[j] == all[j].Close()
      {
        closed := closed + [all[i].Close()];
        i := i + 1;
      }
      aggregatedPartitions, spilledPartitions, hashPartitions := [], [], [];
    }
  }
}
