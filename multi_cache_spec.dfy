/**
 * Value-level definitions behind the per-shard group/metric table
 * (`MultiCache`): the chunk schedules its copy loops follow, the compaction
 * that drops documents of group 0, the regroup step with its
 * "already remapped" markers, and the statistic column ordering.  The
 * classes in module MultiCache are proved against these.
 */
module MultiCacheSpec {
  import opened Wrappers

  /** Largest number of groups a table can hold. */
  const MAX_GROUP_NUM: int := 0x1000_0000
  /** Documents per block when groups are copied in. */
  const BLOCK_COPY_SIZE: nat := 8192
  /** Documents per chunk when metric values are copied in. */
  const CHUNK_SIZE: nat := 4096

  // ---------------------------------------------------------------------
  // Chunk schedules

  /** A copy of documents [start, start + count). */
  datatype Chunk = Chunk(start: nat, count: nat)

  predicate InChunk(c: Chunk, d: int) { c.start <= d < c.start + c.count }

  function Min(a: int, b: int): int { if a < b then a else b }

  /** Documents [from, n) cut into consecutive chunks of `size`, the last one possibly shorter. */
  function Chunks(n: nat, size: nat, from: nat): seq<Chunk>
    requires size > 0
    decreases n - from
  {
    if from >= n then [] else [Chunk(from, Min(size, n - from))] + Chunks(n, size, from + Min(size, n - from))
  }

  /** How many chunks of `cs` contain document `d`. */
  function CoverCount(cs: seq<Chunk>, d: int): nat
  {
    if |cs| == 0 then 0 else (if InChunk(cs[0], d) then 1 else 0) + CoverCount(cs[1..], d)
  }

  /**
   * The schedule starts at `from`, each chunk starts where the previous one
   * ended and holds between 1 and `size` documents, and every document in
   * [from, n) lies in exactly one chunk while no other document lies in any.
   */
  lemma {:induction false} ChunksPartition(n: nat, size: nat, from: nat)
    requires size > 0
    ensures var cs := Chunks(n, size, from);
      && (forall k :: 0 <= k < |cs| ==> 0 < cs[k].count <= size && cs[k].start + cs[k].count <= n)
      && (forall k :: 0 <= k < |cs| ==> cs[k].start == from + k * size)
      && (|cs| > 0 ==> cs[|cs| - 1].start + cs[|cs| - 1].count == n)
      && (forall d :: CoverCount(cs, d) == if from <= d < n then 1 else 0)
    decreases n - from
  {
    if from < n {
      var cs := Chunks(n, size, from);
      var c := Min(size, n - from);
      ChunksPartition(n, size, from + c);
      var rest := Chunks(n, size, from + c);
      assert cs[1..] == rest;
      forall k | 1 <= k < |cs|
        ensures cs[k].start == from + k * size
      {
        assert cs[k] == rest[k - 1];
        if k > 1 {
          assert c == size;
        } else {
          assert rest[0].start == from + c;
          assert c == size;
        }
      }
    }
  }

  /** One `copyValues(stats[originalOrder], start, count, column)` call. */
  datatype CopyCall = CopyCall(column: nat, start: nat, count: nat)

  /** The calls for one chunk, for columns [from, numColumns). */
  function ChunkCalls(c: Chunk, from: nat, numColumns: nat): seq<CopyCall>
    decreases numColumns - from
  {
    if from >= numColumns then [] else [CopyCall(from, c.start, c.count)] + ChunkCalls(c, from + 1, numColumns)
  }

  /** Every chunk, every column: the order of the constructor's metric copy loops. */
  function ScheduleCalls(cs: seq<Chunk>, numColumns: nat): seq<CopyCall>
  {
    if |cs| == 0 then [] else ChunkCalls(cs[0], 0, numColumns) + ScheduleCalls(cs[1..], numColumns)
  }

  /** The schedule from `from` on starts with the chunk at `from`, for every column, then the rest. */
  lemma ScheduleStep(n: nat, size: nat, from: nat, numColumns: nat)
    requires size > 0 && from < n
    ensures var next := from + Min(size, n - from);
      ScheduleCalls(Chunks(n, size, from), numColumns)
      == ChunkCalls(Chunk(from, Min(size, n - from)), 0, numColumns) + ScheduleCalls(Chunks(n, size, next), numColumns)
  {
    var cs := Chunks(n, size, from);
    assert cs[0] == Chunk(from, Min(size, n - from));
    assert cs[1..] == Chunks(n, size, from + Min(size, n - from));
  }

  /**
   * A log that, followed by the schedule from `from` on, makes up `total`
   * still does so once the calls for the chunk at `from` are appended and
   * the schedule resumes after that chunk.
   */
  lemma ScheduleAdvance(log: seq<CopyCall>, total: seq<CopyCall>, n: nat, size: nat, from: nat, numColumns: nat)
    requires size > 0 && from < n
    requires log + ScheduleCalls(Chunks(n, size, from), numColumns) == total
    ensures var count := Min(size, n - from);
      (log + ChunkCalls(Chunk(from, count), 0, numColumns)) + ScheduleCalls(Chunks(n, size, from + count), numColumns) == total
  {
    ScheduleStep(n, size, from, numColumns);
  }

  /** How many calls of `calls` copy document `d` of column `col`. */
  function CallCoverCount(calls: seq<CopyCall>, col: nat, d: int): nat
  {
    if |calls| == 0 then 0
    else
      var here: nat := if calls[0].column == col && calls[0].start <= d < calls[0].start + calls[0].count then 1 else 0;
      here + CallCoverCount(calls[1..], col, d)
  }

  lemma {:induction false} CallCoverCountAppend(a: seq<CopyCall>, b: seq<CopyCall>, col: nat, d: int)
    ensures CallCoverCount(a + b, col, d) == CallCoverCount(a, col, d) + CallCoverCount(b, col, d)
  {
    if |a| == 0 {
      assert a + b == b;
    } else {
      assert (a + b)[0] == a[0];
      assert (a + b)[1..] == a[1..] + b;
      CallCoverCountAppend(a[1..], b, col, d);
    }
  }

  lemma {:induction false} ChunkCallsCover(c: Chunk, from: nat, numColumns: nat, col: nat, d: int)
    ensures CallCoverCount(ChunkCalls(c, from, numColumns), col, d)
      == if from <= col < numColumns && InChunk(c, d) then 1 else 0
    decreases numColumns - from
  {
    if from < numColumns {
      ChunkCallsCover(c, from + 1, numColumns, col, d);
    }
  }

  lemma {:induction false} ScheduleCallsCover(cs: seq<Chunk>, numColumns: nat, col: nat, d: int)
    ensures CallCoverCount(ScheduleCalls(cs, numColumns), col, d)
      == if col < numColumns then CoverCount(cs, d) else 0
  {
    if |cs| > 0 {
      CallCoverCountAppend(ChunkCalls(cs[0], 0, numColumns), ScheduleCalls(cs[1..], numColumns), col, d);
      ChunkCallsCover(cs[0], 0, numColumns, col, d);
      ScheduleCallsCover(cs[1..], numColumns, col, d);
    }
  }

  /** The metric copy schedule copies each document of each column exactly once, and nothing else. */
  lemma MetricScheduleExactlyOnce(n: nat, numColumns: nat, col: nat, d: int)
    ensures CallCoverCount(ScheduleCalls(Chunks(n, CHUNK_SIZE, 0), numColumns), col, d)
      == if col < numColumns && 0 <= d < n then 1 else 0
  {
    ScheduleCallsCover(Chunks(n, CHUNK_SIZE, 0), numColumns, col, d);
    ChunksPartition(n, CHUNK_SIZE, 0);
  }

  /** The document ids `start, start + 1, …, start + count - 1`. */
  function Range(start: int, count: nat): (r: seq<int>)
    ensures |r| == count && forall i :: 0 <= i < count ==> r[i] == start + i
  {
    seq(count, i requires 0 <= i < count => start + i)
  }

  predicate IdsIn(ids: seq<int>, n: int)
  {
    forall i :: 0 <= i < |ids| ==> 0 <= ids[i] < n
  }

  /** The values of `column` at `ids`, in the order of `ids`. */
  function Gather(column: seq<int>, ids: seq<int>): (r: seq<int>)
    requires IdsIn(ids, |column|)
    ensures |r| == |ids| && forall i :: 0 <= i < |ids| ==> r[i] == column[ids[i]]
  {
    seq(|ids|, i requires 0 <= i < |ids| => column[ids[i]])
  }

  /** Looking up a run of consecutive ids reads a slice of the column. */
  lemma GatherRange(column: seq<int>, start: nat, count: nat)
    requires start + count <= |column|
    ensures IdsIn(Range(start, count), |column|)
    ensures Gather(column, Range(start, count)) == column[start..start + count]
  {
  }

  /** `column` with [start, start + |vals|) replaced by `vals`. */
  function Splice(column: seq<int>, start: nat, vals: seq<int>): (r: seq<int>)
    requires start + |vals| <= |column|
    ensures |r| == |column|
    ensures forall d :: 0 <= d < |column| ==> r[d] == if start <= d < start + |vals| then vals[d - start] else column[d]
  {
    column[..start] + vals + column[start + |vals|..]
  }

  // ---------------------------------------------------------------------
  // Compaction of the per-term buffers

  /** Positions of `groups` whose group is not 0, in increasing order. */
  function KeptIndices(groups: seq<int>): seq<nat>
  {
    if |groups| == 0 then []
    else KeptIndices(groups[..|groups| - 1]) + (if groups[|groups| - 1] != 0 then [|groups| - 1] else [])
  }

  /** KeptIndices lists positions of `groups`, strictly increasing. */
  lemma {:induction false} KeptIndicesSorted(groups: seq<int>)
    ensures forall k :: 0 <= k < |KeptIndices(groups)| ==> KeptIndices(groups)[k] < |groups|
    ensures forall k, l :: 0 <= k < l < |KeptIndices(groups)| ==> KeptIndices(groups)[k] < KeptIndices(groups)[l]
  {
    if |groups| > 0 {
      KeptIndicesSorted(groups[..|groups| - 1]);
    }
  }

  /** A position is kept exactly when its group is nonzero. */
  lemma {:induction false} KeptIndicesExact(groups: seq<int>)
    ensures forall i :: i in KeptIndices(groups) <==> 0 <= i < |groups| && groups[i] != 0
  {
    if |groups| > 0 {
      var init := groups[..|groups| - 1];
      KeptIndicesExact(init);
      forall i
        ensures i in KeptIndices(groups) <==> 0 <= i < |groups| && groups[i] != 0
      {
        if 0 <= i < |init| {
          assert init[i] == groups[i];
        }
      }
    }
  }

  /**
   * There are as many kept positions as positions whose group is nonzero,
   * and never more than the positions read.
   */
  lemma {:induction false} KeptIndicesCount(groups: seq<int>)
    ensures |KeptIndices(groups)| == |set i | 0 <= i < |groups| && groups[i] != 0|
    ensures |KeptIndices(groups)| <= |groups|
  {
    if |groups| > 0 {
      var init := groups[..|groups| - 1];
      KeptIndicesCount(init);
      var before := set i | 0 <= i < |init| && init[i] != 0;
      var after := set i | 0 <= i < |groups| && groups[i] != 0;
      if groups[|groups| - 1] != 0 {
        assert after == before + {|groups| - 1};
      } else {
        assert after == before;
      }
    }
  }

  /** The elements of `s` at positions `idx`. */
  function Select(s: seq<int>, idx: seq<nat>): (r: seq<int>)
    requires forall k :: 0 <= k < |idx| ==> idx[k] < |s|
    ensures |r| == |idx| && forall k :: 0 <= k < |idx| ==> r[k] == s[idx[k]]
  {
    seq(|idx|, k requires 0 <= k < |idx| => s[idx[k]])
  }

  /** The groups that survive compaction are never 0. */
  lemma KeptGroupsNonzero(groups: seq<int>)
    ensures forall k :: 0 <= k < |KeptIndices(groups)| ==> KeptIndices(groups)[k] < |groups|
    ensures forall g :: g in Select(groups, KeptIndices(groups)) ==> g != 0
  {
    KeptIndicesSorted(groups);
    KeptIndicesExact(groups);
    var idx := KeptIndices(groups);
    forall g | g in Select(groups, idx)
      ensures g != 0
    {
      var k :| 0 <= k < |idx| && Select(groups, idx)[k] == g;
      assert idx[k] in idx;
    }
  }

  // ---------------------------------------------------------------------
  // Regroup step

  /** `GroupRemapRule`: documents of the rule's group go to `positiveGroup` when `condition` fails. */
  datatype RemapRule<C> = RemapRule(condition: C, positiveGroup: int, negativeGroup: int)

  /** The marker set and the contents of the remap buffer. */
  datatype RemapState = RemapState(marked: seq<bool>, remap: seq<int>)

  predicate RemapArgs<C>(ids: seq<int>, groups: seq<int>, marked: seq<bool>, remap: seq<int>,
                         rules: seq<Option<RemapRule<C>>>)
  {
    |ids| == |groups| <= |remap| && IdsIn(ids, |marked|) && IdsIn(groups, |rules|)
  }

  /** Whether position `i` moves its document to the rule's positive group, were it unmarked. */
  predicate Fires<C>(groups: seq<int>, rules: seq<Option<RemapRule<C>>>, holds: C -> bool, i: nat)
    requires i < |groups| && IdsIn(groups, |rules|)
  {
    rules[groups[i]].Some? && !holds(rules[groups[i]].value.condition)
  }

  /**
   * One `apply*ConditionsCallback` loop as written: positions are visited in
   * order; a position whose document is unmarked and whose rule fires gets
   * the positive group in its remap slot and marks its document; every other
   * slot keeps what it held.
   */
  function RemapStep<C>(ids: seq<int>, groups: seq<int>, marked: seq<bool>, remap: seq<int>,
                        rules: seq<Option<RemapRule<C>>>, holds: C -> bool): (r: RemapState)
    requires RemapArgs(ids, groups, marked, remap, rules)
    ensures |r.marked| == |marked| && |r.remap| == |remap|
    decreases |ids|
  {
    if |ids| == 0 then RemapState(marked, remap)
    else
      var i := |ids| - 1;
      var prev := RemapStep(ids[..i], groups[..i], marked, remap, rules, holds);
      if prev.marked[ids[i]] || !Fires(groups, rules, holds, i) then prev
      else RemapState(prev.marked[ids[i] := true], prev.remap[i := rules[groups[i]].value.positiveGroup])
  }

  /**
   * Markers are only ever set; a marker is set only for a document at some
   * position; remap slots beyond the positions read, and slots of documents
   * that were already marked, keep their contents.
   */
  lemma {:induction false} RemapStepFrame<C>(ids: seq<int>, groups: seq<int>, marked: seq<bool>, remap: seq<int>,
                                             rules: seq<Option<RemapRule<C>>>, holds: C -> bool)
    requires RemapArgs(ids, groups, marked, remap, rules)
    ensures var r := RemapStep(ids, groups, marked, remap, rules, holds);
      && (forall d :: 0 <= d < |marked| && marked[d] ==> r.marked[d])
      && (forall d :: 0 <= d < |marked| && d !in ids ==> r.marked[d] == marked[d])
      && (forall j :: |ids| <= j < |remap| ==> r.remap[j] == remap[j])
      && (forall j :: 0 <= j < |ids| && marked[ids[j]] ==> r.remap[j] == remap[j])
      && (forall j :: 0 <= j < |ids| && !Fires(groups, rules, holds, j) ==> r.remap[j] == remap[j])
    decreases |ids|
  {
    if |ids| > 0 {
      var i := |ids| - 1;
      RemapStepFrame(ids[..i], groups[..i], marked, remap, rules, holds);
      var prev := RemapStep(ids[..i], groups[..i], marked, remap, rules, holds);
      forall d | 0 <= d < |marked| && d !in ids
        ensures d !in ids[..i]
      {
        assert forall x :: x in ids[..i] ==> x in ids;
      }
      forall j | 0 <= j < i && !Fires(groups, rules, holds, j)
        ensures !Fires(groups[..i], rules, holds, j)
      {
      }
    }
  }

  /**
   * With distinct documents (a term's postings are strictly increasing), each
   * position is decided on its own: the document ends up marked exactly when
   * it was marked already or its rule fires, and its remap slot holds the
   * positive group exactly when the rule fired on an unmarked document;
   * otherwise the slot keeps what it held before the call.
   */
  lemma {:induction false} RemapStepAt<C>(ids: seq<int>, groups: seq<int>, marked: seq<bool>, remap: seq<int>,
                                          rules: seq<Option<RemapRule<C>>>, holds: C -> bool, j: nat)
    requires RemapArgs(ids, groups, marked, remap, rules)
    requires forall a, b :: 0 <= a < b < |ids| ==> ids[a] != ids[b]
    requires j < |ids|
    ensures var r := RemapStep(ids, groups, marked, remap, rules, holds);
      && (r.marked[ids[j]] <==> marked[ids[j]] || Fires(groups, rules, holds, j))
      && r.remap[j] == if !marked[ids[j]] && Fires(groups, rules, holds, j)
                       then rules[groups[j]].value.positiveGroup else remap[j]
    decreases |ids|
  {
    var i := |ids| - 1;
    var prev := RemapStep(ids[..i], groups[..i], marked, remap, rules, holds);
    if j < i {
      RemapStepAt(ids[..i], groups[..i], marked, remap, rules, holds, j);
      assert Fires(groups[..i], rules, holds, j) == Fires(groups, rules, holds, j);
    } else {
      RemapStepFrame(ids[..i], groups[..i], marked, remap, rules, holds);
      assert ids[i] !in ids[..i];
    }
  }

  /** `nativeUpdateGroups`: document `ids[i]` is given group `vals[i]`, in order of `i`. */
  function ApplyUpdates(table: seq<int>, ids: seq<int>, vals: seq<int>): (r: seq<int>)
    requires |ids| <= |vals| && IdsIn(ids, |table|)
    ensures |r| == |table|
    decreases |ids|
  {
    if |ids| == 0 then table
    else
      var i := |ids| - 1;
      ApplyUpdates(table, ids[..i], vals)[ids[i] := vals[i]]
  }

  /** With distinct documents, each listed document gets its own value and the others keep theirs. */
  lemma {:induction false} ApplyUpdatesAt(table: seq<int>, ids: seq<int>, vals: seq<int>, d: nat)
    requires |ids| <= |vals| && IdsIn(ids, |table|)
    requires forall a, b :: 0 <= a < b < |ids| ==> ids[a] != ids[b]
    requires d < |table|
    ensures d !in ids ==> ApplyUpdates(table, ids, vals)[d] == table[d]
    ensures forall j :: 0 <= j < |ids| && ids[j] == d ==> ApplyUpdates(table, ids, vals)[d] == vals[j]
    decreases |ids|
  {
    if |ids| > 0 {
      var i := |ids| - 1;
      ApplyUpdatesAt(table, ids[..i], vals, d);
      if d != ids[i] {
        assert d in ids[..i] ==> d in ids;
      }
    }
  }

  /**
   * As written, a document whose group has no rule still has its group
   * overwritten with whatever its remap slot last held.  Here a fresh,
   * zero-filled remap buffer moves document 0 out of group 1 into group 0.
   */
  lemma StaleRemapSlotIsWrittenBack()
    ensures var rules: seq<Option<RemapRule<bool>>> := [None, None];
      var r := RemapStep([0], [1], [false], [0], rules, (c: bool) => c);
      && r.remap == [0]
      && ApplyUpdates([1], [0], r.remap) == [0]
  {
    var rules: seq<Option<RemapRule<bool>>> := [None, None];
    var r := RemapStep([0], [1], [false], [0], rules, (c: bool) => c);
    var r0 := RemapStep([0][..0], [1][..0], [false], [0], rules, (c: bool) => c);
    assert r0 == RemapState([false], [0]);
    assert !Fires([1], rules, (c: bool) => c, 0);
    assert r == r0;
  }

  /**
   * The regroup step as evidently intended: a slot that is not remapped
   * carries the document's current group, so writing the buffer back leaves
   * that document where it was.  It is RemapStep over a buffer first filled
   * with the current groups.
   */
  function IntendedRemapStep<C>(ids: seq<int>, groups: seq<int>, marked: seq<bool>,
                                rules: seq<Option<RemapRule<C>>>, holds: C -> bool): RemapState
    requires RemapArgs(ids, groups, marked, groups, rules)
  {
    RemapStep(ids, groups, marked, groups, rules, holds)
  }

  /**
   * Under the intended step, with distinct documents whose groups were read
   * from `table`, writing the buffer back moves exactly the unmarked
   * documents whose rule fires to the positive group and leaves every other
   * document's group as it was.
   */
  lemma IntendedRemapKeepsSkipped<C>(table: seq<int>, ids: seq<int>, marked: seq<bool>,
                                     rules: seq<Option<RemapRule<C>>>, holds: C -> bool, j: nat)
    requires IdsIn(ids, |table|) && IdsIn(ids, |marked|) && IdsIn(table, |rules|)
    requires forall a, b :: 0 <= a < b < |ids| ==> ids[a] != ids[b]
    requires j < |ids|
    ensures IdsIn(Gather(table, ids), |rules|)
    ensures var groups := Gather(table, ids);
      var r := IntendedRemapStep(ids, groups, marked, rules, holds);
      ApplyUpdates(table, ids, r.remap)[ids[j]]
        == if !marked[ids[j]] && Fires(groups, rules, holds, j)
           then rules[table[ids[j]]].value.positiveGroup else table[ids[j]]
  {
    var groups := Gather(table, ids);
    var r := IntendedRemapStep(ids, groups, marked, rules, holds);
    RemapStepAt(ids, groups, marked, groups, rules, holds, j);
    ApplyUpdatesAt(table, ids, r.remap, ids[j]);
  }

  // ---------------------------------------------------------------------
  // Statistic columns

  /** `MultiCacheConfig.StatsOrderingInfo`: where packed column `i` comes from and how it is stored. */
  datatype StatsOrderingInfo = StatsOrderingInfo(
    originalOrder: int, min: int, max: int, sizeInBytes: int, vectorNum: int, offsetInVector: int)

  /** Every packed column names a distinct original statistic in [0, |ordering|). */
  predicate IsPermutation(ordering: seq<StatsOrderingInfo>)
  {
    && (forall i :: 0 <= i < |ordering| ==> 0 <= ordering[i].originalOrder < |ordering|)
    && (forall i, j :: 0 <= i < j < |ordering| ==> ordering[i].originalOrder != ordering[j].originalOrder)
  }

  /** Java's `(byte) i`. */
  function JavaByte(i: int): (b: int)
    ensures -128 <= b < 128
    ensures -128 <= i < 128 ==> b == i
  {
    (i + 128) % 256 - 128
  }

  /** The indices [0, n). */
  function Iota(n: nat): (s: set<int>)
    ensures forall x :: x in s <==> 0 <= x < n
  {
    if n == 0 then {} else Iota(n - 1) + {n - 1}
  }

  lemma {:induction false} IotaCard(n: nat)
    ensures |Iota(n)| == n
  {
    if n > 0 {
      IotaCard(n - 1);
    }
  }

  /** A set of indices below `n` has at most `n` elements. */
  lemma {:induction false} CardBelow(s: set<int>, n: nat)
    requires forall x :: x in s ==> 0 <= x < n
    ensures |s| <= n
  {
    assert s <= Iota(n);
    IotaCard(n);
    assert |s| <= |Iota(n)| by {
      var rest := Iota(n) - s;
      assert Iota(n) == s + rest;
    }
  }

  function OriginalOrders(ordering: seq<StatsOrderingInfo>, k: nat): set<int>
    requires k <= |ordering|
  {
    set i | 0 <= i < k :: ordering[i].originalOrder
  }

  lemma {:induction false} OriginalOrdersCard(ordering: seq<StatsOrderingInfo>, k: nat)
    requires IsPermutation(ordering) && k <= |ordering|
    ensures |OriginalOrders(ordering, k)| == k
  {
    if k > 0 {
      OriginalOrdersCard(ordering, k - 1);
      var prev := OriginalOrders(ordering, k - 1);
      assert OriginalOrders(ordering, k) == prev + {ordering[k - 1].originalOrder};
      assert ordering[k - 1].originalOrder !in prev;
    }
  }

  /**
   * Each original statistic index in [0, |ordering|) is the origin of
   * exactly one packed column, so filling slot `originalOrder` for every
   * column leaves no slot empty.
   */
  lemma OrderingOnto(ordering: seq<StatsOrderingInfo>, j: int)
    requires IsPermutation(ordering) && 0 <= j < |ordering|
    ensures exists col :: 0 <= col < |ordering| && ordering[col].originalOrder == j
  {
    var n := |ordering|;
    var image := OriginalOrders(ordering, n);
    OriginalOrdersCard(ordering, n);
    if j !in image {
      CardBelow(image + {j}, n);
      assert false;
    }
  }

  /**
   * With at most 128 statistics the `(byte)` cast is exact, so the slot
   * table `originalOrder[ordering[i].originalOrder] = (byte) i` is the
   * inverse of the column ordering: slot j names the column holding
   * statistic j.
   */
  lemma OriginalOrderInverse(ordering: seq<StatsOrderingInfo>, slots: seq<int>)
    requires IsPermutation(ordering) && |ordering| <= 128 && |slots| == |ordering|
    requires forall i :: 0 <= i < |ordering| ==> slots[ordering[i].originalOrder] == JavaByte(i)
    ensures forall j :: 0 <= j < |ordering| ==> 0 <= slots[j] < |ordering| && ordering[slots[j]].originalOrder == j
  {
    forall j | 0 <= j < |ordering|
      ensures 0 <= slots[j] < |ordering| && ordering[slots[j]].originalOrder == j
    {
      OrderingOnto(ordering, j);
      var col :| 0 <= col < |ordering| && ordering[col].originalOrder == j;
      assert slots[j] == JavaByte(col) == col;
    }
  }

  /** Extending the positions read by one adds that position when its group is nonzero. */
  lemma KeptIndicesExtend(groups: seq<int>, i: nat)
    requires i < |groups|
    ensures KeptIndices(groups[..i + 1]) == KeptIndices(groups[..i]) + (if groups[i] != 0 then [i] else [])
    ensures forall k :: 0 <= k < |KeptIndices(groups[..i])| ==> KeptIndices(groups[..i])[k] < i
  {
    assert groups[..i + 1][..i] == groups[..i];
    KeptIndicesSorted(groups[..i]);
  }

  /** The native layout arguments `buildCache` passes to the table builder. */
  datatype NativeLayout = NativeLayout(
    mins: seq<int>, maxes: seq<int>, sizesInBytes: seq<int>, vectorNums: seq<int>,
    offsetsInVectors: seq<int>, originalOrder: seq<int>)
}
