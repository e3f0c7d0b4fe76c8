/**
 * The per-shard group/metric table (`MultiCache`) and the lookups it hands
 * out.  The packed native table is represented by its contents: `groups`,
 * the group of every document, and `metrics`, one column of values per
 * packed statistic.  The native allocator is a `NativeHeap` that records
 * which tables exist and every destroy call made.
 *
 * The session's buffers (`docIdBuf`, `docGroupBuffer`) live in
 * `SessionBuffers`; the statistic sources, the group source and the regroup
 * conditions are inputs (sequences and predicates), since their code is not
 * part of this model.
 */
module MultiCache {
  import opened Wrappers
  import opened Decimal
  import opened MultiCacheSpec

  datatype ImhotepError = OutOfMemory | IllegalArgument(message: string)

  datatype Outcome = Pass | Fail(error: ImhotepError)

  /** The arguments one call of `updateGroupStatsDocIdBuf` receives. */
  datatype StatUpdate = StatUpdate(statIndex: nat, groups: seq<int>, docIds: seq<int>)

  /** A freshly built native table holds zeros. */
  function Zeros(n: nat): (r: seq<int>)
    ensures |r| == n
  {
    if n == 0 then [] else Zeros(n - 1) + [0]
  }

  function ZeroColumns(m: nat, n: nat): (r: seq<seq<int>>)
    ensures |r| == m && forall c :: 0 <= c < m ==> |r[c]| == n
  {
    if m == 0 then [] else ZeroColumns(m - 1, n) + [Zeros(n)]
  }

  function AsSet(s: seq<int>): set<int>
  {
    set x | x in s
  }

  /**
   * `IntValueLookup.lookup`, `nativeMetricLookup` and `nativeFillGroupsBuffer`
   * alike: `out[i]` receives the value of document `ids[i]`, for i < n.
   */
  method GatherInto(column: seq<int>, ids: array<int>, out: array<int>, n: nat)
    requires n <= ids.Length && n <= out.Length && ids != out
    requires IdsIn(ids[..n], |column|)
    modifies out
    ensures out[..n] == Gather(column, ids[..n])
    ensures forall j :: n <= j < out.Length ==> out[j] == old(out[j])
  {
    for i := 0 to n
      invariant forall j :: 0 <= j < i ==> out[j] == column[ids[j]]
      invariant forall j :: n <= j < out.Length ==> out[j] == old(out[j])
    {
      assert ids[..n][i] == ids[i];
      out[i] := column[ids[i]];
    }
  }

  /**
   * The compaction loop of `nextGroupCallback`: positions whose group in
   * `groupsBuffer` is nonzero are moved, in order, to the front of
   * `docIdBuf` and `docGroupBuffer`.
   */
  method CompactNonzero(docIdBuf: array<int>, docGroupBuffer: array<int>, groupsBuffer: array<int>, n: nat)
    returns (rewriteHead: nat)
    requires n <= docIdBuf.Length && n <= docGroupBuffer.Length && n <= groupsBuffer.Length
    requires docIdBuf != docGroupBuffer && groupsBuffer != docIdBuf && groupsBuffer != docGroupBuffer
    modifies docIdBuf, docGroupBuffer
    ensures var keep := KeptIndices(groupsBuffer[..n]);
      && rewriteHead == |keep| <= n
      && (forall k :: 0 <= k < |keep| ==> keep[k] < n)
      && docIdBuf[..rewriteHead] == Select(old(docIdBuf[..n]), keep)
      && docGroupBuffer[..rewriteHead] == Select(groupsBuffer[..n], keep)
    ensures forall k :: 0 <= k < rewriteHead ==> docGroupBuffer[k] != 0
    ensures forall j :: rewriteHead <= j < docIdBuf.Length ==> docIdBuf[j] == old(docIdBuf[j])
    ensures forall j :: rewriteHead <= j < docGroupBuffer.Length ==> docGroupBuffer[j] == old(docGroupBuffer[j])
  {
    ghost var ids := docIdBuf[..n];
    ghost var grps := groupsBuffer[..n];
    ghost var keep: seq<nat> := [];
    rewriteHead := 0;
    for i := 0 to n
      invariant keep == KeptIndices(grps[..i])
      invariant rewriteHead == |keep| <= i
      invariant forall k :: 0 <= k < rewriteHead ==>
        && keep[k] < i && docIdBuf[k] == ids[keep[k]] && docGroupBuffer[k] == grps[keep[k]] && docGroupBuffer[k] != 0
      invariant forall j :: rewriteHead <= j < docIdBuf.Length ==> docIdBuf[j] == old(docIdBuf[j])
      invariant forall j :: rewriteHead <= j < docGroupBuffer.Length ==> docGroupBuffer[j] == old(docGroupBuffer[j])
    {
      KeptIndicesExtend(grps, i);
      var group := groupsBuffer[i];
      if group == 0 {
        continue;
      }
      var docId := docIdBuf[i];
      assert docId == ids[i];
      docGroupBuffer[rewriteHead] := group;
      docIdBuf[rewriteHead] := docId;
      rewriteHead := rewriteHead + 1;
      keep := keep + [i];
    }
    assert grps[..n] == grps;
    assert docIdBuf[..rewriteHead] == Select(ids, keep);
    assert docGroupBuffer[..rewriteHead] == Select(grps, keep);
  }

  /**
   * The marking loop of the conditions callbacks: at each position, in
   * order, a document not yet remapped whose group's rule exists and whose
   * condition does not hold gets the rule's positive group in the remap
   * buffer and is marked remapped.
   */
  method MarkRemapped<C>(docIdBuf: array<int>, groupsBuffer: array<int>, remapBuffer: array<int>,
                         docRemapped: array<bool>, n: nat, remapRules: seq<Option<RemapRule<C>>>, holds: C -> bool)
    requires n <= docIdBuf.Length && n <= groupsBuffer.Length && n <= remapBuffer.Length
    requires docIdBuf != remapBuffer && groupsBuffer != remapBuffer
    requires IdsIn(docIdBuf[..n], docRemapped.Length) && IdsIn(groupsBuffer[..n], |remapRules|)
    modifies remapBuffer, docRemapped
    ensures var r := RemapStep(docIdBuf[..n], groupsBuffer[..n], old(docRemapped[..]), old(remapBuffer[..]), remapRules, holds);
      docRemapped[..] == r.marked && remapBuffer[..] == r.remap
  {
    ghost var ids := docIdBuf[..n];
    ghost var grps := groupsBuffer[..n];
    ghost var marked0 := docRemapped[..];
    ghost var remap0 := remapBuffer[..];
    for i := 0 to n
      invariant docRemapped[..] == RemapStep(ids[..i], grps[..i], marked0, remap0, remapRules, holds).marked
      invariant remapBuffer[..] == RemapStep(ids[..i], grps[..i], marked0, remap0, remapRules, holds).remap
    {
      assert ids[..i + 1][..i] == ids[..i] && grps[..i + 1][..i] == grps[..i];
      assert ids[i] == docIdBuf[i] && grps[i] == groupsBuffer[i];
      var docId := docIdBuf[i];
      if docRemapped[docId] {
        continue;
      }
      var group := groupsBuffer[i];
      if remapRules[group].None? {
        continue;
      }
      if holds(remapRules[group].value.condition) {
        continue;
      }
      remapBuffer[i] := remapRules[group].value.positiveGroup;
      docRemapped[docId] := true;
    }
    assert ids[..n] == ids && grps[..n] == grps;
  }

  /** The native allocator: live tables, the next handle to hand out, and every destroy call. */
  class NativeHeap {
    var nextHandle: int
    var live: set<int>
    var destroyCalls: seq<int>

    ghost predicate Valid()
      reads this
    {
      nextHandle > 0 && forall h :: h in live ==> 0 < h < nextHandle
    }

    constructor ()
      ensures Valid() && live == {} && destroyCalls == []
    {
      nextHandle := 1;
      live := {};
      destroyCalls := [];
    }

    /** `nativeBuildMultiCache`: a fresh, nonzero handle. */
    method Build() returns (h: int)
      requires Valid()
      modifies this
      ensures Valid()
      ensures h != 0 && h !in old(live) && h == old(nextHandle)
      ensures live == old(live) + {h} && destroyCalls == old(destroyCalls)
    {
      h := nextHandle;
      nextHandle := nextHandle + 1;
      live := live + {h};
    }

    /** `nativeDestroyMultiCache(h)`. */
    method Destroy(h: int)
      requires Valid()
      modifies this
      ensures Valid()
      ensures live == old(live) - {h} && destroyCalls == old(destroyCalls) + [h]
      ensures nextHandle == old(nextHandle)
    {
      live := live - {h};
      destroyCalls := destroyCalls + [h];
    }
  }

  /** The buffers of the owning `ImhotepLocalSession` that the group lookup rewrites. */
  class SessionBuffers {
    const docIdBuf: array<int>
    const docGroupBuffer: array<int>
    const numStats: nat

    constructor (bufferSize: nat, numStats: nat)
      ensures fresh(docIdBuf) && fresh(docGroupBuffer)
      ensures docIdBuf.Length == bufferSize && docGroupBuffer.Length == bufferSize
      ensures this.numStats == numStats
    {
      docIdBuf := new int[bufferSize](_ => 0);
      docGroupBuffer := new int[bufferSize](_ => 0);
      this.numStats := numStats;
    }
  }

  /** Any other group lookup, seen through `size()`, `set()` and `numGroups`. */
  class ArrayGroupLookup {
    const docIdToGroup: array<int>
    var numGroups: int

    constructor (size: nat)
      ensures fresh(docIdToGroup) && docIdToGroup.Length == size && numGroups == 0
    {
      docIdToGroup := new int[size](_ => 0);
      numGroups := 0;
    }

    function Size(): nat
      reads this
    {
      docIdToGroup.Length
    }

    method Set(doc: nat, group: int)
      requires doc < docIdToGroup.Length
      modifies docIdToGroup
      ensures docIdToGroup[..] == old(docIdToGroup[..])[doc := group]
    {
      docIdToGroup[doc] := group;
    }
  }

  class MultiCache {
    const numDocsInShard: nat
    const numStats: nat
    const ordering: seq<StatsOrderingInfo>
    const session: SessionBuffers
    const heap: NativeHeap
    /** `ImhotepLocalSession.BUFFER_SIZE`. */
    const bufferSize: nat
    /** What `buildCache` handed to the native table builder. */
    const layout: NativeLayout
    const copyValuesIdBuffer: array<int>
    const copyValuesBuffer: array<int>

    var nativeShardDataPtr: int
    /** Contents of the native table: the group of each document. */
    var groups: seq<int>
    /** Contents of the native table: packed column `c` holds `metrics[c][doc]`. */
    var metrics: seq<seq<int>>
    var closedLookupCount: int
    /** `nativeMetricLookups`, indexed by original statistic order. */
    var metricLookups: seq<MetricLookup?>
    var groupLookup: MultiCacheGroupLookup?

    /** The original indices of the metric lookups closed so far. */
    ghost var closedSet: set<int>
    /** The `copyGroups` blocks, in the order they were copied. */
    ghost var groupCopyLog: seq<Chunk>
    /** The `copyValues` calls of the constructor, in the order they were made. */
    ghost var metricCopyLog: seq<CopyCall>

    /** The table, its buffers and the native handle. */
    ghost predicate Storage()
      reads this, groupLookup, heap
    {
      Buffers() && Tables() && HeapOk()
    }

    /** The group column and the buffers the group lookup and the session share. */
    ghost predicate Buffers()
      reads this, groupLookup
    {
      && |groups| == numDocsInShard
      && bufferSize > 0
      && groupLookup != null && groupLookup.owner == this
      && groupLookup.groupsBuffer.Length == bufferSize && groupLookup.remapBuffer.Length == bufferSize
      && groupLookup.groupsBuffer != groupLookup.remapBuffer
      && session.docIdBuf != session.docGroupBuffer
      && groupLookup.groupsBuffer != session.docIdBuf && groupLookup.groupsBuffer != session.docGroupBuffer
      && groupLookup.remapBuffer != session.docIdBuf && groupLookup.remapBuffer != session.docGroupBuffer
    }

    /** The column ordering and the packed metric columns. */
    ghost predicate Tables()
      reads this
    {
      && |ordering| == numStats && IsPermutation(ordering)
      && |metrics| == numStats && (forall c :: 0 <= c < numStats ==> |metrics[c]| == numDocsInShard)
      && copyValuesIdBuffer.Length == CHUNK_SIZE && copyValuesBuffer.Length == CHUNK_SIZE
      && copyValuesIdBuffer != copyValuesBuffer
    }

    /** The table pointer is 0 (closed) or a live native table. */
    ghost predicate HeapOk()
      reads this, heap
    {
      heap.Valid() && (nativeShardDataPtr != 0 ==> nativeShardDataPtr in heap.live)
    }

    /** Everything except the bookkeeping of closed metric lookups. */
    ghost predicate Structure()
      reads this, groupLookup, heap
    {
      && Storage()
      && |metricLookups| == numStats
      && (forall j :: 0 <= j < numStats ==>
            && metricLookups[j] != null && metricLookups[j].owner == this
            && metricLookups[j].index < numStats
            && ordering[metricLookups[j].index].originalOrder == j
            && metricLookups[j].min == ordering[metricLookups[j].index].min
            && metricLookups[j].max == ordering[metricLookups[j].index].max)
    }

    /**
     * `closedLookupCount` counts the closed metric lookups, except possibly
     * the one in slot `pending`, which is being closed right now.
     */
    ghost predicate ClosedAccounting(pending: int)
      reads this, metricLookups
      requires |metricLookups| == numStats && forall j :: 0 <= j < numStats ==> metricLookups[j] != null
    {
      && (forall j :: 0 <= j < numStats && j != pending ==> (metricLookups[j].closed <==> j in closedSet))
      && pending !in closedSet
      && (forall j :: j in closedSet ==> 0 <= j < numStats)
      && closedLookupCount == |closedSet|
    }

    ghost predicate Valid()
      reads this, groupLookup, heap, metricLookups
    {
      Structure() && ClosedAccounting(-1)
    }

    /** The metric lookup `l` is the one this table handed out for its column. */
    ghost predicate Owns(l: MetricLookup)
      reads this, groupLookup, heap
      requires Structure()
    {
      l.index < numStats && metricLookups[ordering[l.index].originalOrder] == l
    }

    /**
     * `buildCache`: the per-column layout arrays, in packed column order,
     * and `originalOrder[ordering[i].originalOrder] = (byte) i`, which for
     * up to 128 statistics is the inverse of the column ordering.
     */
    static method BuildCache(ordering: seq<StatsOrderingInfo>) returns (layout: NativeLayout)
      requires IsPermutation(ordering)
      ensures |layout.mins| == |layout.maxes| == |layout.sizesInBytes| == |ordering|
      ensures |layout.vectorNums| == |layout.offsetsInVectors| == |layout.originalOrder| == |ordering|
      ensures forall i :: 0 <= i < |ordering| ==>
        && layout.mins[i] == ordering[i].min && layout.maxes[i] == ordering[i].max
        && layout.sizesInBytes[i] == ordering[i].sizeInBytes && layout.vectorNums[i] == ordering[i].vectorNum
        && layout.offsetsInVectors[i] == ordering[i].offsetInVector
        && layout.originalOrder[ordering[i].originalOrder] == JavaByte(i)
      ensures |ordering| <= 128 ==> forall j :: 0 <= j < |ordering| ==>
        0 <= layout.originalOrder[j] < |ordering| && ordering[layout.originalOrder[j]].originalOrder == j
    {
      var count := |ordering|;
      var mins, maxes, sizesInBytes, vectorNums, offsetsInVectors := [], [], [], [], [];
      var originalOrder := Zeros(count);
      for i := 0 to count
        invariant |mins| == |maxes| == |sizesInBytes| == |vectorNums| == |offsetsInVectors| == i
        invariant |originalOrder| == count
        invariant forall c :: 0 <= c < i ==>
          && mins[c] == ordering[c].min && maxes[c] == ordering[c].max
          && sizesInBytes[c] == ordering[c].sizeInBytes && vectorNums[c] == ordering[c].vectorNum
          && offsetsInVectors[c] == ordering[c].offsetInVector
        invariant forall c :: 0 <= c < i ==> originalOrder[ordering[c].originalOrder] == JavaByte(c)
      {
        var orderInfo := ordering[i];
        mins := mins + [orderInfo.min];
        maxes := maxes + [orderInfo.max];
        sizesInBytes := sizesInBytes + [orderInfo.sizeInBytes];
        vectorNums := vectorNums + [orderInfo.vectorNum];
        offsetsInVectors := offsetsInVectors + [orderInfo.offsetInVector];
        originalOrder := originalOrder[orderInfo.originalOrder := JavaByte(i)];
      }
      layout := NativeLayout(mins, maxes, sizesInBytes, vectorNums, offsetsInVectors, originalOrder);
      if count <= 128 {
        OriginalOrderInverse(ordering, layout.originalOrder);
      }
    }

    /**
     * The `MultiCache` constructor.  The native table is built first; the
     * group lookup then claims 2 * 4 * BUFFER_SIZE bytes and, when the claim
     * is refused, construction fails with OutOfMemory, leaving the table
     * built but never destroyed.  Otherwise groups and metric values are
     * copied in from their sources.
     */
    static method New(session: SessionBuffers, numDocsInShard: nat, ordering: seq<StatsOrderingInfo>,
                      onlyBinaryMetrics: bool, stats: seq<seq<int>>, sourceGroups: seq<int>, sourceNumGroups: int,
                      claimMemory: int -> bool, heap: NativeHeap, bufferSize: nat)
      returns (r: Result<MultiCache, ImhotepError>)
      requires heap.Valid() && IsPermutation(ordering)
      requires |stats| == |ordering| && forall j :: 0 <= j < |stats| ==> |stats[j]| == numDocsInShard
      requires |sourceGroups| == numDocsInShard && bufferSize > 0
      requires session.docIdBuf != session.docGroupBuffer
      modifies heap
      ensures heap.Valid() && heap.destroyCalls == old(heap.destroyCalls)
      ensures heap.live == old(heap.live) + {old(heap.nextHandle)}
      ensures !claimMemory(2 * 4 * bufferSize) ==> r == Err(OutOfMemory)
      ensures claimMemory(2 * 4 * bufferSize) ==>
        && r.Ok? && fresh(r.value) && r.value.Valid()
        && r.value.nativeShardDataPtr == old(heap.nextHandle)
        && r.value.ordering == ordering && r.value.numStats == |ordering| && r.value.bufferSize == bufferSize
        && r.value.groups == sourceGroups && r.value.groupLookup.numGroups == sourceNumGroups
        && (forall c :: 0 <= c < |ordering| ==> r.value.metrics[c] == stats[ordering[c].originalOrder])
        && (forall j :: 0 <= j < |ordering| ==> r.value.metrics[r.value.metricLookups[j].index] == stats[j])
        && r.value.closedLookupCount == 0
        && r.value.groupCopyLog == Chunks(numDocsInShard, BLOCK_COPY_SIZE, 0)
        && r.value.metricCopyLog == ScheduleCalls(Chunks(numDocsInShard, CHUNK_SIZE, 0), |ordering|)
    {
      var layout := BuildCache(ordering);
      var handle := heap.Build();
      if !claimMemory(2 * 4 * bufferSize) {
        return Err(OutOfMemory);
      }
      var cache := new MultiCache(session, numDocsInShard, ordering, stats, sourceGroups, sourceNumGroups,
                                  heap, handle, layout, bufferSize);
      forall j | 0 <= j < |ordering|
        ensures cache.metrics[cache.metricLookups[j].index] == stats[j]
      {
        var col := cache.metricLookups[j].index;
        assert cache.metrics[col] == stats[ordering[col].originalOrder];
      }
      return Ok(cache);
    }

    /** The part of the constructor that runs once the memory claim succeeded. */
    constructor (session: SessionBuffers, numDocsInShard: nat, ordering: seq<StatsOrderingInfo>,
                 stats: seq<seq<int>>, sourceGroups: seq<int>, sourceNumGroups: int,
                 heap: NativeHeap, handle: int, layout: NativeLayout, bufferSize: nat)
      requires heap.Valid() && handle in heap.live && IsPermutation(ordering)
      requires |stats| == |ordering| && forall j :: 0 <= j < |stats| ==> |stats[j]| == numDocsInShard
      requires |sourceGroups| == numDocsInShard && bufferSize > 0
      requires session.docIdBuf != session.docGroupBuffer
      ensures Valid() && fresh(groupLookup)
      ensures this.session == session && this.heap == heap && this.numDocsInShard == numDocsInShard
      ensures this.ordering == ordering && numStats == |ordering| && this.bufferSize == bufferSize
      ensures nativeShardDataPtr == handle && closedLookupCount == 0
      ensures groups == sourceGroups && groupLookup.numGroups == sourceNumGroups
      ensures forall c :: 0 <= c < numStats ==> metrics[c] == stats[ordering[c].originalOrder]
      ensures groupCopyLog == Chunks(numDocsInShard, BLOCK_COPY_SIZE, 0)
      ensures metricCopyLog == ScheduleCalls(Chunks(numDocsInShard, CHUNK_SIZE, 0), numStats)
    {
      this.session := session;
      this.numDocsInShard := numDocsInShard;
      this.numStats := |ordering|;
      this.ordering := ordering;
      this.heap := heap;
      this.bufferSize := bufferSize;
      this.layout := layout;
      this.nativeShardDataPtr := handle;
      this.groups := Zeros(numDocsInShard);
      this.metrics := ZeroColumns(|ordering|, numDocsInShard);
      this.copyValuesIdBuffer := new int[CHUNK_SIZE];
      this.copyValuesBuffer := new int[CHUNK_SIZE];
      this.closedLookupCount := 0;
      this.metricLookups := [];
      this.groupLookup := null;
      this.closedSet := {};
      this.groupCopyLog := [];
      this.metricCopyLog := [];
      new;
      groupLookup := new MultiCacheGroupLookup(this, bufferSize);
      Populate(stats, sourceGroups, sourceNumGroups);
    }

    /** The constructor's copies and lookups, once the group lookup exists. */
    method Populate(stats: seq<seq<int>>, sourceGroups: seq<int>, sourceNumGroups: int)
      requires Buffers() && Tables() && HeapOk()
      requires |stats| == numStats && forall j :: 0 <= j < numStats ==> |stats[j]| == numDocsInShard
      requires |sourceGroups| == numDocsInShard
      requires closedSet == {} && closedLookupCount == 0
      modifies this`groups, this`groupCopyLog, groupLookup`numGroups, this`metrics, this`metricCopyLog
      modifies copyValuesIdBuffer, copyValuesBuffer, this`metricLookups
      ensures Valid()
      ensures groups == sourceGroups && groupLookup.numGroups == sourceNumGroups
      ensures forall c :: 0 <= c < numStats ==> metrics[c] == stats[ordering[c].originalOrder]
      ensures groupCopyLog == Chunks(numDocsInShard, BLOCK_COPY_SIZE, 0)
      ensures metricCopyLog == ScheduleCalls(Chunks(numDocsInShard, CHUNK_SIZE, 0), numStats)
    {
      CopyGroups(sourceGroups, sourceNumGroups);
      CopyAllMetrics(stats);
      CreateMetricLookups();
    }

    /** The constructor's lookup loop: one open lookup per column, stored at its original statistic index. */
    method CreateMetricLookups()
      requires Storage() && closedSet == {} && closedLookupCount == 0
      modifies this`metricLookups
      ensures Valid()
      ensures |metricLookups| == numStats
      ensures forall j :: 0 <= j < numStats ==>
        && metricLookups[j] != null && fresh(metricLookups[j]) && metricLookups[j].owner == this
        && !metricLookups[j].closed && metricLookups[j].index < numStats
        && ordering[metricLookups[j].index].originalOrder == j
        && metricLookups[j].min == ordering[metricLookups[j].index].min
        && metricLookups[j].max == ordering[metricLookups[j].index].max
      ensures ClosedAccounting(-1)
    {
      var slots := new MetricLookup?[numStats](_ => null);
      for col := 0 to numStats
        modifies slots
        invariant forall j :: 0 <= j < numStats && slots[j] != null ==>
          && fresh(slots[j]) && slots[j].owner == this && !slots[j].closed
          && slots[j].index < col && ordering[slots[j].index].originalOrder == j
          && slots[j].min == ordering[slots[j].index].min && slots[j].max == ordering[slots[j].index].max
        invariant forall c :: 0 <= c < col ==> slots[ordering[c].originalOrder] != null
      {
        var orderInfo := ordering[col];
        var metricLookup := new MetricLookup(this, col, orderInfo.min, orderInfo.max);
        slots[orderInfo.originalOrder] := metricLookup;
      }
      forall j | 0 <= j < numStats
        ensures slots[j] != null
      {
        OrderingOnto(ordering, j);
      }
      metricLookups := slots[..];
    }

    /** `copyGroups`: blocks of BLOCK_COPY_SIZE documents, then the source's group count. */
    method CopyGroups(sourceGroups: seq<int>, sourceNumGroups: int)
      requires |sourceGroups| == numDocsInShard == |groups| && groupLookup != null
      modifies this`groups, this`groupCopyLog, groupLookup`numGroups
      ensures groups == sourceGroups && groupLookup.numGroups == sourceNumGroups
      ensures groupCopyLog == Chunks(numDocsInShard, BLOCK_COPY_SIZE, 0)
    {
      var groupBuffer := new int[BLOCK_COPY_SIZE](_ => 0);
      groupCopyLog := [];
      var start := 0;
      while start < numDocsInShard
        invariant |groups| == numDocsInShard
        invariant groupCopyLog + Chunks(numDocsInShard, BLOCK_COPY_SIZE, start) == Chunks(numDocsInShard, BLOCK_COPY_SIZE, 0)
        invariant forall d :: 0 <= d < numDocsInShard && d < start ==> groups[d] == sourceGroups[d]
      {
        var end := Min(numDocsInShard, start + BLOCK_COPY_SIZE);
        var n := end - start;
        // original.fillDocGrpBufferSequential(start, groupBuffer, n)
        for i := 0 to n
          modifies groupBuffer
          invariant forall j :: 0 <= j < i ==> groupBuffer[j] == sourceGroups[start + j]
        {
          groupBuffer[i] := sourceGroups[start + i];
        }
        // nativeSetGroupsInRange(ptr, start, n, groupBuffer)
        groups := Splice(groups, start, groupBuffer[..n]);
        assert Chunks(numDocsInShard, BLOCK_COPY_SIZE, start)
          == [Chunk(start, n)] + Chunks(numDocsInShard, BLOCK_COPY_SIZE, start + BLOCK_COPY_SIZE);
        groupCopyLog := groupCopyLog + [Chunk(start, n)];
        start := start + BLOCK_COPY_SIZE;
      }
      assert Chunks(numDocsInShard, BLOCK_COPY_SIZE, start) == [];
      groupLookup.numGroups := sourceNumGroups;
    }

    /**
     * `copyValues`: the id buffer is filled with `start, …, start + count - 1`,
     * the source is asked for those documents' values, and they are packed
     * into column `metricId` at [start, start + count).
     */
    method CopyValues(original: seq<int>, start: nat, count: nat, metricId: nat)
      requires count <= CHUNK_SIZE && start + count <= numDocsInShard && |original| == numDocsInShard
      requires metricId < |metrics| && |metrics[metricId]| == numDocsInShard
      requires copyValuesIdBuffer.Length == CHUNK_SIZE && copyValuesBuffer.Length == CHUNK_SIZE
      requires copyValuesIdBuffer != copyValuesBuffer
      modifies this`metrics, copyValuesIdBuffer, copyValuesBuffer
      ensures copyValuesIdBuffer[..count] == Range(start, count)
      ensures metrics == old(metrics)[metricId := Splice(old(metrics[metricId]), start, original[start..start + count])]
    {
      for i := 0 to count
        modifies copyValuesIdBuffer
        invariant forall j :: 0 <= j < i ==> copyValuesIdBuffer[j] == start + j
      {
        copyValuesIdBuffer[i] := start + i;
      }
      assert copyValuesIdBuffer[..count] == Range(start, count);
      GatherRange(original, start, count);
      GatherInto(original, copyValuesIdBuffer, copyValuesBuffer, count);
      // nativePackMetricDataInRange(ptr, metricId, start, count, copyValuesBuffer)
      metrics := metrics[metricId := Splice(metrics[metricId], start, copyValuesBuffer[..count])];
    }

    /** The inner loop of the constructor: chunk [row, row + count) of every column. */
    method CopyChunk(stats: seq<seq<int>>, row: nat, count: nat)
      requires |ordering| == numStats && IsPermutation(ordering)
      requires |stats| == numStats && forall j :: 0 <= j < numStats ==> |stats[j]| == numDocsInShard
      requires |metrics| == numStats && forall c :: 0 <= c < numStats ==> |metrics[c]| == numDocsInShard
      requires count <= CHUNK_SIZE && row + count <= numDocsInShard
      requires forall c, d :: 0 <= c < numStats && 0 <= d < row ==> metrics[c][d] == stats[ordering[c].originalOrder][d]
      requires copyValuesIdBuffer.Length == CHUNK_SIZE && copyValuesBuffer.Length == CHUNK_SIZE
      requires copyValuesIdBuffer != copyValuesBuffer
      modifies this`metrics, this`metricCopyLog, copyValuesIdBuffer, copyValuesBuffer
      ensures |metrics| == numStats && forall c :: 0 <= c < numStats ==> |metrics[c]| == numDocsInShard
      ensures forall c, d :: 0 <= c < numStats && 0 <= d < row + count ==> metrics[c][d] == stats[ordering[c].originalOrder][d]
      ensures metricCopyLog == old(metricCopyLog) + ChunkCalls(Chunk(row, count), 0, numStats)
    {
      for col := 0 to numStats
        invariant |metrics| == numStats && forall c :: 0 <= c < numStats ==> |metrics[c]| == numDocsInShard
        invariant forall c, d :: 0 <= c < col && 0 <= d < row + count ==> metrics[c][d] == stats[ordering[c].originalOrder][d]
        invariant forall c, d :: col <= c < numStats && 0 <= d < row ==> metrics[c][d] == stats[ordering[c].originalOrder][d]
        invariant metricCopyLog + ChunkCalls(Chunk(row, count), col, numStats)
          == old(metricCopyLog) + ChunkCalls(Chunk(row, count), 0, numStats)
      {
        var orderInfo := ordering[col];
        CopyValues(stats[orderInfo.originalOrder], row, count, col);
        assert ChunkCalls(Chunk(row, count), col, numStats)
          == [CopyCall(col, row, count)] + ChunkCalls(Chunk(row, count), col + 1, numStats);
        metricCopyLog := metricCopyLog + [CopyCall(col, row, count)];
      }
    }

    /**
     * The constructor's metric copy: full CHUNK_SIZE chunks while a full
     * chunk still leaves documents after it, then the remaining tail chunk.
     */
    method CopyAllMetrics(stats: seq<seq<int>>)
      requires |ordering| == numStats && IsPermutation(ordering)
      requires |stats| == numStats && forall j :: 0 <= j < numStats ==> |stats[j]| == numDocsInShard
      requires |metrics| == numStats && forall c :: 0 <= c < numStats ==> |metrics[c]| == numDocsInShard
      requires copyValuesIdBuffer.Length == CHUNK_SIZE && copyValuesBuffer.Length == CHUNK_SIZE
      requires copyValuesIdBuffer != copyValuesBuffer
      modifies this`metrics, this`metricCopyLog, copyValuesIdBuffer, copyValuesBuffer
      ensures |metrics| == numStats
      ensures forall c :: 0 <= c < numStats ==> metrics[c] == stats[ordering[c].originalOrder]
      ensures metricCopyLog == ScheduleCalls(Chunks(numDocsInShard, CHUNK_SIZE, 0), numStats)
    {
      ghost var total := ScheduleCalls(Chunks(numDocsInShard, CHUNK_SIZE, 0), numStats);
      metricCopyLog := [];
      var row := 0;
      while row + CHUNK_SIZE < numDocsInShard
        invariant row <= numDocsInShard
        invariant metricCopyLog + ScheduleCalls(Chunks(numDocsInShard, CHUNK_SIZE, row), numStats) == total
        invariant |metrics| == numStats && forall c :: 0 <= c < numStats ==> |metrics[c]| == numDocsInShard
        invariant forall c, d :: 0 <= c < numStats && 0 <= d < row ==> metrics[c][d] == stats[ordering[c].originalOrder][d]
      {
        ScheduleAdvance(metricCopyLog, total, numDocsInShard, CHUNK_SIZE, row, numStats);
        CopyChunk(stats, row, CHUNK_SIZE);
        row := row + CHUNK_SIZE;
      }
      if row < numDocsInShard {
        var remaining := numDocsInShard - row;
        ScheduleAdvance(metricCopyLog, total, numDocsInShard, CHUNK_SIZE, row, numStats);
        assert Chunks(numDocsInShard, CHUNK_SIZE, numDocsInShard) == [];
        CopyChunk(stats, row, remaining);
      } else {
        assert Chunks(numDocsInShard, CHUNK_SIZE, row) == [];
      }
      forall c | 0 <= c < numStats
        ensures metrics[c] == stats[ordering[c].originalOrder]
      {
        assert |metrics[c]| == |stats[ordering[c].originalOrder]|;
      }
    }

    /** `getIntValueLookup(statIndex)`: the lookup reading the packed column of original statistic `statIndex`. */
    function GetIntValueLookup(statIndex: nat): (l: MetricLookup)
      reads this, groupLookup, heap
      requires Structure() && statIndex < numStats
      ensures l.owner == this && l.index < numStats && ordering[l.index].originalOrder == statIndex
    {
      metricLookups[statIndex]
    }

    /** `close()`: destroys the native table and clears the pointer (a second call destroys handle 0). */
    method Close()
      requires Valid()
      modifies this`nativeShardDataPtr, heap
      ensures Valid()
      ensures nativeShardDataPtr == 0
      ensures heap.destroyCalls == old(heap.destroyCalls) + [old(nativeShardDataPtr)]
      ensures heap.live == old(heap.live) - {old(nativeShardDataPtr)}
    {
      heap.Destroy(nativeShardDataPtr);
      nativeShardDataPtr := 0;
    }

    /** `childLookupClosed()`: one more closed lookup; the last one closes the table. */
    method ChildLookupClosed(ghost slot: int)
      requires Structure() && 0 <= slot < numStats && metricLookups[slot].closed && ClosedAccounting(slot)
      modifies this`closedLookupCount, this`closedSet, this`nativeShardDataPtr, heap
      ensures Valid()
      ensures closedLookupCount == old(closedLookupCount) + 1 && closedLookupCount <= numStats
      ensures closedLookupCount == numStats ==>
        && nativeShardDataPtr == 0
        && heap.destroyCalls == old(heap.destroyCalls) + [old(nativeShardDataPtr)]
        && heap.live == old(heap.live) - {old(nativeShardDataPtr)}
      ensures closedLookupCount != numStats ==>
        nativeShardDataPtr == old(nativeShardDataPtr) && heap.destroyCalls == old(heap.destroyCalls)
        && heap.live == old(heap.live)
    {
      closedSet := closedSet + {slot};
      closedLookupCount := closedLookupCount + 1;
      CardBelow(closedSet, numStats);
      if closedLookupCount == numStats {
        Close();
      }
    }
  }

  /** Never more lookups are counted as closed than there are statistics. */
  lemma ClosedCountBound(mc: MultiCache)
    requires mc.Valid()
    ensures 0 <= mc.closedLookupCount <= mc.numStats
  {
    CardBelow(mc.closedSet, mc.numStats);
  }

  /** `MultiCacheIntValueLookup`: reads one packed column. */
  class MetricLookup {
    const owner: MultiCache
    const index: nat
    const min: int
    const max: int
    var closed: bool

    constructor (owner: MultiCache, index: nat, min: int, max: int)
      ensures this.owner == owner && this.index == index && this.min == min && this.max == max && !closed
    {
      this.owner := owner;
      this.index := index;
      this.min := min;
      this.max := max;
      this.closed := false;
    }

    /** `lookup(docIds, values, n)`: `values[i]` receives the column's value for `docIds[i]`. */
    method Lookup(docIds: array<int>, values: array<int>, n: nat)
      requires owner.Structure() && owner.Owns(this)
      requires n <= docIds.Length && n <= values.Length && docIds != values
      requires IdsIn(docIds[..n], owner.numDocsInShard)
      modifies values
      ensures values[..n] == Gather(owner.metrics[index], docIds[..n])
      ensures forall j :: n <= j < values.Length ==> values[j] == old(values[j])
    {
      GatherInto(owner.metrics[index], docIds, values, n);
    }

    /**
     * `close()`: a second close only logs and changes nothing; the first
     * marks this lookup closed and tells the table, which destroys itself
     * when this was the last open lookup.
     */
    method Close()
      requires owner.Valid() && owner.Owns(this)
      modifies this`closed, owner`closedLookupCount, owner`closedSet, owner`nativeShardDataPtr, owner.heap
      ensures owner.Valid() && closed
      ensures old(closed) ==>
        && owner.closedLookupCount == old(owner.closedLookupCount)
        && owner.nativeShardDataPtr == old(owner.nativeShardDataPtr)
        && owner.heap.destroyCalls == old(owner.heap.destroyCalls) && owner.heap.live == old(owner.heap.live)
      ensures !old(closed) ==> owner.closedLookupCount == old(owner.closedLookupCount) + 1
      ensures !old(closed) && owner.closedLookupCount == owner.numStats ==>
        && owner.nativeShardDataPtr == 0
        && owner.heap.destroyCalls == old(owner.heap.destroyCalls) + [old(owner.nativeShardDataPtr)]
        && owner.heap.live == old(owner.heap.live) - {old(owner.nativeShardDataPtr)}
      ensures !old(closed) && owner.closedLookupCount != owner.numStats ==>
        && owner.nativeShardDataPtr == old(owner.nativeShardDataPtr)
        && owner.heap.destroyCalls == old(owner.heap.destroyCalls)
        && owner.heap.live == old(owner.heap.live)
    {
      if closed {
        return;
      }
      ghost var slot := owner.ordering[index].originalOrder;
      closed := true;
      owner.ChildLookupClosed(slot);
    }
  }

  /** `MultiCacheGroupLookup`: the table's group column seen as a GroupLookup. */
  class MultiCacheGroupLookup {
    const owner: MultiCache
    const groupsBuffer: array<int>
    /** Persists across calls: slots not written by a call keep earlier contents. */
    const remapBuffer: array<int>
    var numGroups: int

    /** Allocation of the two BUFFER_SIZE buffers, once the memory claim has succeeded. */
    constructor (owner: MultiCache, bufferSize: nat)
      ensures this.owner == owner && fresh(groupsBuffer) && fresh(remapBuffer) && groupsBuffer != remapBuffer
      ensures groupsBuffer.Length == bufferSize && remapBuffer.Length == bufferSize
      ensures forall i :: 0 <= i < bufferSize ==> groupsBuffer[i] == 0 && remapBuffer[i] == 0
      ensures numGroups == 0
    {
      this.owner := owner;
      groupsBuffer := new int[bufferSize](_ => 0);
      remapBuffer := new int[bufferSize](_ => 0);
      numGroups := 0;
    }

    ghost predicate Ready()
      reads this, owner, owner.groupLookup
    {
      owner.Buffers() && owner.groupLookup == this
    }

    function Size(): nat
      reads this, owner
    {
      owner.numDocsInShard
    }

    function MaxGroup(): int
    {
      MAX_GROUP_NUM
    }

    function MemoryUsed(): int
      reads this
    {
      groupsBuffer.Length * 4 + remapBuffer.Length * 4
    }

    /** `get(doc)`. */
    function Get(doc: nat): int
      reads this, owner
      requires doc < |owner.groups|
    {
      owner.groups[doc]
    }

    /** `set(doc, group)`: afterwards `get(doc) == group`, and every other document keeps its group. */
    method Set(doc: nat, group: int)
      requires Ready() && doc < Size()
      modifies owner`groups
      ensures Ready()
      ensures |owner.groups| == old(|owner.groups|)
      ensures Get(doc) == group
      ensures forall d :: 0 <= d < Size() && d != doc ==> Get(d) == old(Get(d))
    {
      owner.groups := owner.groups[doc := group];
    }

    /** `fillDocGrpBufferSequential(start, buf, n)`: the groups of documents [start, start + n). */
    method FillDocGrpBufferSequential(start: nat, buf: array<int>, n: nat)
      requires Ready() && start + n <= Size() && n <= buf.Length
      modifies buf
      ensures buf[..n] == owner.groups[start..start + n]
      ensures forall j :: n <= j < buf.Length ==> buf[j] == old(buf[j])
    {
      for i := 0 to n
        invariant forall j :: 0 <= j < i ==> buf[j] == owner.groups[start + j]
        invariant forall j :: n <= j < buf.Length ==> buf[j] == old(buf[j])
      {
        buf[i] := owner.groups[start + i];
      }
    }

    /** `fillDocGrpBuffer(docIdBuf, docGrpBuffer, n)`: the groups of the listed documents, in order. */
    method FillDocGrpBuffer(docIdBuf: array<int>, docGrpBuffer: array<int>, n: nat)
      requires Ready() && n <= docIdBuf.Length && n <= docGrpBuffer.Length && docIdBuf != docGrpBuffer
      requires IdsIn(docIdBuf[..n], Size())
      modifies docGrpBuffer
      ensures docGrpBuffer[..n] == Gather(owner.groups, docIdBuf[..n])
      ensures forall j :: n <= j < docGrpBuffer.Length ==> docGrpBuffer[j] == old(docGrpBuffer[j])
    {
      GatherInto(owner.groups, docIdBuf, docGrpBuffer, n);
    }

    /** `batchSet` / `nativeUpdateGroups`: document `docIdBuf[i]` gets group `docGrpBuffer[i]`, in order. */
    method BatchSet(docIdBuf: array<int>, docGrpBuffer: array<int>, n: nat)
      requires Ready() && n <= docIdBuf.Length && n <= docGrpBuffer.Length
      requires IdsIn(docIdBuf[..n], Size())
      modifies owner`groups
      ensures Ready()
      ensures owner.groups == ApplyUpdates(old(owner.groups), docIdBuf[..n], docGrpBuffer[..])
    {
      ghost var table := owner.groups;
      for i := 0 to n
        invariant Ready()
        invariant owner.groups == ApplyUpdates(table, docIdBuf[..n][..i], docGrpBuffer[..])
      {
        assert docIdBuf[..n][..i + 1][..i] == docIdBuf[..n][..i];
        owner.groups := owner.groups[docIdBuf[i] := docGrpBuffer[i]];
      }
      assert docIdBuf[..n][..n] == docIdBuf[..n];
    }

    /**
     * `nextGroupCallback(n, termGrpStats, groupsSeen)`: the groups of the
     * first `n` buffered documents are fetched, documents of group 0 are
     * dropped by compacting `docIdBuf` and `docGroupBuffer` in place, in
     * order, the surviving groups are marked as seen, and (if any survive)
     * each statistic's accumulator is given the survivors.
     */
    method NextGroupCallback(n: nat, groupsSeen: set<int>)
      returns (rewriteHead: nat, seen: set<int>, updates: seq<StatUpdate>)
      requires Ready()
      requires n <= groupsBuffer.Length && n <= owner.session.docIdBuf.Length && n <= owner.session.docGroupBuffer.Length
      requires IdsIn(owner.session.docIdBuf[..n], Size())
      modifies groupsBuffer, owner.session.docIdBuf, owner.session.docGroupBuffer
      ensures Ready()
      ensures var ids := old(owner.session.docIdBuf[..n]);
        var grps := Gather(owner.groups, ids);
        var keep := KeptIndices(grps);
        && groupsBuffer[..n] == grps
        && rewriteHead == |keep| <= n
        && rewriteHead == |set i | 0 <= i < |grps| && grps[i] != 0|
        && (forall k :: 0 <= k < |keep| ==> keep[k] < n)
        && owner.session.docIdBuf[..rewriteHead] == Select(ids, keep)
        && owner.session.docGroupBuffer[..rewriteHead] == Select(grps, keep)
        && (forall k :: 0 <= k < rewriteHead ==> owner.session.docGroupBuffer[k] != 0)
      ensures forall j :: rewriteHead <= j < owner.session.docIdBuf.Length ==>
        owner.session.docIdBuf[j] == old(owner.session.docIdBuf[j])
      ensures forall j :: rewriteHead <= j < owner.session.docGroupBuffer.Length ==>
        owner.session.docGroupBuffer[j] == old(owner.session.docGroupBuffer[j])
      ensures seen == groupsSeen + AsSet(owner.session.docGroupBuffer[..rewriteHead])
      ensures |updates| == (if rewriteHead == 0 then 0 else owner.session.numStats)
      ensures forall s :: 0 <= s < |updates| ==>
        updates[s] == StatUpdate(s, owner.session.docGroupBuffer[..rewriteHead], owner.session.docIdBuf[..rewriteHead])
    {
      var docIdBuf := owner.session.docIdBuf;
      var docGroupBuffer := owner.session.docGroupBuffer;
      FillDocGrpBuffer(docIdBuf, groupsBuffer, n);
      rewriteHead := CompactNonzero(docIdBuf, docGroupBuffer, groupsBuffer, n);
      KeptIndicesCount(groupsBuffer[..n]);
      var keptGroups := docGroupBuffer[..rewriteHead];
      var keptDocs := docIdBuf[..rewriteHead];
      seen := groupsSeen + AsSet(keptGroups);

      updates := [];
      if rewriteHead > 0 {
        for statIndex := 0 to owner.session.numStats
          invariant |updates| == statIndex
          invariant forall s :: 0 <= s < statIndex ==> updates[s] == StatUpdate(s, keptGroups, keptDocs)
        {
          updates := updates + [StatUpdate(statIndex, keptGroups, keptDocs)];
        }
      }
    }

    /**
     * The body shared by `applyIntConditionsCallback` and
     * `applyStringConditionsCallback`, with the term's condition check
     * given as `holds`.  Positions are visited in order; see RemapStep.
     * The whole first `n` slots of the remap buffer are then written back,
     * including slots this call did not assign.
     */
    method ApplyConditionsCallback<C>(n: nat, docRemapped: array<bool>, remapRules: seq<Option<RemapRule<C>>>,
                                      holds: C -> bool)
      requires Ready()
      requires n <= groupsBuffer.Length && n <= owner.session.docIdBuf.Length
      requires IdsIn(owner.session.docIdBuf[..n], Size()) && IdsIn(owner.session.docIdBuf[..n], docRemapped.Length)
      requires IdsIn(Gather(owner.groups, owner.session.docIdBuf[..n]), |remapRules|)
      modifies groupsBuffer, remapBuffer, docRemapped, owner`groups
      ensures Ready()
      ensures var ids := owner.session.docIdBuf[..n];
        var grps := Gather(old(owner.groups), ids);
        var r := RemapStep(ids, grps, old(docRemapped[..]), old(remapBuffer[..]), remapRules, holds);
        && groupsBuffer[..n] == grps
        && docRemapped[..] == r.marked
        && remapBuffer[..] == r.remap
        && owner.groups == ApplyUpdates(old(owner.groups), ids, r.remap)
    {
      var docIdBuf := owner.session.docIdBuf;
      FillDocGrpBuffer(docIdBuf, groupsBuffer, n);
      MarkRemapped(docIdBuf, groupsBuffer, remapBuffer, docRemapped, n, remapRules, holds);
      BatchSet(docIdBuf, remapBuffer, n);
    }

    /** `applyIntConditionsCallback`: the condition of each rule is checked against (intField, itrTerm). */
    method ApplyIntConditionsCallback<C>(n: nat, docRemapped: array<bool>, remapRules: seq<Option<RemapRule<C>>>,
                                         intField: string, itrTerm: int,
                                         checkIntCondition: (C, string, int) -> bool)
      requires Ready()
      requires n <= groupsBuffer.Length && n <= owner.session.docIdBuf.Length
      requires IdsIn(owner.session.docIdBuf[..n], Size()) && IdsIn(owner.session.docIdBuf[..n], docRemapped.Length)
      requires IdsIn(Gather(owner.groups, owner.session.docIdBuf[..n]), |remapRules|)
      modifies groupsBuffer, remapBuffer, docRemapped, owner`groups
      ensures Ready()
      ensures var ids := owner.session.docIdBuf[..n];
        var grps := Gather(old(owner.groups), ids);
        var r := RemapStep(ids, grps, old(docRemapped[..]), old(remapBuffer[..]), remapRules,
                           TermCheck(checkIntCondition, intField, itrTerm));
        && docRemapped[..] == r.marked
        && groupsBuffer[..n] == grps
        && remapBuffer[..] == r.remap
        && owner.groups == ApplyUpdates(old(owner.groups), ids, r.remap)
    {
      ApplyConditionsCallback(n, docRemapped, remapRules, TermCheck(checkIntCondition, intField, itrTerm));
    }

    /** `applyStringConditionsCallback`: the condition of each rule is checked against (stringField, itrTerm). */
    method ApplyStringConditionsCallback<C>(n: nat, docRemapped: array<bool>, remapRules: seq<Option<RemapRule<C>>>,
                                            stringField: string, itrTerm: string,
                                            checkStringCondition: (C, string, string) -> bool)
      requires Ready()
      requires n <= groupsBuffer.Length && n <= owner.session.docIdBuf.Length
      requires IdsIn(owner.session.docIdBuf[..n], Size()) && IdsIn(owner.session.docIdBuf[..n], docRemapped.Length)
      requires IdsIn(Gather(owner.groups, owner.session.docIdBuf[..n]), |remapRules|)
      modifies groupsBuffer, remapBuffer, docRemapped, owner`groups
      ensures Ready()
      ensures var ids := owner.session.docIdBuf[..n];
        var grps := Gather(old(owner.groups), ids);
        var r := RemapStep(ids, grps, old(docRemapped[..]), old(remapBuffer[..]), remapRules,
                           TermCheck(checkStringCondition, stringField, itrTerm));
        && docRemapped[..] == r.marked
        && groupsBuffer[..n] == grps
        && remapBuffer[..] == r.remap
        && owner.groups == ApplyUpdates(old(owner.groups), ids, r.remap)
    {
      ApplyConditionsCallback(n, docRemapped, remapRules, TermCheck(checkStringCondition, stringField, itrTerm));
    }

    /**
     * `copyInto(other)`: IllegalArgument (and nothing copied) when the sizes
     * differ; otherwise every document's group is copied in blocks of at
     * most BUFFER_SIZE through the group buffer, then the group count.
     */
    method CopyInto(other: ArrayGroupLookup) returns (r: Outcome)
      requires Ready() && other.docIdToGroup != groupsBuffer
      modifies groupsBuffer, other.docIdToGroup, other`numGroups
      ensures Ready()
      ensures Size() != other.Size() ==>
        && r == Fail(IllegalArgument("size != other.size: size=" + IntToString(Size())
                                     + ", other.size=" + IntToString(other.Size())))
        && other.docIdToGroup[..] == old(other.docIdToGroup[..]) && other.numGroups == old(other.numGroups)
      ensures Size() == other.Size() ==>
        && r == Pass
        && (forall d :: 0 <= d < Size() ==> other.docIdToGroup[d] == Get(d))
        && other.numGroups == numGroups
    {
      if Size() != other.Size() {
        return Fail(IllegalArgument("size != other.size: size=" + IntToString(Size())
                                    + ", other.size=" + IntToString(other.Size())));
      }
      var start := 0;
      while start < owner.numDocsInShard
        invariant Ready() && start <= owner.numDocsInShard
        invariant forall d :: 0 <= d < start ==> other.docIdToGroup[d] == owner.groups[d]
      {
        var count := Min(owner.bufferSize, owner.numDocsInShard - start);
        FillDocGrpBufferSequential(start, groupsBuffer, count);
        for i := 0 to count
          modifies other.docIdToGroup
          invariant forall d :: 0 <= d < start + i ==> other.docIdToGroup[d] == owner.groups[d]
        {
          assert groupsBuffer[i] == groupsBuffer[..count][i] == owner.groups[start + i];
          other.Set(i + start, groupsBuffer[i]);
        }
        start := start + count;
      }
      other.numGroups := numGroups;
      return Pass;
    }
  }

  /** A rule's condition checked against one field and term. */
  function TermCheck<C, T>(check: (C, string, T) -> bool, field: string, term: T): C -> bool
  {
    c => check(c, field, term)
  }

  /** The two buffers use exactly the 2 * 4 * BUFFER_SIZE bytes the constructor claims. */
  lemma MemoryUsedMatchesClaim(g: MultiCacheGroupLookup)
    requires g.Ready()
    ensures g.MemoryUsed() == 2 * 4 * g.owner.bufferSize
  {
  }
}
