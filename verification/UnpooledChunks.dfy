/** The allocator of unpooled buffers: segments are cut from chunks one behind
    the other, and a chunk goes back as a whole with its last segment. */
module UnpooledChunks {
  import opened Options

  const UINT32: nat := 0x1_0000_0000

  function Cut(x: nat): (r: nat)
    ensures r < UINT32 && (x < UINT32 ==> r == x)
  {
    x % UINT32
  }

  function RoundUp(size: nat, alignment: nat): (r: nat)
    requires alignment > 0
    ensures r >= size
  {
    if size % alignment != 0 then size + (alignment - size % alignment) else size
  }

  /** Rounds up to a multiple of the alignment, in unsigned 32-bit arithmetic. */
  function AlignBufferSize(bufferSize: nat, alignment: nat): (r: nat)
    requires alignment > 0
  {
    Cut(RoundUp(Cut(bufferSize), alignment))
  }

  /** The `k`-th multiple of the alignment is the least one that is not below the size. */
  ghost predicate IsCeiling(size: nat, alignment: nat, k: nat) {
    (k as int - 1) * alignment < size <= k * alignment
  }

  lemma Ceiling(size: nat, alignment: nat) returns (k: nat)
    requires alignment > 0
    ensures IsCeiling(size, alignment, k) && RoundUp(size, alignment) == k * alignment < size + alignment
  {
    var q, rest := size / alignment, size % alignment;
    DivMod(size, alignment);
    k := if rest == 0 then q else q + 1;
    NextMultiple(q, alignment);
  }

  lemma DivMod(x: nat, n: nat)
    requires n > 0
    ensures x == x / n * n + x % n && 0 <= x % n < n
  {
  }

  lemma NextMultiple(q: int, n: nat)
    ensures (q + 1) * n == q * n + n && (q - 1) * n == q * n - n
  {
  }

  lemma CeilingUnique(size: nat, alignment: nat, j: nat, k: nat)
    requires alignment > 0 && IsCeiling(size, alignment, j) && IsCeiling(size, alignment, k)
    ensures j == k
  {
    if j < k {
      Smaller(j, k - 1, alignment);
    } else if k < j {
      Smaller(k, j - 1, alignment);
    }
  }

  lemma Smaller(a: int, b: int, n: nat)
    requires a <= b
    ensures a * n <= b * n
  {
  }

  lemma AlignedSize(size: nat, alignment: nat)
    requires alignment > 0 && size + alignment < UINT32
    ensures AlignBufferSize(size, alignment) == RoundUp(size, alignment) < size + alignment
  {
    hide RoundUp;
    var _ := Ceiling(size, alignment);
  }

  /** In 32 bits the aligned size is large enough exactly if the rounded size is below 2^32. */
  lemma AlignedExactly(size: nat, alignment: nat)
    requires 0 < alignment < UINT32
    ensures AlignBufferSize(size, alignment) >= size <==> RoundUp(size, alignment) < UINT32
  {
    hide RoundUp;
    var _ := Ceiling(size, alignment);
  }

  lemma Distribute(j: int, k: int, n: nat)
    ensures (j + k) * n == j * n + k * n
  {
  }

  /** Rounding a sum whose first part is a multiple of the alignment. */
  lemma RoundUpSum(a: nat, b: nat, alignment: nat, j: nat)
    requires alignment > 0 && a == j * alignment
    ensures RoundUp(a + b, alignment) == a + RoundUp(b, alignment) && RoundUp(a, alignment) == a
  {
    hide RoundUp;
    var k := Ceiling(b, alignment);
    var l := Ceiling(a + b, alignment);
    var m := Ceiling(a, alignment);
    Distribute(j, k, alignment);
    Distribute(j, (k as int) - 1, alignment);
    NextMultiple(j, alignment);
    CeilingUnique(a + b, alignment, j + k, l);
    CeilingUnique(a, alignment, j, m);
  }

  /** The control block and the payload of a buffer fit its footprint. */
  predicate PayloadFits(neededSize: nat, controlBlock: nat, alignment: nat)
    requires alignment > 0
  {
    AlignBufferSize(controlBlock, alignment) + AlignBufferSize(neededSize, alignment)
      <= AlignBufferSize(neededSize + controlBlock, alignment)
  }

  lemma FitsIfAligned(neededSize: nat, controlBlock: nat, alignment: nat)
    requires alignment > 0 && controlBlock % alignment == 0 && neededSize + controlBlock + alignment < UINT32
    ensures PayloadFits(neededSize, controlBlock, alignment)
    ensures neededSize <= AlignBufferSize(neededSize, alignment) < neededSize + alignment && AlignBufferSize(controlBlock, alignment) == controlBlock
    ensures AlignBufferSize(neededSize + controlBlock, alignment) == controlBlock + AlignBufferSize(neededSize, alignment)
  {
    hide RoundUp, AlignBufferSize;
    DivMod(controlBlock, alignment);
    RoundUpSum(controlBlock, neededSize, alignment, controlBlock / alignment);
    AlignedSize(controlBlock, alignment);
    AlignedSize(neededSize, alignment);
    AlignedSize(controlBlock + neededSize, alignment);
  }

  /** Every size fits exactly when the alignment divides the control block's size. */
  lemma FitsExactlyIfAligned(controlBlock: nat, alignment: nat)
    requires alignment > 0 && controlBlock + 3 * alignment < UINT32
    ensures (forall neededSize: nat | neededSize + controlBlock + alignment < UINT32 ::
               PayloadFits(neededSize, controlBlock, alignment))
            <==> controlBlock % alignment == 0
  {
    hide PayloadFits;
    DivMod(controlBlock, alignment);
    if controlBlock % alignment == 0 {
      forall neededSize: nat | neededSize + controlBlock + alignment < UINT32
        ensures PayloadFits(neededSize, controlBlock, alignment)
      {
        FitsIfAligned(neededSize, controlBlock, alignment);
      }
    } else {
      SmallSizeDoesNotFit(controlBlock, alignment, controlBlock / alignment, controlBlock % alignment);
    }
  }

  /** The size that fills the control block up to the alignment is given no room of its own. */
  lemma SmallSizeDoesNotFit(controlBlock: nat, alignment: nat, q: nat, rest: nat)
    requires alignment > 0 && controlBlock + 3 * alignment < UINT32 && controlBlock == q * alignment + rest && 0 < rest < alignment
    ensures !PayloadFits(alignment - rest, controlBlock, alignment)
  {
    hide RoundUp, AlignBufferSize;
    var gap := alignment - rest;
    NextMultiple(q, alignment);
    var k := Ceiling(controlBlock, alignment);
    CeilingUnique(controlBlock, alignment, q + 1, k);
    RoundUpSum(controlBlock + gap, 0, alignment, q + 1);
    AlignedSize(controlBlock, alignment);
    AlignedSize(gap, alignment);
    AlignedSize(gap + controlBlock, alignment);
  }

  /** A size that fills 32 bits together with the control block gets no space at all. */
  lemma SizeIsCut(controlBlock: nat, alignment: nat)
    requires alignment > 0 && controlBlock <= UINT32
    ensures AlignBufferSize((UINT32 - controlBlock) + controlBlock, alignment) == 0
  {
    hide RoundUp;
    RoundUpSum(0, 0, alignment, 0);
  }

  // ---------------------------------------------------------------- chunks and segments

  /** A chunk is known by the address of its first byte; `thread` owns it. */
  datatype Chunk = Chunk(thread: nat, totalSize: nat, usedSize: nat, activeSegments: nat)

  /** A live buffer: its footprint in a chunk, and its payload. */
  datatype Segment = Segment(chunk: nat, start: nat, footprint: nat, payload: nat, size: nat)

  function SegmentsIn(live: map<nat, Segment>, key: nat): (r: set<nat>) {
    set id | id in live && live[id].chunk == key
  }

  predicate Apart(a: nat, sizeOfA: nat, b: nat, sizeOfB: nat) {
    a + sizeOfA <= b || b + sizeOfB <= a
  }

  /** The chunks do not overlap, and each counts its live segments. */
  ghost predicate ChunksOk(chunks: map<nat, Chunk>, live: map<nat, Segment>) {
    && (forall key | key in chunks ::
          chunks[key].usedSize <= chunks[key].totalSize && chunks[key].activeSegments == |SegmentsIn(live, key)| > 0)
    && (forall key, other | key in chunks && other in chunks && key != other ::
          Apart(key, chunks[key].totalSize, other, chunks[other].totalSize))
  }

  /** Every live segment lies in the used part of its chunk and holds its payload; no two overlap. */
  ghost predicate SegmentsOk(chunks: map<nat, Chunk>, live: map<nat, Segment>) {
    && (forall id | id in live :: SegmentOk(chunks, live[id]))
    && (forall id, other | id in live && other in live && id != other ::
          Apart(live[id].start, live[id].footprint, live[other].start, live[other].footprint))
  }

  predicate SegmentOk(chunks: map<nat, Chunk>, s: Segment) {
    && s.chunk in chunks
    && s.chunk <= s.start && s.start + s.footprint <= s.chunk + chunks[s.chunk].usedSize
    && s.start <= s.payload && s.payload + s.size <= s.start + s.footprint
  }

  /** The chunk that a thread cuts from is one of its own. */
  ghost predicate LastOk(chunks: map<nat, Chunk>, last: map<nat, nat>) {
    forall t | t in last :: last[t] in chunks && chunks[last[t]].thread == t
  }

  /** One more segment, apart from all others, while the chunks' used parts grow. */
  lemma AddSegment(chunks: map<nat, Chunk>, chunks': map<nat, Chunk>, live: map<nat, Segment>, id: nat, s: Segment)
    requires SegmentsOk(chunks, live) && SegmentOk(chunks', s)
    requires forall key | key in chunks :: key in chunks' && chunks[key].usedSize <= chunks'[key].usedSize
    requires forall other | other in live :: Apart(live[other].start, live[other].footprint, s.start, s.footprint)
    ensures SegmentsOk(chunks', live[id := s])
  {
    forall other | other in live ensures SegmentOk(chunks', live[other]) {
      assert SegmentOk(chunks, live[other]);
    }
  }

  lemma ApartFromOthers(chunks: map<nat, Chunk>, live: map<nat, Segment>, key: nat, s: Segment, other: nat)
    requires ChunksOk(chunks, live) && SegmentsOk(chunks, live) && key in chunks && other in live
    requires s.start == key + chunks[key].usedSize && chunks[key].usedSize + s.footprint <= chunks[key].totalSize
    ensures Apart(live[other].start, live[other].footprint, s.start, s.footprint)
  {
    assert SegmentOk(chunks, live[other]);
    if live[other].chunk != key {
      assert Apart(live[other].chunk, chunks[live[other].chunk].totalSize, key, chunks[key].totalSize);
    }
  }

  /** A new segment behind the used part of a chunk. */
  lemma CutSegment(chunks: map<nat, Chunk>, live: map<nat, Segment>, key: nat, id: nat, s: Segment)
    requires ChunksOk(chunks, live) && SegmentsOk(chunks, live) && key in chunks && id !in live
    requires s.chunk == key && s.start == key + chunks[key].usedSize && chunks[key].usedSize + s.footprint <= chunks[key].totalSize
    requires s.start <= s.payload && s.payload + s.size <= s.start + s.footprint
    ensures var c := chunks[key];
            var chunks' := chunks[key := c.(usedSize := c.usedSize + s.footprint, activeSegments := c.activeSegments + 1)];
            ChunksOk(chunks', live[id := s]) && SegmentsOk(chunks', live[id := s])
  {
    hide SegmentsOk;
    var c := chunks[key];
    var chunks' := chunks[key := c.(usedSize := c.usedSize + s.footprint, activeSegments := c.activeSegments + 1)];
    NewSegment(live, id, s);
    forall other | other in live ensures Apart(live[other].start, live[other].footprint, s.start, s.footprint) {
      ApartFromOthers(chunks, live, key, s, other);
    }
    AddSegment(chunks, chunks', live, id, s);
  }

  lemma NewSegment(live: map<nat, Segment>, id: nat, s: Segment)
    requires id !in live
    ensures forall key :: |SegmentsIn(live[id := s], key)| == |SegmentsIn(live, key)| + if key == s.chunk then 1 else 0
  {
    forall key ensures |SegmentsIn(live[id := s], key)| == |SegmentsIn(live, key)| + if key == s.chunk then 1 else 0 {
      assert SegmentsIn(live[id := s], key) == if key == s.chunk then SegmentsIn(live, key) + {id} else SegmentsIn(live, key);
    }
  }

  /** A fresh chunk with its first segment. */
  lemma FirstSegment(chunks: map<nat, Chunk>, live: map<nat, Segment>, thread: nat, key: nat, total: nat, id: nat, s: Segment)
    requires ChunksOk(chunks, live) && SegmentsOk(chunks, live) && id !in live && key !in chunks
    requires forall other | other in chunks :: Apart(key, total, other, chunks[other].totalSize)
    requires s.chunk == key == s.start && s.footprint <= total
    requires s.start <= s.payload && s.payload + s.size <= s.start + s.footprint
    ensures var chunks' := chunks[key := Chunk(thread, total, s.footprint, 1)];
            ChunksOk(chunks', live[id := s]) && SegmentsOk(chunks', live[id := s])
  {
    hide SegmentsOk;
    var chunks' := chunks[key := Chunk(thread, total, s.footprint, 1)];
    NewSegment(live, id, s);
    NothingInNewChunk(chunks, live, key);
    forall other | other in live ensures Apart(live[other].start, live[other].footprint, s.start, s.footprint) {
      ApartFromNewChunk(chunks, live, key, total, s, other);
    }
    AddSegment(chunks, chunks', live, id, s);
  }

  lemma NoneInChunk(live: map<nat, Segment>, key: nat)
    ensures SegmentsIn(live, key) == {} <==> forall other | other in live :: live[other].chunk != key
  {
    forall other | other in live ensures live[other].chunk == key <==> other in SegmentsIn(live, key) {
    }
  }

  lemma TooSmall(chunks: map<nat, Chunk>, live: map<nat, Segment>, key: nat)
    requires key in chunks && chunks[key].usedSize > chunks[key].totalSize
    ensures !ChunksOk(chunks, live)
  {
  }

  lemma NothingInNewChunk(chunks: map<nat, Chunk>, live: map<nat, Segment>, key: nat)
    requires SegmentsOk(chunks, live) && key !in chunks
    ensures SegmentsIn(live, key) == {}
  {
    forall id | id in live ensures live[id].chunk != key {
      assert SegmentOk(chunks, live[id]);
    }
  }

  lemma ApartFromNewChunk(chunks: map<nat, Chunk>, live: map<nat, Segment>, key: nat, total: nat, s: Segment, other: nat)
    requires ChunksOk(chunks, live) && SegmentsOk(chunks, live) && other in live && s.start == key && s.footprint <= total
    requires forall k | k in chunks :: Apart(key, total, k, chunks[k].totalSize)
    ensures Apart(live[other].start, live[other].footprint, s.start, s.footprint)
  {
    assert SegmentOk(chunks, live[other]);
  }

  /** A released segment; the chunk goes with its last one. */
  lemma DropSegment(chunks: map<nat, Chunk>, live: map<nat, Segment>, id: nat)
    requires ChunksOk(chunks, live) && SegmentsOk(chunks, live) && id in live
    ensures var key := live[id].chunk;
            && key in chunks && chunks[key].activeSegments > 0
            && (chunks[key].activeSegments == 1 <==> SegmentsIn(live - {id}, key) == {})
            && var chunks' := if chunks[key].activeSegments == 1 then chunks - {key}
                              else chunks[key := chunks[key].(activeSegments := chunks[key].activeSegments - 1)];
               ChunksOk(chunks', live - {id}) && SegmentsOk(chunks', live - {id})
  {
    var key, rest := live[id].chunk, live - {id};
    assert SegmentOk(chunks, live[id]);
    assert rest[id := live[id]] == live;
    NewSegment(rest, id, live[id]);
    var chunks' := if chunks[key].activeSegments == 1 then chunks - {key}
                   else chunks[key := chunks[key].(activeSegments := chunks[key].activeSegments - 1)];
    assert chunks[key].activeSegments == 1 ==> |SegmentsIn(rest, key)| == 0;
    forall other | other in rest ensures SegmentOk(chunks', rest[other]) {
      assert SegmentOk(chunks, live[other]);
      assert other in SegmentsIn(rest, rest[other].chunk);
    }
  }

  // ------------------------------------------------------------------ the number of buffers

  /** The live segments by their chunks. */
  lemma CountByChunk(live: map<nat, Segment>, keys: set<nat>, rest: set<nat>, key: nat)
    requires key !in rest && keys == rest + {key}
    ensures |SegmentsOf(live, keys)| == |SegmentsOf(live, rest)| + |SegmentsIn(live, key)|
  {
    assert SegmentsOf(live, keys) == SegmentsOf(live, rest) + SegmentsIn(live, key);
    assert SegmentsOf(live, rest) !! SegmentsIn(live, key);
  }

  function SegmentsOf(live: map<nat, Segment>, keys: set<nat>): (r: set<nat>) {
    set id | id in live && live[id].chunk in keys
  }

  const NUM_PRE_ALLOCATED_CHUNKS: nat := 10

  const PAGE: nat := 4096

  /** Room for the request and for ten average ones, in whole pages. */
  function Pages(neededSize: nat, rollingAverage: nat): (r: nat)
    ensures r >= neededSize
  {
    var exact := if neededSize < rollingAverage * NUM_PRE_ALLOCATED_CHUNKS then rollingAverage * NUM_PRE_ALLOCATED_CHUNKS else neededSize;
    RoundUp(exact, PAGE)
  }

  /** The size of a new chunk: the page mask has 32 bits only, so the upper half of the size is lost. */
  function ChunkSize(neededSize: nat, rollingAverage: nat): (r: nat) {
    Cut(Pages(neededSize, rollingAverage))
  }

  /** Exactly when a new chunk holds the segment it was made for. */
  lemma ChunkHoldsFirst(neededSize: nat, rollingAverage: nat)
    ensures ChunkSize(neededSize, rollingAverage) >= neededSize <==>
              Pages(neededSize, rollingAverage) < UINT32 || Pages(neededSize, rollingAverage) % UINT32 >= neededSize
    ensures neededSize + PAGE <= UINT32 && rollingAverage * NUM_PRE_ALLOCATED_CHUNKS + PAGE <= UINT32 ==>
              ChunkSize(neededSize, rollingAverage) >= neededSize
    ensures rollingAverage * NUM_PRE_ALLOCATED_CHUNKS <= neededSize && 0 < neededSize < UINT32 ==>
              (ChunkSize(neededSize, rollingAverage) >= neededSize <==> neededSize + PAGE <= UINT32)
  {
    hide RoundUp;
    var exact := if neededSize < rollingAverage * NUM_PRE_ALLOCATED_CHUNKS then rollingAverage * NUM_PRE_ALLOCATED_CHUNKS else neededSize;
    var _ := Ceiling(exact, PAGE);
  }

  /** The first request of a thread, for 450000000 bytes, gets a chunk of less than half that size. */
  lemma ChunkIsTooSmall()
    ensures AlignBufferSize(450_000_000 + 128, 64) == 450_000_128
    ensures ChunkSize(450_000_128, 450_000_128) == 205_037_568 < 450_000_128
  {
  }

  /** The thread's last chunk is larger than what is used of it and the new segment. */
  predicate HasRoom(chunks: map<nat, Chunk>, lastAllocated: map<nat, nat>, thread: nat, footprint: nat) {
    && thread in lastAllocated && lastAllocated[thread] in chunks
    && chunks[lastAllocated[thread]].usedSize + footprint < chunks[lastAllocated[thread]].totalSize
  }

  class UnpooledChunksManager {
    const controlBlock: nat
    var chunks: map<nat, Chunk>
    var lastAllocated: map<nat, nat>
    ghost var live: map<nat, Segment>

    ghost predicate Valid()
      reads this
    {
      ChunksOk(chunks, live) && SegmentsOk(chunks, live) && LastOk(chunks, lastAllocated)
    }

    constructor (controlBlock: nat)
      ensures Valid() && live == map[] && chunks == map[] && this.controlBlock == controlBlock
    {
      this.controlBlock := controlBlock;
      chunks, lastAllocated, live := map[], map[], map[];
    }

    /** Cuts a buffer from the thread's last chunk if there is room, else from a
        new chunk at `newMemory`, the address the memory resource gives out.  If
        the resource has none, nothing changes and no buffer is returned: the
        code goes on with a null chunk, whose lookup then throws.

        The chunks stay in order exactly if the segment fits where it is cut. */
    method GetUnpooledBuffer(thread: nat, neededSize: nat, alignment: nat, rollingAverage: nat, newMemory: Option<nat>, ghost id: nat)
      returns (r: Option<Segment>)
      requires Valid() && id !in live
      requires alignment > 0 && controlBlock % alignment == 0 && neededSize + controlBlock + alignment < UINT32
      requires newMemory.Some? ==> forall key | key in chunks ::
        Apart(newMemory.value, ChunkSize(AlignBufferSize(neededSize + controlBlock, alignment), rollingAverage),
              key, chunks[key].totalSize) && newMemory.value != key
      modifies this
      ensures var footprint := AlignBufferSize(neededSize + controlBlock, alignment);
              if HasRoom(old(chunks), old(lastAllocated), thread, footprint) then
                var key := old(lastAllocated)[thread];
                var c := old(chunks)[key];
                && c.usedSize + footprint < c.totalSize
                && r.Some? && r.value.chunk == key && r.value.start == key + c.usedSize
                && chunks == old(chunks)[key := Chunk(thread, c.totalSize, c.usedSize + footprint, c.activeSegments + 1)]
                && lastAllocated == old(lastAllocated)
              else if newMemory.Some? then
                && (thread in old(lastAllocated) ==>
                      var c := old(chunks)[old(lastAllocated)[thread]]; c.usedSize + footprint >= c.totalSize)
                && r.Some? && r.value.chunk == r.value.start == newMemory.value
                && chunks == old(chunks)[newMemory.value := Chunk(thread, ChunkSize(footprint, rollingAverage), footprint, 1)]
                && lastAllocated == old(lastAllocated)[thread := newMemory.value]
              else r.None? && chunks == old(chunks) && lastAllocated == old(lastAllocated) && live == old(live)
      ensures r.Some? ==>
        && live == old(live)[id := r.value] && neededSize <= r.value.size < neededSize + alignment
        && r.value.payload == r.value.start + controlBlock
        && r.value.footprint == AlignBufferSize(neededSize + controlBlock, alignment)
      ensures r.None? ==> Valid()
      ensures r.Some? ==>
        var footprint := AlignBufferSize(neededSize + controlBlock, alignment);
        Valid() <==> HasRoom(old(chunks), old(lastAllocated), thread, footprint) || ChunkSize(footprint, rollingAverage) >= footprint
    {
      hide ChunksOk, SegmentsOk, AlignBufferSize, PayloadFits, ChunkSize;
      FitsIfAligned(neededSize, controlBlock, alignment);
      var footprint := AlignBufferSize(neededSize + controlBlock, alignment);
      var size := AlignBufferSize(neededSize, alignment);
      var offset := AlignBufferSize(controlBlock, alignment);
      if HasRoom(chunks, lastAllocated, thread, footprint) {
        var key := lastAllocated[thread];
        var chunk := chunks[key];
        var start := key + chunk.usedSize;
        var segment := Segment(key, start, footprint, start + offset, size);
        CutSegment(chunks, live, key, id, segment);
        chunks := chunks[key := chunk.(usedSize := chunk.usedSize + footprint, activeSegments := chunk.activeSegments + 1)];
        live := live[id := segment];
        return Some(segment);
      }
      if newMemory.None? {
        return None;
      }
      var total := ChunkSize(footprint, rollingAverage);
      var key := newMemory.value;
      var segment := Segment(key, key, footprint, key + offset, size);
      if total >= footprint {
        FirstSegment(chunks, live, thread, key, total, id, segment);
      } else {
        TooSmall(chunks[key := Chunk(thread, total, footprint, 1)], live[id := segment], key);
      }
      chunks := chunks[key := Chunk(thread, total, footprint, 1)];
      lastAllocated := lastAllocated[thread := key];
      live := live[id := segment];
      return Some(segment);
    }

    /** The recycle callback: frees the chunk exactly with its last segment. */
    method Recycle(segment: Segment, ghost id: nat) returns (freed: bool)
      requires Valid() && id in live && live[id] == segment
      modifies this
      ensures Valid() && live == old(live) - {id}
      ensures freed <==> forall other | other in live :: live[other].chunk != segment.chunk
      ensures segment.chunk in old(chunks) &&
        var c := old(chunks)[segment.chunk];
        if freed then && chunks == old(chunks) - {segment.chunk} && lastAllocated == old(lastAllocated) - {c.thread}
        else && chunks == old(chunks)[segment.chunk := c.(activeSegments := c.activeSegments - 1)]
             && lastAllocated == old(lastAllocated)
    {
      hide ChunksOk, SegmentsOk, SegmentsIn;
      DropSegment(chunks, live, id);
      var key := segment.chunk;
      NoneInChunk(live - {id}, key);
      var chunk := chunks[key].(activeSegments := chunks[key].activeSegments - 1);
      freed := chunk.activeSegments == 0;
      if freed {
        chunks := chunks - {key};
        lastAllocated := lastAllocated - {chunk.thread};
      } else {
        chunks := chunks[key := chunk];
      }
      live := live - {id};
    }

    /** Adds up the active segments of all chunks: the number of live buffers. */
    method GetNumberOfUnpooledBuffers() returns (n: nat)
      requires Valid()
      ensures n == |live|
    {
      hide ChunksOk, SegmentsOk, LastOk, SegmentsOf, SegmentsIn;
      n := 0;
      var remaining := chunks.Keys;
      ghost var counted: set<nat> := {};
      AllInChunks(chunks, live);
      while remaining != {}
        invariant counted !! remaining && counted + remaining == chunks.Keys
        invariant n == |SegmentsOf(live, counted)|
        decreases |remaining|
      {
        var key :| key in remaining;
        CountByChunk(live, counted + {key}, counted, key);
        ActiveInChunk(chunks, live, key);
        n := n + chunks[key].activeSegments;
        counted, remaining := counted + {key}, remaining - {key};
      }
      assert counted == chunks.Keys;
    }
  }

  lemma ActiveInChunk(chunks: map<nat, Chunk>, live: map<nat, Segment>, key: nat)
    requires ChunksOk(chunks, live) && key in chunks
    ensures chunks[key].activeSegments == |SegmentsIn(live, key)|
  {
  }

  lemma AllInChunks(chunks: map<nat, Chunk>, live: map<nat, Segment>)
    requires SegmentsOk(chunks, live)
    ensures SegmentsOf(live, chunks.Keys) == live.Keys && |live.Keys| == |live| && SegmentsOf(live, {}) == {}
  {
    forall id | id in live ensures live[id].chunk in chunks {
      assert SegmentOk(chunks, live[id]);
    }
  }
}
