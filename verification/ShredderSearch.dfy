/** The four searches for the start and the end of a spanning tuple, on a
    snapshot of the bitmaps, refine a plain scan over the staged numbers. */
module ShredderSearch {
  import opened Bits
  import opened Options
  import opened RawBuffers
  import opened RingArithmetic
  import opened Spans

  /** A copy of the caller's own bitmaps, or of the whole ring. */
  datatype Snapshot =
    | Own(numberOfBitmaps: nat, delim: Word, seen: Word)
    | Ring(tail: nat, numberOfBitmaps: nat, delims: seq<Word>, seens: seq<Word>)

  datatype SpanningTuple = SpanningTuple(spanStart: int, spanEnd: int, isStartValid: bool, isEndValid: bool)

  /** The bit of number `x` in a ring of bitmaps. */
  predicate BitAt(bitmaps: seq<Word>, x: nat)
    requires |bitmaps| > 0
  {
    bitmaps[(x / 64) % |bitmaps|][x % 64]
  }

  /** The seen-and-used bit: a plain buffer, or a start that was handed out. */
  predicate SeenBit(a: Ledger, x: nat) {
    Plain(a, x) || x in a.used
  }

  // ----------------------------------------------- what the bitmaps stand for

  ghost predicate WordMatches(delim: Word, seen: Word, block: nat, a: Ledger) {
    forall i | 0 <= i < 64 ::
      && delim[i] == (64 * block + i in a.delims)
      && seen[i] == SeenBit(a, 64 * block + i)
  }

  ghost predicate Matches(tail: nat, delims: seq<Word>, seens: seq<Word>, a: Ledger) {
    && |delims| == |seens| > 0
    && forall x | 64 * tail <= x < 64 * (tail + |delims|) ::
         BitAt(delims, x) == (x in a.delims) && BitAt(seens, x) == SeenBit(a, x)
  }

  /** Everything below the tail is consumed. */
  ghost predicate BelowTail(tail: nat, a: Ledger) {
    forall x | 0 <= x < 64 * tail :: x in a.staged && (x in a.delims ==> x in a.used)
  }

  ghost predicate InWindow(tail: nat, n: nat, a: Ledger) {
    forall x | x in a.staged :: x < 64 * (tail + n)
  }

  ghost predicate TailOpen(tail: nat, seens: seq<Word>)
    requires |seens| > 0
  {
    seens[tail % |seens|] != Ones()
  }

  ghost predicate RingMatches(tail: nat, delims: seq<Word>, seens: seq<Word>, a: Ledger) {
    && Matches(tail, delims, seens, a)
    && BelowTail(tail, a)
    && InWindow(tail, |delims|, a)
    && TailOpen(tail, seens)
  }

  lemma WordOfRing(tail: nat, delims: seq<Word>, seens: seq<Word>, a: Ledger, block: nat)
    requires Matches(tail, delims, seens, a) && tail <= block < tail + |delims|
    ensures WordMatches(delims[block % |delims|], seens[block % |delims|], block, a)
  {
    forall i | 0 <= i < 64
      ensures delims[block % |delims|][i] == (64 * block + i in a.delims)
      ensures seens[block % |delims|][i] == SeenBit(a, 64 * block + i)
    {
      var x := 64 * block + i;
      assert x / 64 == block && x % 64 == i;
      assert BitAt(delims, x) == (x in a.delims) && BitAt(seens, x) == SeenBit(a, x);
    }
  }

  // -------------------------------------------- facts about the staged numbers

  /** No spanning tuple that was handed out touches `m`. */
  ghost predicate UsedAvoid(a: Ledger, m: nat) {
    forall p: nat | p in a.used :: exists e: nat :: Span(a, p, e) && (m < p || e < m)
  }

  lemma FreshIsAvoided(a: Ledger, m: nat, b: StagedBuffer, hasDelimiter: bool)
    requires Shape(a) && UsedAreComplete(a) && m !in a.staged
    ensures UsedAvoid(Staged(a, m, b, hasDelimiter), m)
  {
    var s := Staged(a, m, b, hasDelimiter);
    forall p: nat | p in s.used ensures exists e: nat :: Span(s, p, e) && (m < p || e < m) {
      var e :| Span(a, p, e);
      SpanStable(a, m, b, hasDelimiter, p, e);
      if p < m < e {
        InGap(a, p, e, m);
      }
    }
  }

  lemma PlainHasNoDelimiter(a: Ledger, x: nat)
    ensures Plain(a, x) ==> x !in a.delims
  {
  }

  lemma AvoidedEnd(a: Ledger, p: nat, m: nat) returns (e: nat)
    requires UsedAvoid(a, m) && p in a.used && p < m
    ensures p < e < m && e in a.delims
  {
    e :| Span(a, p, e) && (m < p || e < m);
  }

  /** A run of ones that reaches up to `m` holds plain buffers only. */
  lemma {:induction false} RunIsPlain(a: Ledger, lo: nat, m: nat)
    requires UsedAvoid(a, m) && lo <= m
    requires forall x | lo <= x < m :: SeenBit(a, x)
    ensures forall x | lo <= x < m :: Plain(a, x)
    decreases m - lo
  {
    if lo < m {
      RunIsPlain(a, lo + 1, m);
      assert SeenBit(a, lo);
      if lo in a.used {
        var e := AvoidedEnd(a, lo, m);
        PlainHasNoDelimiter(a, e);
      }
    }
  }

  /** Below `m` some number is neither plain nor a used start. */
  lemma RunEnds(a: Ledger, m: nat) returns (x: nat)
    requires UsedAvoid(a, m) && 0 in a.delims && m > 0
    ensures x < m && !SeenBit(a, x)
  {
    if forall y | 0 <= y < m :: SeenBit(a, y) {
      RunIsPlain(a, 0, m);
      PlainHasNoDelimiter(a, 0);
    } else {
      x :| 0 <= x < m && !SeenBit(a, x);
    }
  }

  lemma StartExact(a: Ledger, m: nat, x: nat)
    requires UsedAvoid(a, m) && x < m && !SeenBit(a, x)
    requires forall y | x < y < m :: SeenBit(a, y)
    ensures x in a.delims ==> IsStart(a, x, m)
    ensures forall p: nat | IsStart(a, p, m) :: p == x
  {
    RunIsPlain(a, x + 1, m);
    forall p: nat | IsStart(a, p, m) ensures p == x {
      if p < x {
        InGap(a, p, m, x);
      } else {
        PlainHasNoDelimiter(a, p);
      }
    }
  }

  lemma EndExact(a: Ledger, m: nat, x: nat)
    requires m < x && !Plain(a, x)
    requires forall y | m < y < x :: Plain(a, y)
    ensures x in a.delims ==> IsEnd(a, m, x)
    ensures forall e: nat | IsEnd(a, m, e) :: e == x
  {
    forall e: nat | IsEnd(a, m, e) ensures e == x {
      if x < e {
        InGap(a, m, e, x);
      } else {
        PlainHasNoDelimiter(a, e);
      }
    }
  }

  /** `start` is the nearest delimiter reachable below `m`, exactly if `valid`. */
  ghost predicate StartReported(a: Ledger, m: nat, start: int, valid: bool) {
    && start >= 0
    && (valid ==> IsStart(a, start, m))
    && (forall p: nat | IsStart(a, p, m) :: start == p && valid)
  }

  /** `end` is the nearest delimiter reachable above `m`, moved by `shift`, exactly if `valid`. */
  ghost predicate EndReported(a: Ledger, m: nat, shift: int, end: int, valid: bool) {
    && end >= shift
    && (valid ==> IsEnd(a, m, end - shift))
    && (forall e: nat | IsEnd(a, m, e) :: end == e + shift && valid)
  }

  // ------------------------------------------------- searches in one bitmap

  /** Position `i` is the first without a one below `bitIndex`, and `valid` its delimiter bit. */
  predicate BelowRun(bitIndex: nat, delim: Word, seen: Word, i: int, valid: bool) {
    0 <= i < bitIndex <= 64 && valid == delim[i] && !seen[i] && forall j | i < j < bitIndex :: seen[j]
  }

  /** Position `i` is the first above `bitIndex` that is not plain, and `valid` its delimiter bit. */
  predicate AboveRun(bitIndex: int, delim: Word, seen: Word, i: int, valid: bool) {
    && -1 <= bitIndex < i < 64
    && valid == delim[i]
    && !(seen[i] && !delim[i])
    && forall j | bitIndex < j < i :: seen[j] && !delim[j]
  }

  /** `seenAndUsed & ~tupleDelimiter` */
  function PlainBits(delim: Word, seen: Word): (r: Word)
    ensures forall i | 0 <= i < 64 :: r[i] == (seen[i] && !delim[i])
  {
    And(seen, Not(delim))
  }

  /** Shifting the bits below `k` to the top makes their run of ones leading. */
  lemma AlignedLeftRun(w: Word, k: nat)
    requires k < 64
    requires exists j :: 0 <= j < k && !w[j]
    ensures var run := CountLeadingOnes(ShiftLeft(w, 64 - k));
            run < k && !w[k - run - 1] && forall j | k - run - 1 < j < k :: w[j]
  {
    var aligned := ShiftLeft(w, 64 - k);
    var run := CountLeadingOnes(aligned);
    assert forall j | 0 <= j < k :: w[j] == aligned[j + (64 - k)];
  }

  /** Shifting the bits above `k` to the bottom makes their run of ones trailing. */
  lemma AlignedRightRun(w: Word, k: nat)
    requires k < 64
    requires exists j :: k < j < 64 && !w[j]
    ensures var run := CountTrailingOnes(ShiftRight(w, k + 1));
            k + 1 + run < 64 && !w[k + 1 + run] && forall j | k < j < k + 1 + run :: w[j]
  {
    var aligned := ShiftRight(w, k + 1);
    var run := CountTrailingOnes(aligned);
    assert forall j | k < j < 64 :: w[j] == aligned[j - (k + 1)];
  }

  /** Counts the run of ones below the caller's bit; the bit below the run is
      the start if it is a delimiter. */
  function TryGetSpanningTupleStart(bitIndex: nat, offset: nat, delim: Word, seen: Word): (r: (int, bool))
    requires bitIndex < 64
    requires exists j :: 0 <= j < bitIndex && !seen[j]
    ensures BelowRun(bitIndex, delim, seen, r.0 - offset, r.1)
  {
    AlignedLeftRun(seen, bitIndex);
    var aligned := ShiftLeft(seen, 64 - bitIndex);
    var run := CountLeadingOnes(aligned);
    var index := bitIndex - (run + 1);
    TestBitReads(delim, index);
    (offset + index, TestBit(delim, index))
  }

  /** Counts the run of plain buffers above the caller's bit; the bit above the
      run is the end if it is a delimiter. */
  function TryGetSpanningTupleEnd(bitIndex: nat, offset: nat, delim: Word, seen: Word): (r: (int, bool))
    requires bitIndex < 64
    requires exists j :: bitIndex < j < 64 && !(seen[j] && !delim[j])
    ensures AboveRun(bitIndex, delim, seen, r.0 - offset, r.1)
  {
    var onlySeen := PlainBits(delim, seen);
    AlignedRightRun(onlySeen, bitIndex);
    var aligned := ShiftRight(onlySeen, bitIndex + 1);
    var run := CountTrailingOnes(aligned);
    var index := bitIndex + (run + 1);
    TestBitReads(delim, index);
    (offset + index, TestBit(delim, index))
  }

  lemma StartInWord(a: Ledger, m: nat, delim: Word, seen: Word, r: (int, bool))
    requires WordMatches(delim, seen, m / 64, a) && UsedAvoid(a, m)
    requires BelowRun(m % 64, delim, seen, r.0 - 64 * (m / 64), r.1)
    ensures r.0 >= 0
    ensures r.1 ==> IsStart(a, r.0, m)
    ensures forall p: nat | IsStart(a, p, m) :: r == (p, true)
  {
    var offset := 64 * (m / 64);
    var i := r.0 - offset;
    assert seen[i] == SeenBit(a, offset + i);
    forall y | r.0 < y < m ensures SeenBit(a, y) {
      assert seen[y - offset] == SeenBit(a, offset + (y - offset));
    }
    StartExact(a, m, r.0);
  }

  lemma EndInWord(a: Ledger, m: nat, delim: Word, seen: Word, r: (int, bool))
    requires WordMatches(delim, seen, m / 64, a) && a.used <= a.delims
    requires AboveRun(m % 64, delim, seen, r.0 - 64 * (m / 64), r.1)
    ensures r.0 >= 0
    ensures r.1 ==> IsEnd(a, m, r.0)
    ensures forall e: nat | IsEnd(a, m, e) :: r == (e, true)
  {
    var offset := 64 * (m / 64);
    PlainInWord(a, m / 64, delim, seen);
    var i := r.0 - offset;
    assert (seen[i] && !delim[i]) == Plain(a, offset + i);
    forall y | m < y < r.0 ensures Plain(a, y) {
      assert (seen[y - offset] && !delim[y - offset]) == Plain(a, offset + (y - offset));
    }
    EndExact(a, m, r.0);
  }

  lemma PlainInWord(a: Ledger, block: nat, delim: Word, seen: Word)
    requires WordMatches(delim, seen, block, a) && a.used <= a.delims
    ensures forall i | 0 <= i < 64 :: (seen[i] && !delim[i]) == Plain(a, 64 * block + i)
  {
  }

  // -------------------------------------------- searches in the other bitmaps

  lemma FullBlock(a: Ledger, block: nat, delim: Word, seen: Word)
    requires WordMatches(delim, seen, block, a) && seen == Ones()
    ensures forall x | 64 * block <= x < 64 * (block + 1) :: SeenBit(a, x)
  {
    forall x | 64 * block <= x < 64 * (block + 1) ensures SeenBit(a, x) {
      assert seen[x - 64 * block] == SeenBit(a, 64 * block + (x - 64 * block));
    }
  }

  /** Every number from the first of `block` up to `m` has its seen bit set. */
  ghost predicate SeenFrom(a: Ledger, block: nat, m: nat) {
    forall x: nat | 64 * block <= x < m :: SeenBit(a, x)
  }

  ghost predicate PlainUpTo(a: Ledger, m: nat, hi: int) {
    forall x: nat | m < x < hi :: Plain(a, x)
  }

  predicate Skippable(delim: Word, seen: Word) {
    seen == Ones() && delim == Zero()
  }

  lemma PlainBlock(a: Ledger, block: nat, delim: Word, seen: Word)
    requires WordMatches(delim, seen, block, a)
    requires forall x | 64 * block <= x < 64 * (block + 1) :: Plain(a, x)
    ensures delim == Zero()
  {
    forall i | 0 <= i < 64 ensures !delim[i] {
      PlainHasNoDelimiter(a, 64 * block + i);
    }
    AllZero(delim);
  }

  lemma NotBelowTail(tail: nat, a: Ledger, x: nat)
    requires BelowTail(tail, a) && !SeenBit(a, x)
    ensures 64 * tail <= x
  {
  }

  /** Where the backward search stops, the seen bits are not all ones. */
  lemma StopIsOpen(a: Ledger, block: nat, m: nat, delim: Word, seen: Word)
    requires WordMatches(delim, seen, block, a) && UsedAvoid(a, m) && 64 * (block + 1) <= m
    requires SeenFrom(a, block + 1, m) && !Skippable(delim, seen)
    ensures seen != Ones()
  {
    if seen == Ones() {
      FullBlock(a, block, delim, seen);
      RunIsPlain(a, 64 * block, m);
      PlainBlock(a, block, delim, seen);
    }
  }

  /** One step of the backward search over block `here`. */
  lemma LowerStep(tail: nat, delims: seq<Word>, seens: seq<Word>, a: Ledger, m: nat, here: nat, stop: nat, slot: nat)
    requires Matches(tail, delims, seens, a) && UsedAvoid(a, m) && BelowTail(tail, a)
    requires tail <= here < tail + |delims| && 64 * (here + 1) <= m && SeenFrom(a, here + 1, m)
    requires !SeenBit(a, stop) && stop < 64 * (here + 1) && slot == here % |delims|
    ensures slot < |delims| && WordMatches(delims[slot], seens[slot], here, a)
    ensures if Skippable(delims[slot], seens[slot])
            then SeenFrom(a, here, m) && tail < here && stop < 64 * here
            else seens[slot] != Ones()
  {
    WordOfRing(tail, delims, seens, a, here);
    if Skippable(delims[slot], seens[slot]) {
      FullBlock(a, here, delims[slot], seens[slot]);
      NotBelowTail(tail, a, stop);
    } else {
      StopIsOpen(a, here, m, delims[slot], seens[slot]);
    }
  }

  lemma StartBelow(a: Ledger, block: nat, m: nat, delim: Word, seen: Word, i: nat)
    requires WordMatches(delim, seen, block, a) && UsedAvoid(a, m) && 64 * (block + 1) <= m
    requires SeenFrom(a, block + 1, m) && i < 64 && BelowRun(64, delim, seen, i, delim[i])
    ensures delim[i] ==> IsStart(a, 64 * block + i, m)
    ensures forall p: nat | IsStart(a, p, m) :: p == 64 * block + i && delim[i]
  {
    var x := 64 * block + i;
    assert seen[i] == SeenBit(a, 64 * block + i);
    forall y: nat | x < y < m ensures SeenBit(a, y) {
      if y < 64 * (block + 1) {
        assert seen[y - 64 * block] == SeenBit(a, 64 * block + (y - 64 * block));
      }
    }
    StartExact(a, m, x);
  }

  /** The end of the backward search: the highest zero of block `here`. */
  lemma LowerFinish(a: Ledger, m: nat, here: nat, delim: Word, seen: Word)
    requires WordMatches(delim, seen, here, a) && UsedAvoid(a, m)
    requires 64 * (here + 1) <= m && SeenFrom(a, here + 1, m) && seen != Ones()
    ensures var i := 64 - (CountLeadingOnes(seen) + 1);
            && i >= 0
            && (TestBit(delim, i) ==> IsStart(a, 64 * here + i, m))
            && forall p: nat | IsStart(a, p, m) :: p == 64 * here + i && TestBit(delim, i)
  {
    AllOnes(seen);
    var i := 64 - (CountLeadingOnes(seen) + 1);
    TestBitReads(delim, i);
    StartBelow(a, here, m, delim, seen, i);
  }

  lemma LowerEntry(tail: nat, a: Ledger, m: nat) returns (stop: nat)
    requires BelowTail(tail, a) && UsedAvoid(a, m) && 0 in a.delims && m > 0
    requires SeenFrom(a, m / 64, m)
    ensures !SeenBit(a, stop) && 64 * tail <= stop < 64 * (m / 64)
  {
    stop := RunEnds(a, m);
    NotBelowTail(tail, a, stop);
  }

  /** Skips bitmaps that hold plain buffers only, down to the tail at most. */
  method TryToFindLowerWrappingSpanningTuple(offset: nat, currentBitmapIndex: nat, snapshot: Snapshot,
                                             ghost a: Ledger, ghost m: nat)
    returns (start: int, valid: bool)
    requires snapshot.Ring? && snapshot.numberOfBitmaps == |snapshot.delims|
    requires RingMatches(snapshot.tail, snapshot.delims, snapshot.seens, a)
    requires UsedAvoid(a, m) && 0 in a.delims && m > 0 && snapshot.tail <= m / 64 <= snapshot.tail + |snapshot.delims|
    requires offset == 64 * (m / 64) && currentBitmapIndex == (m / 64) % snapshot.numberOfBitmaps
    requires SeenFrom(a, m / 64, m)
    ensures StartReported(a, m, start, valid)
  {
    hide WordMatches, BelowTail, UsedAvoid, SeenFrom, SeenBit, IsStart, Bits.TestBit, OnesFrom;
    ghost var block := m / 64;
    ghost var stop := LowerEntry(snapshot.tail, a, m);
    var n := snapshot.numberOfBitmaps;
    var bitmapIndex := currentBitmapIndex;
    var bitmapIndexOffset := 0;
    var allBuffersSeenButNoDelimiter := true;
    ghost var clear: nat, here: nat := block, block;
    while allBuffersSeenButNoDelimiter
      invariant snapshot.tail <= clear && stop < 64 * clear <= m && SeenFrom(a, clear, m)
      invariant bitmapIndexOffset == block - clear + (if allBuffersSeenButNoDelimiter then 0 else 1)
      invariant !allBuffersSeenButNoDelimiter ==>
        && 0 <= bitmapIndex < |snapshot.delims| && snapshot.seens[bitmapIndex] != Ones()
        && WordMatches(snapshot.delims[bitmapIndex], snapshot.seens[bitmapIndex], here, a) && here == clear - 1
      decreases allBuffersSeenButNoDelimiter, clear
    {
      bitmapIndexOffset := bitmapIndexOffset + 1;
      bitmapIndex := (currentBitmapIndex - bitmapIndexOffset) % n;
      here := clear - 1;
      SlotBack(block, currentBitmapIndex, bitmapIndexOffset, n, here);
      LowerStep(snapshot.tail, snapshot.delims, snapshot.seens, a, m, here, stop, bitmapIndex);
      allBuffersSeenButNoDelimiter := snapshot.seens[bitmapIndex] == Ones() && snapshot.delims[bitmapIndex] == Zero();
      clear := if allBuffersSeenButNoDelimiter then here else clear;
    }
    LowerFinish(a, m, here, snapshot.delims[bitmapIndex], snapshot.seens[bitmapIndex]);
    var potentialStart := CountLeadingOnes(snapshot.seens[bitmapIndex]) + 1;
    var index := 64 - potentialStart;
    start := offset - 64 * bitmapIndexOffset + index;
    valid := TestBit(snapshot.delims[bitmapIndex], index);
  }

  /** One step of the forward search over block `here`. */
  lemma HigherStep(tail: nat, delims: seq<Word>, seens: seq<Word>, a: Ledger, m: nat, here: nat, slot: nat)
    requires RingMatches(tail, delims, seens, a) && a.used <= a.delims
    requires tail < here <= tail + |delims| && PlainUpTo(a, m, 64 * here) && slot == here % |delims|
    ensures slot < |delims|
    ensures (slot == tail % |delims|) == (here == tail + |delims|)
    ensures here < tail + |delims| ==> WordMatches(delims[slot], seens[slot], here, a)
    ensures Skippable(delims[slot], seens[slot]) ==> here < tail + |delims| && PlainUpTo(a, m, 64 * (here + 1))
  {
    AddOne(tail, |delims|);
    if here < tail + |delims| {
      if slot == tail % |delims| {
        SlotUnique(here, tail, |delims|);
      }
      WordOfRing(tail, delims, seens, a, here);
      if Skippable(delims[slot], seens[slot]) {
        PlainFromSkippable(a, m, here, delims[slot], seens[slot]);
      }
    }
  }

  lemma PlainFromSkippable(a: Ledger, m: nat, here: nat, delim: Word, seen: Word)
    requires WordMatches(delim, seen, here, a) && Skippable(delim, seen) && a.used <= a.delims
    requires PlainUpTo(a, m, 64 * here)
    ensures PlainUpTo(a, m, 64 * (here + 1))
  {
    FullBlock(a, here, delim, seen);
    forall x: nat | m < x < 64 * (here + 1) ensures Plain(a, x) {
      if 64 * here <= x {
        assert delim[x - 64 * here] == (64 * here + (x - 64 * here) in a.delims);
      }
    }
  }

  /** The end of the forward search inside the window. */
  lemma HigherFinish(a: Ledger, m: nat, here: nat, delim: Word, seen: Word)
    requires WordMatches(delim, seen, here, a) && a.used <= a.delims && m < 64 * here
    requires PlainUpTo(a, m, 64 * here) && !Skippable(delim, seen)
    ensures var i := CountTrailingOnes(PlainBits(delim, seen));
            && i < 64
            && (TestBit(delim, i) ==> IsEnd(a, m, 64 * here + i))
            && forall e: nat | IsEnd(a, m, e) :: e == 64 * here + i && TestBit(delim, i)
  {
    NotSkippable(delim, seen);
    PlainInWord(a, here, delim, seen);
    var only := PlainBits(delim, seen);
    var i := CountTrailingOnes(only);
    TestBitReads(delim, i);
    assert only[i] == Plain(a, 64 * here + i);
    forall y | m < y < 64 * here + i ensures Plain(a, y) {
      if 64 * here <= y {
        assert only[y - 64 * here] == Plain(a, 64 * here + (y - 64 * here));
      }
    }
    EndExact(a, m, 64 * here + i);
  }

  lemma HigherReport(a: Ledger, m: nat, here: nat, delim: Word, seen: Word, shift: nat)
    requires WordMatches(delim, seen, here, a) && a.used <= a.delims && m < 64 * here
    requires PlainUpTo(a, m, 64 * here) && !Skippable(delim, seen)
    ensures var i := CountTrailingOnes(PlainBits(delim, seen));
            i < 64 && EndReported(a, m, shift, 64 * here + i + shift, TestBit(delim, i))
  {
    hide WordMatches, IsEnd, PlainUpTo, Bits.TestBit, OnesBelow;
    HigherFinish(a, m, here, delim, seen);
  }

  lemma NotSkippable(delim: Word, seen: Word)
    requires !Skippable(delim, seen)
    ensures CountTrailingOnes(PlainBits(delim, seen)) < 64
  {
    AllOnes(seen);
    AllZero(delim);
  }

  /** The forward search ran into the tail: no number above the window is staged. */
  lemma NoEndInWindow(tail: nat, n: nat, a: Ledger, m: nat, shift: nat, end: int)
    requires InWindow(tail, n, a) && a.delims <= a.staged.Keys && PlainUpTo(a, m, 64 * (tail + n)) && end >= shift
    ensures EndReported(a, m, shift, end, false)
  {
    forall e: nat ensures !IsEnd(a, m, e) {
      PlainHasNoDelimiter(a, e);
    }
  }

  /** Skips bitmaps that hold plain buffers only, around the ring to the tail at most. */
  method TryToFindHigherWrappingSpanningTuple(offset: nat, currentBitmapIndex: nat, snapshot: Snapshot,
                                              ghost a: Ledger, ghost m: nat, ghost shift: nat)
    returns (end: int, valid: bool)
    requires snapshot.Ring? && snapshot.numberOfBitmaps == |snapshot.delims|
    requires RingMatches(snapshot.tail, snapshot.delims, snapshot.seens, a)
    requires a.used <= a.delims <= a.staged.Keys
    requires 64 * snapshot.tail <= m < 64 * (snapshot.tail + |snapshot.delims|)
    requires offset == 64 * (m / 64) + shift && currentBitmapIndex == (m / 64) % snapshot.numberOfBitmaps
    requires PlainUpTo(a, m, 64 * (m / 64 + 1))
    ensures EndReported(a, m, shift, end, valid)
  {
    hide WordMatches, BelowTail, InWindow, PlainUpTo, SeenBit, IsEnd, Bits.TestBit, OnesBelow, EndReported;
    ghost var block := m / 64;
    var n := snapshot.numberOfBitmaps;
    var bitmapIndex := currentBitmapIndex;
    var bitmapIndexOffset := 0;
    var allBuffersSeenButNoDelimiter := true;
    ghost var here: nat := block;
    while allBuffersSeenButNoDelimiter
      invariant bitmapIndexOffset == here - block
      invariant allBuffersSeenButNoDelimiter ==>
        snapshot.tail <= here < snapshot.tail + |snapshot.delims| && PlainUpTo(a, m, 64 * (here + 1))
      invariant !allBuffersSeenButNoDelimiter ==>
        && block < here <= snapshot.tail + |snapshot.delims|
        && PlainUpTo(a, m, 64 * here)
        && 0 <= bitmapIndex < |snapshot.delims|
        && !Skippable(snapshot.delims[bitmapIndex], snapshot.seens[bitmapIndex])
        && (bitmapIndex == snapshot.tail % |snapshot.delims|) == (here == snapshot.tail + |snapshot.delims|)
        && (here < snapshot.tail + |snapshot.delims| ==>
              WordMatches(snapshot.delims[bitmapIndex], snapshot.seens[bitmapIndex], here, a))
      decreases allBuffersSeenButNoDelimiter, snapshot.tail + |snapshot.delims| - here
    {
      bitmapIndexOffset := bitmapIndexOffset + 1;
      bitmapIndex := (currentBitmapIndex + bitmapIndexOffset) % n;
      here := here + 1;
      SlotForward(block, currentBitmapIndex, bitmapIndexOffset, n, here);
      HigherStep(snapshot.tail, snapshot.delims, snapshot.seens, a, m, here, bitmapIndex);
      allBuffersSeenButNoDelimiter := Skippable(snapshot.delims[bitmapIndex], snapshot.seens[bitmapIndex]);
    }
    var onlySeenIsOne := PlainBits(snapshot.delims[bitmapIndex], snapshot.seens[bitmapIndex]);
    NotSkippable(snapshot.delims[bitmapIndex], snapshot.seens[bitmapIndex]);
    var index := CountTrailingOnes(onlySeenIsOne);
    end := offset + 64 * bitmapIndexOffset + index;
    var isTupleDelimiter := TestBit(snapshot.delims[bitmapIndex], index);
    var tailBitmapIndex := snapshot.tail % n;
    valid := isTupleDelimiter && bitmapIndex != tailBitmapIndex;
    if bitmapIndex == tailBitmapIndex {
      NoEndInWindow(snapshot.tail, |snapshot.delims|, a, m, shift, end);
    } else {
      HigherReport(a, m, here, snapshot.delims[bitmapIndex], snapshot.seens[bitmapIndex], shift);
    }
  }

  // ------------------------------------------------------------ the whole search

  /** Every buffer of the bitmap below `m` is plain. */
  ghost predicate LowerRun(a: Ledger, m: nat) {
    forall x: nat | 64 * (m / 64) <= x < m :: Plain(a, x)
  }

  ghost predicate HigherRun(a: Ledger, m: nat) {
    PlainUpTo(a, m, 64 * (m / 64 + 1))
  }

  ghost predicate SnapshotMatches(a: Ledger, m: nat, snapshot: Snapshot, wrapping: bool) {
    if wrapping
    then && snapshot.Ring? && snapshot.numberOfBitmaps == |snapshot.delims|
         && RingMatches(snapshot.tail, snapshot.delims, snapshot.seens, a)
         && 64 * snapshot.tail <= m < 64 * (snapshot.tail + |snapshot.delims|)
    else snapshot.Own? && snapshot.numberOfBitmaps > 0 && WordMatches(snapshot.delim, snapshot.seen, m / 64, a)
  }

  /** What the search reports, against the delimiters that are reachable: a
      buffer with a delimiter learns both; a plain buffer learns the spanning
      tuple that runs through it, except for the overlooked first one. */
  ghost predicate Reports(a: Ledger, m: nat, r: SpanningTuple, c: Claim) {
    && Exact(a, m, c)
    && (r.isStartValid ==> c.start == Some(r.spanStart))
    && (r.isEndValid ==> c.end == Some(r.spanEnd))
    && if m in a.delims
       then r.isStartValid == c.start.Some? && r.isEndValid == c.end.Some?
       else (r.isStartValid && r.isEndValid) == (c.start.Some? && c.end.Some? && !Overlooked(m, c))
  }

  lemma RunBelowIsOpen(a: Ledger, m: nat, delim: Word, seen: Word)
    requires WordMatches(delim, seen, m / 64, a) && UsedAvoid(a, m) && !LowerRun(a, m)
    ensures exists j :: 0 <= j < m % 64 && !seen[j]
  {
    var lo := 64 * (m / 64);
    if forall j | 0 <= j < m % 64 :: seen[j] {
      forall x: nat | lo <= x < m ensures SeenBit(a, x) {
        assert seen[x - lo] == SeenBit(a, lo + (x - lo));
      }
      RunIsPlain(a, lo, m);
    }
  }

  lemma RunAboveIsOpen(a: Ledger, m: nat, delim: Word, seen: Word)
    requires WordMatches(delim, seen, m / 64, a) && a.used <= a.delims && !HigherRun(a, m)
    ensures exists j :: m % 64 < j < 64 && !(seen[j] && !delim[j])
  {
    var lo := 64 * (m / 64);
    PlainInWord(a, m / 64, delim, seen);
    var x: nat :| m < x < lo + 64 && !Plain(a, x);
    assert (seen[x - lo] && !delim[x - lo]) == Plain(a, lo + (x - lo));
  }

  method StartInBitmap(m: nat, delim: Word, seen: Word, ghost a: Ledger) returns (start: int, valid: bool)
    requires WordMatches(delim, seen, m / 64, a) && UsedAvoid(a, m) && !LowerRun(a, m)
    ensures start >= 64 * (m / 64) && StartReported(a, m, start, valid)
  {
    RunBelowIsOpen(a, m, delim, seen);
    var r := TryGetSpanningTupleStart(m % 64, 64 * (m / 64), delim, seen);
    StartInWord(a, m, delim, seen, r);
    return r.0, r.1;
  }

  method EndInBitmap(m: nat, delim: Word, seen: Word, ghost a: Ledger, ghost seat: nat) returns (end: int, valid: bool)
    requires seat <= m && m % 64 == seat % 64
    requires WordMatches(delim, seen, seat / 64, a) && a.used <= a.delims && !HigherRun(a, seat)
    ensures end < 64 * (m / 64) + 64 && EndReported(a, seat, m - seat, end, valid)
  {
    RunAboveIsOpen(a, seat, delim, seen);
    var r := TryGetSpanningTupleEnd(m % 64, 64 * (m / 64), delim, seen);
    EndInWord(a, seat, delim, seen, (r.0 - (m - seat), r.1));
    return r.0, r.1;
  }

  /** The plain scan: the delimiters that are reachable from `m`, if any. */
  ghost function Reachable(a: Ledger, m: nat): (c: Claim)
    ensures Exact(a, m, c)
  {
    var start := if exists p: nat :: IsStart(a, p, m) then var p: nat :| IsStart(a, p, m); Some(p) else None;
    var end := if exists e: nat :: IsEnd(a, m, e) then var e: nat :| IsEnd(a, m, e); Some(e) else None;
    assert forall p: nat | IsStart(a, p, m) :: start == Some(p) by {
      forall p: nat | IsStart(a, p, m) ensures start == Some(p) {
        StartUnique(a, p, start.value, m);
      }
    }
    assert forall e: nat | IsEnd(a, m, e) :: end == Some(e) by {
      forall e: nat | IsEnd(a, m, e) ensures end == Some(e) {
        EndUnique(a, m, e, end.value);
      }
    }
    Claim(start, end)
  }

  lemma EndOutsideBitmap(a: Ledger, m: nat, e: nat)
    requires HigherRun(a, m) && IsEnd(a, m, e)
    ensures m / 64 < e / 64
  {
    PlainHasNoDelimiter(a, e);
  }

  /** In a ring of `n` bitmaps the call of `m` meets the bits of number `seat`: its
      own, or those of the tail's first number if `m` lies just behind the ring. */
  ghost predicate Seated(tail: nat, n: nat, m: nat, seat: nat) {
    && 64 * tail <= seat < 64 * (tail + n)
    && (seat == m || (seat == 64 * tail && m == 64 * (tail + n)))
  }

  lemma SameSlot(tail: nat, n: nat, m: nat, seat: nat)
    requires Seated(tail, n, m, seat)
    ensures n > 0 && m % 64 == seat % 64 && (m / 64) % n == (seat / 64) % n && seat <= m
    ensures tail <= m / 64 <= tail + n && (seat != m ==> m % 64 == 0)
  {
    AddOne(tail, n);
  }

  /** The search reports the nearest delimiter below `m`, and the one above its
      seat, counted from `m`. */
  ghost predicate ReportsFrom(a: Ledger, m: nat, seat: nat, r: SpanningTuple) {
    StartReported(a, m, r.spanStart, r.isStartValid) && EndReported(a, seat, m - seat, r.spanEnd, r.isEndValid)
  }

  /** Both ends were searched; for a plain buffer the end lies in its own bitmap or the start is not zero. */
  lemma BothReported(a: Ledger, m: nat, r: SpanningTuple)
    requires ReportsFrom(a, m, m, r)
    requires m in a.delims || r.spanEnd / 64 <= m / 64 || r.spanStart != 0
    ensures Reports(a, m, r, Reachable(a, m))
  {
    var c := Reachable(a, m);
    assert c.start.Some? ==> IsStart(a, c.start.value, m);
    assert c.end.Some? ==> IsEnd(a, m, c.end.value);
  }

  /** A plain buffer without an end in its own bitmap does not look for the start. */
  lemma NoEndReported(a: Ledger, m: nat, end: int)
    requires m !in a.delims && EndReported(a, m, 0, end, false)
    ensures Reports(a, m, SpanningTuple(0, end, false, false), Reachable(a, m))
  {
    var c := Reachable(a, m);
    assert c.end.Some? ==> IsEnd(a, m, c.end.value);
  }

  /** A plain buffer whose start is zero does not look for an end in later bitmaps. */
  lemma FirstOverlooked(a: Ledger, m: nat, valid: bool)
    requires m !in a.delims && StartReported(a, m, 0, valid) && HigherRun(a, m)
    ensures Reports(a, m, SpanningTuple(0, 0, valid, false), Reachable(a, m))
  {
    var c := Reachable(a, m);
    assert c.start.Some? ==> IsStart(a, c.start.value, m);
    if c.end.Some? {
      EndOutsideBitmap(a, m, c.end.value);
    }
  }

  /** The four modes of the search. */
  method Search(m: nat, hasDelimiter: bool, needLower: bool, needHigher: bool, snapshot: Snapshot,
                ghost a: Ledger, ghost tail: nat, ghost seat: nat)
    returns (r: SpanningTuple)
    requires Shape(a) && UsedAvoid(a, m) && m > 0 && Seated(tail, snapshot.numberOfBitmaps, m, seat)
    requires seat == m ==> hasDelimiter == (m in a.delims)
    requires seat != m ==> hasDelimiter
    requires needLower == LowerRun(a, seat) && needHigher == HigherRun(a, seat)
    requires SnapshotMatches(a, seat, snapshot, needLower || needHigher)
    requires snapshot.Ring? ==> snapshot.tail == tail
    ensures seat == m ==> Reports(a, m, r, Reachable(a, m))
    ensures hasDelimiter ==> ReportsFrom(a, m, seat, r)
  {
    hide WordMatches, UsedAvoid, RingMatches, StartReported, EndReported, Reports, Reachable, LowerRun, HigherRun, Shape, Seated;
    SearchFacts(tail, a, m, seat, snapshot, needLower, needHigher);
    var block := m / 64;
    var slot := block % snapshot.numberOfBitmaps;
    var offset := 64 * block;
    if !needLower && !needHigher {
      var start, isStartValid := StartInBitmap(m, snapshot.delim, snapshot.seen, a);
      var end, isEndValid := EndInBitmap(m, snapshot.delim, snapshot.seen, a, seat);
      r := SpanningTuple(start, end, isStartValid, isEndValid);
      if seat == m {
        BothReported(a, m, r);
      }
      return;
    }
    if !needHigher {
      var end, isEndValid := EndInBitmap(m, snapshot.delims[slot], snapshot.seens[slot], a, seat);
      if isEndValid || hasDelimiter {
        var start, isStartValid := TryToFindLowerWrappingSpanningTuple(offset, slot, snapshot, a, m);
        r := SpanningTuple(start, end, isStartValid, isEndValid);
        if seat == m {
          BothReported(a, m, r);
        }
      } else {
        r := SpanningTuple(0, end, false, isEndValid);
        NoEndReported(a, m, end);
      }
    } else {
      var start, isStartValid;
      if needLower {
        start, isStartValid := TryToFindLowerWrappingSpanningTuple(offset, slot, snapshot, a, m);
      } else {
        start, isStartValid := StartInBitmap(m, snapshot.delims[slot], snapshot.seens[slot], a);
      }
      if start != 0 || hasDelimiter {
        var end, isEndValid := TryToFindHigherWrappingSpanningTuple(offset, slot, snapshot, a, seat, m - seat);
        r := SpanningTuple(start, end, isStartValid, isEndValid);
        if seat == m {
          BothReported(a, m, r);
        }
      } else {
        r := SpanningTuple(start, 0, isStartValid, false);
        FirstOverlooked(a, m, isStartValid);
      }
    }
  }

  /** What the modes of the search need of the snapshot. */
  lemma SearchFacts(tail: nat, a: Ledger, m: nat, seat: nat, snapshot: Snapshot, needLower: bool, needHigher: bool)
    requires Shape(a) && Seated(tail, snapshot.numberOfBitmaps, m, seat)
    requires SnapshotMatches(a, seat, snapshot, needLower || needHigher) && (snapshot.Ring? ==> snapshot.tail == tail)
    requires needLower == LowerRun(a, seat) && needHigher == HigherRun(a, seat)
    ensures snapshot.numberOfBitmaps > 0 && m % 64 == seat % 64 && seat <= m
    ensures (m / 64) % snapshot.numberOfBitmaps == (seat / 64) % snapshot.numberOfBitmaps
    ensures tail <= m / 64 <= tail + snapshot.numberOfBitmaps
    ensures a.used <= a.delims <= a.staged.Keys && 0 in a.delims
    ensures !needLower ==> seat == m
    ensures needLower ==> SeenFrom(a, m / 64, m)
    ensures needHigher == PlainUpTo(a, seat, 64 * (seat / 64 + 1))
    ensures snapshot.Ring? ==>
      var slot := (m / 64) % snapshot.numberOfBitmaps;
      && |snapshot.delims| == |snapshot.seens| == snapshot.numberOfBitmaps
      && WordMatches(snapshot.delims[slot], snapshot.seens[slot], seat / 64, a)
  {
    SameSlot(tail, snapshot.numberOfBitmaps, m, seat);
    if snapshot.Ring? {
      WordOfRing(snapshot.tail, snapshot.delims, snapshot.seens, a, seat / 64);
    }
  }
}
