/** The sequence shredder: ring bitmaps, staged buffers and use counts, updated
    in place by two locked sections per call.

    `Stage` is the first section together with the lock-free search that works
    on its snapshot; the two commits are the second section.  Between the two,
    any other call may run: every interleaving is a sequence of these methods,
    and `Valid()` ties the fields to the ledger after each of them. */
module SequenceShredding {
  import opened Bits
  import opened Options
  import opened RawBuffers
  import opened RingArithmetic
  import opened Spans
  import opened UseCounts
  import opened ShredderSearch
  import opened ShredderRing
  import opened ShredderBuffers
  import opened FlushRange

  const MAX_NUMBER_OF_BITMAPS: nat := 2048
  const MIN_NUMBER_OF_RESIZE_REQUESTS: nat := 5

  /** The local state of a call between its two locked sections. */
  datatype Call = Call(number: nat, hasDelimiter: bool, span: SpanningTuple, numberOfBitmaps: nat, buffer: StagedBuffer)

  datatype SpanningTupleBuffers = SpanningTupleBuffers(indexOfProcessedSequenceNumber: nat, buffers: seq<StagedBuffer>)

  /** The buffers of the numbers from `first` up to, not including, `next`, as they were staged. */
  ghost predicate AreStaged(buffers: seq<StagedBuffer>, a: Ledger, first: nat, next: nat) {
    && |buffers| == next - first
    && forall x | first <= x < next :: x in a.staged && buffers[x - first] == a.staged[x]
  }

  ghost predicate ClaimOf(span: SpanningTuple, c: Claim) {
    && span.isStartValid == c.start.Some? && (c.start.Some? ==> span.spanStart == c.start.value)
    && span.isEndValid == c.end.Some? && (c.end.Some? ==> span.spanEnd == c.end.value)
  }

  /** What the bit tests of the first section decide about its own bitmap. */
  lemma WrappingChecks(a: Ledger, m: nat, delim: Word, seen: Word)
    requires WordMatches(delim, seen, m / 64, a) && a.used <= a.delims
    ensures var w := Xor(Or(delim, seen), delim);
            && (Or(LowerBitsMask(m % 64), w) == w) == LowerRun(a, m)
            && (Or(HigherBitsMask(m % 64), w) == w) == HigherRun(a, m)
  {
    var w := Xor(Or(delim, seen), delim);
    var lo := 64 * (m / 64);
    PlainInWord(a, m / 64, delim, seen);
    assert forall i | 0 <= i < 64 :: w[i] == Plain(a, lo + i);
    Covers(LowerBitsMask(m % 64), w);
    Covers(HigherBitsMask(m % 64), w);
    if forall i | 0 <= i < 64 :: i < m % 64 ==> w[i] {
      forall x: nat | lo <= x < m ensures Plain(a, x) {
        assert w[x - lo] == Plain(a, lo + (x - lo));
      }
    }
    if forall i | 0 <= i < 64 :: i > m % 64 ==> w[i] {
      forall x: nat | m < x < lo + 64 ensures Plain(a, x) {
        assert w[x - lo] == Plain(a, lo + (x - lo));
      }
    }
  }

  /** The fields are in step with the ledger and with the calls in flight. */
  ghost predicate StateOk(tail: nat, delims: seq<Word>, seens: seq<Word>, buffers: seq<StagedBuffer>, uses: seq<int>,
                          a: Ledger, rings: map<nat, nat>)
  {
    && StateButTail(tail, delims, seens, buffers, uses, a, rings)
    && TailOpen(tail, seens)
  }

  ghost predicate StateButTail(tail: nat, delims: seq<Word>, seens: seq<Word>, buffers: seq<StagedBuffer>, uses: seq<int>,
                               a: Ledger, rings: map<nat, nat>)
  {
    && Inv(a)
    && PowerOfTwo(|delims|)
    && Matches(tail, delims, seens, a)
    && BelowTail(tail, a)
    && InWindow(tail, |delims|, a)
    && |buffers| == 64 * |delims|
    && BuffersMatch(tail, buffers, uses, a)
    && Honest(buffers, a)
    && NumbersMatch(a)
    && RingsMatch(tail, |delims|, a, rings)
  }

  /** The state after the buffers of call `m` have been handed out and before its starts are marked. */
  ghost predicate HandedOut(tail: nat, delims: seq<Word>, seens: seq<Word>, buffers: seq<StagedBuffer>, uses: seq<int>,
                            a: Ledger, rings: map<nat, nat>, m: nat)
  {
    && Inv(a) && m in a.calls
    && PowerOfTwo(|delims|)
    && RingMatches(tail, delims, seens, a)
    && |buffers| == 64 * |delims|
    && BuffersMatch(tail, buffers, uses, CommitStep(a, m))
    && Honest(buffers, a)
    && NumbersMatch(a)
    && RingsMatch(tail, |delims|, a, rings)
  }

  /** The ledger holds what the first section of the call recorded. */
  ghost predicate Recorded(a: Ledger, rings: map<nat, nat>, call: Call) {
    && call.number in a.calls && call.number in a.staged && call.number in rings
    && call.hasDelimiter == (call.number in a.delims)
    && call.buffer == a.staged[call.number]
    && call.numberOfBitmaps == rings[call.number]
    && ClaimOf(call.span, a.calls[call.number])
  }

  /** The ledger after a first locked section and its search. */
  ghost function StagedCall(a: Ledger, m: nat, b: StagedBuffer, hasDelimiter: bool): (a': Ledger) {
    StageStep(a, m, b, hasDelimiter, Reachable(Staged(a, m, b, hasDelimiter), m))
  }

  /** A tail that stands on slot zero of a ring of `n` bitmaps. */
  predicate AtSlotZero(t: nat, n: nat)
    requires n > 0
  {
    t % n == 0
  }

  /** The conditions under which the ring doubles when the tail moves from `before`
      to `after`: enough numbers were refused, the tail has passed slot zero, it
      keeps its slot, and the doubled ring is not too large. */
  ghost predicate Doubles(before: nat, after: nat, n: nat, refusals: nat)
    requires n > 0
  {
    && refusals >= 5
    && (exists t: nat :: before <= t < after && AtSlotZero(t, n))
    && after % (2 * n) == after % n
    && 2 * n <= 2048
  }

  /** Size and refusals of the ring after the tail has moved. */
  ghost predicate Resized(before: nat, after: nat, n: nat, refusals: nat, n': nat, refusals': nat)
    requires n > 0
  {
    if Doubles(before, after, n, refusals) then n' == 2 * n && refusals' == 0 else n' == n && refusals' == refusals
  }

  class SequenceShredder {
    var tail: nat
    var tupleDelimiterBitmaps: seq<Word>
    var seenAndUsedBitmaps: seq<Word>
    var numberOfBitmaps: nat
    var resizeRequestCount: nat
    var stagedBuffers: seq<StagedBuffer>
    var stagedBufferUses: seq<int>
    ghost var ledger: Ledger
    ghost var rings: map<nat, nat>

    ghost predicate Valid()
      reads this
    {
      && |tupleDelimiterBitmaps| == numberOfBitmaps
      && StateOk(tail, tupleDelimiterBitmaps, seenAndUsedBitmaps, stagedBuffers, stagedBufferUses, ledger, rings)
    }

    /** The call is between its two locked sections. */
    ghost predicate InFlight(call: Call)
      reads this
    {
      Recorded(ledger, rings, call)
    }

    constructor (sizeOfTupleDelimiter: nat, initialNumBitmaps: nat)
      requires PowerOfTwo(initialNumBitmaps)
      ensures Valid()
      ensures tail == 0 && numberOfBitmaps == initialNumBitmaps && resizeRequestCount == 0
      ensures ledger == Initial(StagedBuffer(None, sizeOfTupleDelimiter, 0, 0))
    {
      var first := StagedBuffer(None, sizeOfTupleDelimiter, 0, 0);
      tail := 0;
      numberOfBitmaps := initialNumBitmaps;
      resizeRequestCount := 0;
      tupleDelimiterBitmaps := seq(initialNumBitmaps, i => Zero())[0 := Or(Zero(), BitMask(0))];
      seenAndUsedBitmaps := seq(initialNumBitmaps, i => Zero());
      stagedBuffers := seq(64 * initialNumBitmaps, i => StagedBuffer(None, 0, 0, 0))[0 := first];
      stagedBufferUses := seq(64 * initialNumBitmaps, i => 0)[0 := 1];
      ledger := Initial(first);
      rings := map[];
      new;
      InitialRing(initialNumBitmaps, first);
      InitialInv(first);
    }

    /** Is the bitmap of the number within the ring?  A refusal is a request to grow. */
    method IsInRange(sequenceNumber: nat) returns (inRange: bool)
      requires Valid()
      modifies this`resizeRequestCount
      ensures Valid()
      ensures inRange == (sequenceNumber < 64 * (tail + numberOfBitmaps))
      ensures resizeRequestCount == old(resizeRequestCount) + (if inRange then 0 else 1)
    {
      var targetBitmap := sequenceNumber / 64;
      if targetBitmap < tail + numberOfBitmaps {
        return true;
      }
      resizeRequestCount := resizeRequestCount + 1;
      return false;
    }

    /** First locked section and search: stores the buffer, sets its bit, copies
        the bitmaps the search needs, and finds what the buffer completes. */
    method Stage(buffer: StagedBuffer, number: nat, hasDelimiter: bool) returns (call: Call)
      requires Valid()
      requires number > 0 && number !in ledger.staged && number < 64 * (tail + numberOfBitmaps)
      requires buffer.buffer.Some? ==> buffer.buffer.value.sequenceNumber == number
      modifies this
      ensures Valid()
      ensures ledger == StagedCall(old(ledger), number, buffer, hasDelimiter)
      ensures tail == old(tail) && numberOfBitmaps == old(numberOfBitmaps)
      ensures resizeRequestCount == old(resizeRequestCount)
      ensures call.number == number && call.hasDelimiter == hasDelimiter && call.buffer == buffer
      ensures hasDelimiter || (call.span.isStartValid && call.span.isEndValid) <==> number in ledger.calls
      ensures number in ledger.calls ==> InFlight(call)
      ensures forall other :: old(InFlight(other)) ==> InFlight(other)
    {
      hide Inv, BuffersMatch, RingsMatch, Honest, NumbersMatch, Matches, BelowTail, InWindow, Exact, Reports;
      ghost var a := ledger;
      ghost var c := Reachable(Staged(a, number, buffer, hasDelimiter), number);
      call := StoreAndSearch(buffer, number, hasDelimiter);
      ledger := StageStep(a, number, buffer, hasDelimiter, c);
      rings := if number in ledger.calls then rings[number := numberOfBitmaps] else rings;
      StageStateOk(tail, old(tupleDelimiterBitmaps), tupleDelimiterBitmaps, seenAndUsedBitmaps, old(seenAndUsedBitmaps),
                   old(stagedBuffers), old(stagedBufferUses), a, ledger, old(rings), rings, number, buffer, hasDelimiter, c,
                   number % |stagedBuffers|);
      StageRecorded(a, ledger, old(rings), rings, number, buffer, hasDelimiter, c, call);
    }

    method StoreAndSearch(buffer: StagedBuffer, number: nat, hasDelimiter: bool) returns (call: Call)
      requires Valid()
      requires number > 0 && number !in ledger.staged && number < 64 * (tail + numberOfBitmaps)
      modifies this`stagedBuffers, this`stagedBufferUses, this`tupleDelimiterBitmaps, this`seenAndUsedBitmaps
      ensures 64 * tail <= number
      ensures var position := number % |old(stagedBuffers)|;
              && stagedBuffers == old(stagedBuffers)[position := buffer]
              && stagedBufferUses == old(stagedBufferUses)[position := if hasDelimiter then 3 else 1]
      ensures |tupleDelimiterBitmaps| == numberOfBitmaps
      ensures var s := Staged(ledger, number, buffer, hasDelimiter);
              && RingMatches(tail, tupleDelimiterBitmaps, seenAndUsedBitmaps, s)
              && call == Call(number, hasDelimiter, call.span, numberOfBitmaps, buffer)
              && Reports(s, number, call.span, Reachable(s, number))
    {
      ghost var s := Staged(ledger, number, buffer, hasDelimiter);
      FreshIsAvoided(ledger, number, buffer, hasDelimiter);
      Store(buffer, number, hasDelimiter);
      var needLower, needHigher, snapshot := TakeSnapshot(number, s, number);
      var span := Search(number, hasDelimiter, needLower, needHigher, snapshot, s, tail, number);
      call := Call(number, hasDelimiter, span, snapshot.numberOfBitmaps, buffer);
    }

    /** Second locked section of a call whose buffer has no delimiter. */
    method CommitWithoutDelimiter(call: Call) returns (r: SpanningTupleBuffers)
      requires Valid() && InFlight(call) && !call.hasDelimiter
      modifies this
      ensures Valid()
      ensures ledger == CommitStep(old(ledger), call.number)
      ensures call.span.isStartValid && call.span.isEndValid && 0 <= call.span.spanStart < call.number < call.span.spanEnd
      ensures AreStaged(r.buffers, old(ledger), call.span.spanStart, call.span.spanEnd + 1)
      ensures r.indexOfProcessedSequenceNumber == call.number - call.span.spanStart
      ensures tail >= old(tail) && numberOfBitmaps >= old(numberOfBitmaps) > 0
      ensures Resized(old(tail), tail, old(numberOfBitmaps), old(resizeRequestCount), numberOfBitmaps, resizeRequestCount)
      ensures forall other: Call | old(InFlight(other)) && other.number != call.number :: InFlight(other)
    {
      hide BuffersMatch, RingsMatch, Honest, NumbersMatch, Matches, BelowTail, InWindow;
      CalledIsStaged(ledger, call.number);
      CallIsLive(tail, ledger, call.number);
      var spanStart, spanEnd := call.span.spanStart, call.span.spanEnd;
      var buffers := HandOut(spanStart, spanEnd, call.number, false, 1, 64 * call.numberOfBitmaps);
      MarkAndAdvance(call);
      r := SpanningTupleBuffers(call.number - spanStart, buffers);
    }

    /** Second locked section of a call whose buffer has a delimiter.  If the
        tail has passed the buffer, other calls have handed out both of its
        spanning tuples and only the buffer itself is returned. */
    method CommitWithDelimiter(call: Call) returns (r: SpanningTupleBuffers)
      requires Valid() && InFlight(call) && call.hasDelimiter
      requires call.buffer.buffer.Some? || 64 * tail <= call.number
      modifies this
      ensures Valid()
      ensures ledger == CommitStep(old(ledger), call.number)
      ensures var c := old(ledger).calls[call.number];
              && First(call.number, c) <= call.number <= Last(call.number, c)
              && AreStaged(r.buffers, old(ledger), First(call.number, c), Last(call.number, c) + 1)
              && r.indexOfProcessedSequenceNumber == call.number - First(call.number, c)
      ensures tail >= old(tail) && numberOfBitmaps >= old(numberOfBitmaps) > 0
      ensures Resized(old(tail), tail, old(numberOfBitmaps), old(resizeRequestCount), numberOfBitmaps, resizeRequestCount)
      ensures forall other: Call | old(InFlight(other)) && other.number != call.number :: InFlight(other)
    {
      hide Inv, BuffersMatch, RingsMatch, Honest, NumbersMatch, Matches, BelowTail, InWindow, CallsOk, UsedAreComplete, TailOpen,
           Gap;
      InvShape(ledger);
      CalledIsStaged(ledger, call.number);
      CallIsLive(tail, ledger, call.number);
      var startIndex := if call.span.isStartValid then call.span.spanStart else call.number;
      var endIndex := if call.span.isEndValid then call.span.spanEnd else call.number;
      var usingBufferForLeading := if startIndex < call.number then 1 else 0;
      var usingBufferForTrailing := if call.number < endIndex then 1 else 0;
      if call.number < 64 * tail {
        r := ReturnPassedBuffer(call);
      } else {
        var buffers := HandOut(startIndex, endIndex, call.number, true,
                               1 + usingBufferForLeading + usingBufferForTrailing, 64 * call.numberOfBitmaps);
        MarkAndAdvance(call);
        r := SpanningTupleBuffers(call.number - startIndex, buffers);
      }
    }

    method ReturnPassedBuffer(call: Call) returns (r: SpanningTupleBuffers)
      requires Valid() && InFlight(call) && call.hasDelimiter && call.number < 64 * tail && call.buffer.buffer.Some?
      modifies this`stagedBuffers, this`ledger, this`rings
      ensures Valid()
      ensures ledger == CommitStep(old(ledger), call.number) && rings == old(rings) - {call.number}
      ensures r == SpanningTupleBuffers(0, [call.buffer])
    {
      hide Inv, BuffersMatch, RingsMatch, Honest, NumbersMatch, Matches, BelowTail, InWindow;
      PassedCall(tail, numberOfBitmaps, ledger, rings, call.number);
      var position := call.number % (64 * call.numberOfBitmaps);
      PassedState(tail, tupleDelimiterBitmaps, seenAndUsedBitmaps, stagedBuffers, stagedBufferUses, ledger, rings,
                  call.number, position);
      var stillOwned := stagedBuffers[position].buffer.Some?
                        && stagedBuffers[position].buffer.value.sequenceNumber == call.buffer.buffer.value.sequenceNumber;
      var buffer := if stillOwned then stagedBuffers[position] else call.buffer;
      if stillOwned {
        stagedBuffers := stagedBuffers[position := buffer.(buffer := None)];
      }
      ledger := CommitStep(ledger, call.number);
      rings := rings - {call.number};
      r := SpanningTupleBuffers(0, [buffer]);
    }

    /** Marks the starts of the call's spanning tuples as used; if that
        completes the tail bitmap, moves the tail. */
    method MarkAndAdvance(call: Call)
      requires InFlight(call) && 64 * tail <= call.number && |tupleDelimiterBitmaps| == numberOfBitmaps
      requires HandedOut(tail, tupleDelimiterBitmaps, seenAndUsedBitmaps, stagedBuffers, stagedBufferUses, ledger, rings,
                         call.number)
      modifies this
      ensures Valid()
      ensures ledger == CommitStep(old(ledger), call.number) && rings == old(rings) - {call.number}
      ensures tail >= old(tail) && numberOfBitmaps >= old(numberOfBitmaps) > 0
      ensures Resized(old(tail), tail, old(numberOfBitmaps), old(resizeRequestCount), numberOfBitmaps, resizeRequestCount)
    {
      hide Inv, BuffersMatch, RingsMatch, Honest, NumbersMatch, Matches, BelowTail, InWindow;
      var completesTail := MarkStarts(call);
      if completesTail {
        IncrementTail();
      }
    }

    method MarkStarts(call: Call) returns (completesTail: bool)
      requires InFlight(call) && 64 * tail <= call.number && |tupleDelimiterBitmaps| == numberOfBitmaps
      requires HandedOut(tail, tupleDelimiterBitmaps, seenAndUsedBitmaps, stagedBuffers, stagedBufferUses, ledger, rings,
                         call.number)
      modifies this`seenAndUsedBitmaps, this`ledger, this`rings
      ensures ledger == CommitStep(old(ledger), call.number) && rings == old(rings) - {call.number}
      ensures StateButTail(tail, tupleDelimiterBitmaps, seenAndUsedBitmaps, stagedBuffers, stagedBufferUses, ledger, rings)
      ensures TailOpen(tail, seenAndUsedBitmaps) == !completesTail
    {
      hide Inv, BuffersMatch, RingsMatch, Honest, NumbersMatch, Matches, BelowTail, InWindow;
      CommittedState(tail, tupleDelimiterBitmaps, seenAndUsedBitmaps, stagedBuffers, stagedBufferUses, ledger, rings,
                     call.number, call.numberOfBitmaps);
      completesTail := Mark(call);
      ledger := CommitStep(ledger, call.number);
      rings := rings - {call.number};
    }

    method Mark(call: Call) returns (completesTail: bool)
      requires InFlight(call) && 0 < call.numberOfBitmaps <= |seenAndUsedBitmaps|
      requires ledger.calls[call.number].start.Some? || ledger.calls[call.number].end.Some? ==> 64 * tail <= call.number
      modifies this`seenAndUsedBitmaps
      ensures var c, ring := ledger.calls[call.number], call.numberOfBitmaps;
              && seenAndUsedBitmaps == Marked(old(seenAndUsedBitmaps), c, call.number, call.hasDelimiter, ring)
              && completesTail == CompletesTail(tail, seenAndUsedBitmaps, c, call.number, call.hasDelimiter, ring)
    {
      var start := if call.span.isStartValid then call.span.spanStart else call.number;
      var bitmapIndexOfStart := (start / 64) % call.numberOfBitmaps;
      var bitmapIndexOfNumber := (call.number / 64) % call.numberOfBitmaps;
      if call.span.isStartValid {
        seenAndUsedBitmaps := SetBit(seenAndUsedBitmaps, bitmapIndexOfStart, start % 64);
      }
      if call.hasDelimiter && call.span.isEndValid {
        seenAndUsedBitmaps := SetBit(seenAndUsedBitmaps, bitmapIndexOfNumber, call.number % 64);
      }
      var firstCompletedTail := call.span.isStartValid && start / 64 == tail
                                && seenAndUsedBitmaps[bitmapIndexOfStart] == Ones();
      var secondCompletedTail := call.hasDelimiter && call.span.isEndValid && call.number / 64 == tail
                                 && seenAndUsedBitmaps[bitmapIndexOfNumber] == Ones();
      completesTail := firstCompletedTail || secondCompletedTail;
    }

    /** One call without interference: stage, search, commit. */
    method ProcessSequenceNumber(buffer: StagedBuffer, number: nat, hasDelimiter: bool) returns (r: SpanningTupleBuffers)
      requires Valid()
      requires number > 0 && number !in ledger.staged && number < 64 * (tail + numberOfBitmaps)
      requires buffer.buffer.Some? ==> buffer.buffer.value.sequenceNumber == number
      modifies this
      ensures Valid()
      ensures var a := StagedCall(old(ledger), number, buffer, hasDelimiter);
              if number in a.calls
              then && ledger == CommitStep(a, number)
                   && r.indexOfProcessedSequenceNumber == number - First(number, a.calls[number])
                   && AreStaged(r.buffers, a, First(number, a.calls[number]), Last(number, a.calls[number]) + 1)
              else ledger == a && r == SpanningTupleBuffers(0, [])
      ensures tail >= old(tail) && old(numberOfBitmaps) > 0
      ensures Resized(old(tail), tail, old(numberOfBitmaps), old(resizeRequestCount), numberOfBitmaps, resizeRequestCount)
    {
      hide BuffersMatch, RingsMatch, Honest, NumbersMatch, Matches, Inv, InWindow, Exact, Reachable;
      NotConsumed(tail, ledger, number);
      var call := Stage(buffer, number, hasDelimiter);
      if hasDelimiter {
        r := CommitWithDelimiter(call);
      } else if !(call.span.isStartValid && call.span.isEndValid) {
        r := SpanningTupleBuffers(0, []);
      } else {
        r := CommitWithoutDelimiter(call);
      }
    }

    /** Walks the ring down from its head to the first bitmap with a staged number. */
    method NextLargestSequenceNumber() returns (next: nat, hasTupleDelimiter: bool)
      requires Valid()
      ensures next > 64 * tail && IsLargest(ledger, next - 1)
      ensures hasTupleDelimiter == (next - 1 in ledger.delims)
    {
      hide Inv, BuffersMatch, RingsMatch, Honest, NumbersMatch, Matches, BelowTail;
      var offsetToTail := 1;
      ghost var q := LiveDelimiter(tail, ledger);
      while true
        invariant 1 <= offsetToTail <= numberOfBitmaps
        invariant InWindow(tail, numberOfBitmaps + 1 - offsetToTail, ledger)
        decreases numberOfBitmaps - offsetToTail
      {
        var bitmapIndex := (tail + (numberOfBitmaps - offsetToTail)) % numberOfBitmaps;
        HeadBlock(tail, tupleDelimiterBitmaps, seenAndUsedBitmaps, ledger, numberOfBitmaps - offsetToTail, bitmapIndex);
        var seen, delim := seenAndUsedBitmaps[bitmapIndex], tupleDelimiterBitmaps[bitmapIndex];
        if Or(seen, delim) != Zero() {
          var notSeen := CountLeadingZeros(Or(seen, delim));
          next := 64 * tail + 64 * (numberOfBitmaps - offsetToTail) + (64 - notSeen);
          hasTupleDelimiter := TestBit(delim, 64 - notSeen - 1);
          return;
        }
        assert q < 64 * (tail + (numberOfBitmaps - offsetToTail));
        offsetToTail := offsetToTail + 1;
      }
    }

    /** The flush up to its second section, for any number that follows the last
        buffer: it claims exactly the open tuple, whose buffers are still in their
        slots, if and only if that number is in range.  Behind the ring it takes
        an old delimiter for an end, or has overwritten the open tuple's start. */
    method FlushSearch() returns (call: Call, ghost q: nat, ghost next: nat)
      requires Valid() && exists n: nat :: Gapless(ledger, n)
      requires forall x | x in ledger.staged :: ledger.staged[x] != DUMMY
      modifies this`stagedBuffers, this`stagedBufferUses, this`tupleDelimiterBitmaps, this`seenAndUsedBitmaps
      ensures call.number == next && Gapless(ledger, next) && IsStart(ledger, q, next) && next <= 64 * (tail + numberOfBitmaps)
      ensures call.span.isStartValid && call.span.spanStart == q
      ensures call.span.isEndValid <==> next == 64 * (tail + numberOfBitmaps) && q > 64 * tail
      ensures !call.span.isEndValid && Intact(stagedBuffers, ledger, q, next) <==> next < 64 * (tail + numberOfBitmaps)
      ensures call.span.isEndValid ==>
        var e := call.span.spanEnd - 64 * numberOfBitmaps;
        e > 64 * tail && IsEnd(Reseated(ledger, 64 * tail), 64 * tail, e)
    {
      hide StateOk, Shape, UsedAreComplete, UsedAvoid, RingMatches, BelowTail, BuffersMatch, IsStart, IsEnd, Seen, Intact,
           SnapshotMatches, LowerRun, HigherRun, ReportsFrom, Gapless, IsLargest, Seated;
      var nextLargest, _ := NextLargestSequenceNumber();
      next := nextLargest;
      q := FlushStart(tail, tupleDelimiterBitmaps, seenAndUsedBitmaps, stagedBuffers, stagedBufferUses, ledger, rings, next);
      ghost var seat := if next < 64 * (tail + numberOfBitmaps) then next else 64 * tail;
      ghost var s := Seen(ledger, next, seat);
      FlushView(tail, tupleDelimiterBitmaps, seenAndUsedBitmaps, ledger, q, next, seat);
      FlushedSlots(tail, stagedBuffers, stagedBufferUses, ledger, q, next);
      Write(DUMMY, nextLargest, true);
      var needLower, needHigher, snapshot := TakeSnapshot(nextLargest, s, seat);
      var span := Search(nextLargest, true, needLower, needHigher, snapshot, s, tail, seat);
      call := Call(nextLargest, true, span, snapshot.numberOfBitmaps, DUMMY);
      FlushReport(s, q, next, seat, span);
      SeenFromTail(ledger, next, 64 * tail);
    }

    /** Ends the stream: an artificial delimiter behind the largest number
        completes the tuple that is still open. */
    method FlushFinalPartialTuple() returns (r: SpanningTupleBuffers, sequenceNumber: nat, ghost next: nat)
      requires Valid()
      requires 64 * (tail + numberOfBitmaps) - 1 !in ledger.staged
      modifies this
      ensures Valid()
      ensures next !in old(ledger).staged && IsLargest(old(ledger), next - 1)
      ensures var a := StagedCall(old(ledger), next, StagedBuffer(None, 0, 0, 0), true);
              && next in a.calls && a.calls[next].end.None?
              && ledger == CommitStep(a, next)
              && r.indexOfProcessedSequenceNumber == next - First(next, a.calls[next])
              && AreStaged(r.buffers, a, First(next, a.calls[next]), next + 1)
      ensures sequenceNumber == if next - 1 in old(ledger).delims && Remaining(old(ledger), next - 1) != 2
                                then next else next - 1
    {
      hide Inv, BuffersMatch, RingsMatch, Honest, NumbersMatch, Matches, InWindow, BelowTail, Exact, Reachable, Remaining;
      var nextLargest, hasTupleDelimiter := NextLargestSequenceNumber();
      next := nextLargest;
      LargestIsLive(tail, numberOfBitmaps, stagedBuffers, stagedBufferUses, ledger, next);
      FlushHasNoEnd(ledger, next, StagedBuffer(None, 0, 0, 0));
      var position := (nextLargest - 1) % |stagedBuffers|;
      sequenceNumber := if hasTupleDelimiter && stagedBufferUses[position] != 2 then nextLargest else nextLargest - 1;
      r := ProcessSequenceNumber(StagedBuffer(None, 0, 0, 0), nextLargest, true);
    }

    /** Takes the call's uses from the counts of the buffers `first..last` and
        collects the buffers; a buffer without remaining uses is moved out. */
    method HandOut(first: nat, last: nat, number: nat, hasDelimiter: bool, uses: nat, size: nat)
      returns (buffers: seq<StagedBuffer>)
      requires Valid() && number in ledger.calls && number in rings
      requires size == 64 * rings[number] && hasDelimiter == (number in ledger.delims)
      requires first == First(number, ledger.calls[number]) && last == Last(number, ledger.calls[number])
      requires uses == Uses(hasDelimiter, number, ledger.calls[number], number)
      requires 64 * tail <= first
      modifies this`stagedBuffers, this`stagedBufferUses
      ensures AreStaged(buffers, ledger, first, last + 1)
      ensures HandedOut(tail, tupleDelimiterBitmaps, seenAndUsedBitmaps, stagedBuffers, stagedBufferUses, ledger, rings, number)
    {
      hide Inv, BuffersMatch, RingsMatch, Honest, NumbersMatch, Matches, BelowTail, InWindow, PartlyHandedOut, TailOpen, CallsOk;
      InvShape(ledger);
      buffers := [];
      HandOutStart(tail, stagedBuffers, stagedBufferUses, ledger, number);
      CalledIsStaged(ledger, number);
      for index := first to last + 1
        invariant |stagedBuffers| == |stagedBufferUses| == |old(stagedBuffers)| && Honest(stagedBuffers, ledger)
        invariant PartlyHandedOut(tail, stagedBuffers, stagedBufferUses, ledger, number, index)
        invariant AreStaged(buffers, ledger, first, index)
      {
        var buffer := HandOutOne(index, number, if index != number then 1 else uses, size);
        AreStagedExtend(buffers, ledger, first, index, buffer);
        buffers := buffers + [buffer];
      }
      HandOutEnd(tail, stagedBuffers, stagedBufferUses, ledger, number);
    }

    method HandOutOne(index: nat, number: nat, taken: nat, size: nat) returns (buffer: StagedBuffer)
      requires Inv(ledger) && number in ledger.calls && number in rings && |stagedBufferUses| == 64 * numberOfBitmaps
      requires InWindow(tail, numberOfBitmaps, ledger) && RingsMatch(tail, numberOfBitmaps, ledger, rings)
      requires PartlyHandedOut(tail, stagedBuffers, stagedBufferUses, ledger, number, index)
      requires First(number, ledger.calls[number]) <= index <= Last(number, ledger.calls[number]) && 64 * tail <= index
      requires size == 64 * rings[number]
      requires taken == Uses(number in ledger.delims, number, ledger.calls[number], index)
      requires Honest(stagedBuffers, ledger)
      modifies this`stagedBuffers, this`stagedBufferUses
      ensures index in ledger.staged && buffer == ledger.staged[index]
      ensures |stagedBuffers| == |stagedBufferUses| == |old(stagedBuffers)| && Honest(stagedBuffers, ledger)
      ensures PartlyHandedOut(tail, stagedBuffers, stagedBufferUses, ledger, number, index + 1)
    {
      hide Inv, InWindow, RingsMatch, PartlyHandedOut, Honest, Uses;
      PassedCall(tail, numberOfBitmaps, ledger, rings, number);
      var position := index % size;
      UsableSlot(tail, numberOfBitmaps, stagedBuffers, stagedBufferUses, ledger, rings, number, index, size, position);
      buffer := UseBuffer(position, taken);
      MoveOutHonest(old(stagedBuffers), ledger, position);
      HandOutStep(tail, numberOfBitmaps, old(stagedBuffers), old(stagedBufferUses), ledger, number, index, position,
                  stagedBuffers, stagedBufferUses);
    }

    method UseBuffer(position: nat, taken: nat) returns (buffer: StagedBuffer)
      requires position < |stagedBuffers| == |stagedBufferUses|
      requires taken <= stagedBufferUses[position]
      modifies this`stagedBuffers, this`stagedBufferUses
      ensures stagedBufferUses == old(stagedBufferUses)[position := old(stagedBufferUses)[position] - taken]
      ensures buffer == old(stagedBuffers)[position]
      ensures stagedBuffers == if stagedBufferUses[position] == 0
                               then old(stagedBuffers)[position := buffer.(buffer := None)] else old(stagedBuffers)
    {
      stagedBufferUses := stagedBufferUses[position := stagedBufferUses[position] - taken];
      buffer := stagedBuffers[position];
      if stagedBufferUses[position] == 0 {
        stagedBuffers := stagedBuffers[position := buffer.(buffer := None)];
      }
    }

    /** Moves the tail over every completed bitmap, then doubles the ring if
        enough numbers were refused and no live number changes its slot. */
    method IncrementTail()
      requires |tupleDelimiterBitmaps| == numberOfBitmaps
      requires StateButTail(tail, tupleDelimiterBitmaps, seenAndUsedBitmaps, stagedBuffers, stagedBufferUses, ledger, rings)
      requires !TailOpen(tail, seenAndUsedBitmaps)
      modifies this`tail, this`tupleDelimiterBitmaps, this`seenAndUsedBitmaps, this`numberOfBitmaps,
               this`resizeRequestCount, this`stagedBuffers, this`stagedBufferUses
      ensures Valid()
      ensures tail > old(tail) && old(numberOfBitmaps) > 0
      ensures Resized(old(tail), tail, old(numberOfBitmaps), old(resizeRequestCount), numberOfBitmaps, resizeRequestCount)
    {
      ghost var end := tail + numberOfBitmaps;
      var tailWrappedAround, turn := AdvanceTail();
      TailBound(tail, end, ledger);
      if resizeRequestCount >= MIN_NUMBER_OF_RESIZE_REQUESTS && tailWrappedAround {
        var nextNumberOfBitmaps := 2 * numberOfBitmaps;
        var nextSizePreservesPlacementsOfTail := tail % nextNumberOfBitmaps == tail % numberOfBitmaps;
        if nextSizePreservesPlacementsOfTail && nextNumberOfBitmaps <= MAX_NUMBER_OF_BITMAPS {
          WrappedTurn(tail, numberOfBitmaps, turn, end, ledger);
          Grow(turn);
        }
      }
    }

    /** Clears completed bitmaps until the tail bitmap is open. */
    method AdvanceTail() returns (tailWrappedAround: bool, ghost turn: nat)
      requires |tupleDelimiterBitmaps| == numberOfBitmaps
      requires StateButTail(tail, tupleDelimiterBitmaps, seenAndUsedBitmaps, stagedBuffers, stagedBufferUses, ledger, rings)
      requires !TailOpen(tail, seenAndUsedBitmaps)
      modifies this`tail, this`tupleDelimiterBitmaps, this`seenAndUsedBitmaps
      ensures Valid()
      ensures tail > old(tail) && numberOfBitmaps > 0
      ensures tailWrappedAround ==> old(tail) <= turn < tail && AtSlotZero(turn, numberOfBitmaps)
      ensures tailWrappedAround <==> exists t: nat :: old(tail) <= t < tail && AtSlotZero(t, numberOfBitmaps)
    {
      hide BuffersMatch, RingsMatch, Honest, NumbersMatch, CallsOk, ClaimsDisjoint, SpansAccounted, LostOk, OwnCalls, BelowTail;
      var hasCompletedTailBitmap := true;
      tailWrappedAround, turn := false, 0;
      var tailBitmapIndex := tail % numberOfBitmaps;
      ghost var end := tail + numberOfBitmaps;
      while hasCompletedTailBitmap
        invariant |tupleDelimiterBitmaps| == numberOfBitmaps
        invariant old(tail) <= tail <= end
        invariant tail == old(tail) ==> hasCompletedTailBitmap
        invariant StateButTail(tail, tupleDelimiterBitmaps, seenAndUsedBitmaps, stagedBuffers, stagedBufferUses, ledger, rings)
        invariant tailBitmapIndex == tail % numberOfBitmaps
        invariant hasCompletedTailBitmap == (seenAndUsedBitmaps[tailBitmapIndex] == Ones())
        invariant tailWrappedAround ==> old(tail) <= turn < tail && AtSlotZero(turn, numberOfBitmaps)
        invariant tailWrappedAround <==> exists t: nat :: old(tail) <= t < tail && AtSlotZero(t, numberOfBitmaps)
        decreases hasCompletedTailBitmap, end - tail
      {
        ClearedState(tail, tupleDelimiterBitmaps, seenAndUsedBitmaps, stagedBuffers, stagedBufferUses, ledger, rings,
                     tailBitmapIndex);
        TailBound(tail, end, ledger);
        tupleDelimiterBitmaps := tupleDelimiterBitmaps[tailBitmapIndex := Zero()];
        seenAndUsedBitmaps := seenAndUsedBitmaps[tailBitmapIndex := Zero()];
        assert AtSlotZero(tail, numberOfBitmaps) == (tailBitmapIndex == 0);
        if tailBitmapIndex == 0 {
          tailWrappedAround, turn := true, tail;
        }
        tail := tail + 1;
        tailBitmapIndex := tail % numberOfBitmaps;
        hasCompletedTailBitmap := seenAndUsedBitmaps[tailBitmapIndex] == Ones();
      }
    }

    /** Doubles the ring, right after the tail has passed its first slot. */
    method Grow(ghost turn: nat)
      requires Valid() && JustWrapped(tail, numberOfBitmaps, turn, ledger)
      modifies this`tupleDelimiterBitmaps, this`seenAndUsedBitmaps, this`numberOfBitmaps,
               this`resizeRequestCount, this`stagedBuffers, this`stagedBufferUses
      ensures Valid()
      ensures numberOfBitmaps == 2 * old(numberOfBitmaps) && resizeRequestCount == 0
    {
      GrownState(tail, tupleDelimiterBitmaps, seenAndUsedBitmaps, stagedBuffers, stagedBufferUses, ledger, rings, turn);
      var n := numberOfBitmaps;
      numberOfBitmaps := 2 * n;
      tupleDelimiterBitmaps := tupleDelimiterBitmaps + seq(n, i => Zero());
      seenAndUsedBitmaps := seenAndUsedBitmaps + seq(n, i => Zero());
      stagedBuffers := stagedBuffers + seq(64 * n, i => StagedBuffer(None, 0, 0, 0));
      stagedBufferUses := stagedBufferUses + seq(64 * n, i => 0);
      resizeRequestCount := 0;
    }

    method Store(buffer: StagedBuffer, number: nat, hasDelimiter: bool)
      requires Valid()
      requires number > 0 && number !in ledger.staged && number < 64 * (tail + numberOfBitmaps)
      modifies this`stagedBuffers, this`stagedBufferUses, this`tupleDelimiterBitmaps, this`seenAndUsedBitmaps
      ensures 64 * tail <= number
      ensures var position := number % |old(stagedBuffers)|;
              && stagedBuffers == old(stagedBuffers)[position := buffer]
              && stagedBufferUses == old(stagedBufferUses)[position := if hasDelimiter then 3 else 1]
      ensures |tupleDelimiterBitmaps| == numberOfBitmaps
      ensures RingMatches(tail, tupleDelimiterBitmaps, seenAndUsedBitmaps,
                          Staged(ledger, number, buffer, hasDelimiter))
    {
      hide SetBit;
      NotConsumed(tail, ledger, number);
      StagedRing(tail, tupleDelimiterBitmaps, seenAndUsedBitmaps, ledger, number, buffer, hasDelimiter, (number / 64) % numberOfBitmaps);
      Write(buffer, number, hasDelimiter);
    }

    /** The slot and the bit that the number maps to, whether or not it is in range. */
    method Write(buffer: StagedBuffer, number: nat, hasDelimiter: bool)
      requires |stagedBuffers| == |stagedBufferUses| > 0 && |tupleDelimiterBitmaps| == |seenAndUsedBitmaps| == numberOfBitmaps > 0
      modifies this`stagedBuffers, this`stagedBufferUses, this`tupleDelimiterBitmaps, this`seenAndUsedBitmaps
      ensures var position := number % |old(stagedBuffers)|;
              && stagedBuffers == old(stagedBuffers)[position := buffer]
              && stagedBufferUses == old(stagedBufferUses)[position := if hasDelimiter then 3 else 1]
      ensures var bitmapIndex := (number / 64) % numberOfBitmaps;
              if hasDelimiter
              then && tupleDelimiterBitmaps == SetBit(old(tupleDelimiterBitmaps), bitmapIndex, number % 64)
                   && seenAndUsedBitmaps == old(seenAndUsedBitmaps)
              else && seenAndUsedBitmaps == SetBit(old(seenAndUsedBitmaps), bitmapIndex, number % 64)
                   && tupleDelimiterBitmaps == old(tupleDelimiterBitmaps)
    {
      var position := number % |stagedBuffers|;
      stagedBuffers := stagedBuffers[position := buffer];
      var bitmapIndex := (number / 64) % numberOfBitmaps;
      if hasDelimiter {
        stagedBufferUses := stagedBufferUses[position := 3];
        tupleDelimiterBitmaps := SetBit(tupleDelimiterBitmaps, bitmapIndex, number % 64);
      } else {
        stagedBufferUses := stagedBufferUses[position := 1];
        seenAndUsedBitmaps := SetBit(seenAndUsedBitmaps, bitmapIndex, number % 64);
      }
    }

    /** Copies only the own bitmaps unless the search may have to leave them. */
    method TakeSnapshot(number: nat, ghost s: Ledger, ghost seat: nat)
      returns (needLower: bool, needHigher: bool, snapshot: Snapshot)
      requires RingMatches(tail, tupleDelimiterBitmaps, seenAndUsedBitmaps, s)
      requires |tupleDelimiterBitmaps| == numberOfBitmaps && s.used <= s.delims
      requires Seated(tail, numberOfBitmaps, number, seat)
      ensures needLower == LowerRun(s, seat) && needHigher == HigherRun(s, seat)
      ensures SnapshotMatches(s, seat, snapshot, needLower || needHigher)
      ensures snapshot.numberOfBitmaps == numberOfBitmaps && (snapshot.Ring? ==> snapshot.tail == tail)
    {
      SameSlot(tail, numberOfBitmaps, number, seat);
      hide BelowTail, InWindow, WordMatches, LowerRun, HigherRun, LowerBitsMask, HigherBitsMask;
      var bitmapIndex := (number / 64) % numberOfBitmaps;
      var delim, seen := tupleDelimiterBitmaps[bitmapIndex], seenAndUsedBitmaps[bitmapIndex];
      var wrappingCheckBitmap := Xor(Or(delim, seen), delim);
      WordOfRing(tail, tupleDelimiterBitmaps, seenAndUsedBitmaps, s, seat / 64);
      WrappingChecks(s, seat, delim, seen);
      needLower := Or(LowerBitsMask(number % 64), wrappingCheckBitmap) == wrappingCheckBitmap;
      needHigher := Or(HigherBitsMask(number % 64), wrappingCheckBitmap) == wrappingCheckBitmap;
      snapshot := if needLower || needHigher
                  then Ring(tail, numberOfBitmaps, tupleDelimiterBitmaps, seenAndUsedBitmaps)
                  else Own(numberOfBitmaps, delim, seen);
    }
  }

  lemma InitialRing(n: nat, first: StagedBuffer)
    requires PowerOfTwo(n)
    ensures var delims := seq(n, i => Zero())[0 := Or(Zero(), BitMask(0))];
            RingMatches(0, delims, seq(n, i => Zero()), Initial(first))
  {
    var delims, seens := seq(n, i => Zero())[0 := Or(Zero(), BitMask(0))], seq(n, i => Zero());
    var a := Initial(first);
    forall x | 0 <= x < 64 * n ensures BitAt(delims, x) == (x in a.delims) && BitAt(seens, x) == SeenBit(a, x) {
      DivisionIsUnique(x / 64, n, 0, x / 64);
    }
    assert seens[0 % n] != Ones() by {
      assert !seens[0 % n][0];
    }
  }

  lemma NotConsumed(tail: nat, a: Ledger, m: nat)
    requires BelowTail(tail, a) && m !in a.staged
    ensures 64 * tail <= m
  {
  }

  /** The ring after the first section. */
  lemma StagedRing(tail: nat, delims: seq<Word>, seens: seq<Word>, a: Ledger,
                   m: nat, b: StagedBuffer, hasDelimiter: bool, slot: nat)
    requires RingMatches(tail, delims, seens, a) && Shape(a) && UsedAreComplete(a) && m !in a.staged && m > 0
    requires Live(tail, |delims|, m) && slot == (m / 64) % |delims|
    ensures var s := Staged(a, m, b, hasDelimiter);
            if hasDelimiter then RingMatches(tail, SetBit(delims, slot, m % 64), seens, s)
            else RingMatches(tail, delims, SetBit(seens, slot, m % 64), s)
  {
    var s := Staged(a, m, b, hasDelimiter);
    var delims' := if hasDelimiter then SetBit(delims, slot, m % 64) else delims;
    var seens' := if hasDelimiter then seens else SetBit(seens, slot, m % 64);
    StageMatches(tail, delims, seens, a, m, b, hasDelimiter, slot);
    FreshIsAvoided(a, m, b, hasDelimiter);
    assert BelowTail(tail, s) && InWindow(tail, |delims'|, s);
    if tail < m / 64 && slot == tail % |delims| {
      SlotUnique(m / 64, tail, |delims|);
    }
    StageKeepsTailOpen(tail, delims', seens', s, m);
  }

  /** The bitmaps depend on the staged, delimiter and used numbers only. */
  lemma SameBits(tail: nat, delims: seq<Word>, seens: seq<Word>, s: Ledger, t: Ledger)
    requires RingMatches(tail, delims, seens, s)
    requires s.staged == t.staged && s.delims == t.delims && s.used == t.used
    ensures RingMatches(tail, delims, seens, t)
  {
    assert forall x: nat :: SeenBit(s, x) == SeenBit(t, x);
  }

  lemma CalledIsStaged(a: Ledger, m: nat)
    requires CallsOk(a)
    ensures m in a.calls ==> m in a.staged && CallOk(a, m, a.calls[m])
  {
  }

  lemma StageRings(tail: nat, n: nat, a: Ledger, a': Ledger, rings: map<nat, nat>, rings': map<nat, nat>, m: nat, c: Claim)
    requires n > 0 && RingsMatch(tail, n, a, rings) && m !in a.calls
    requires a'.calls == a.calls || a'.calls == a.calls[m := c]
    requires rings' == if m in a'.calls then rings[m := n] else rings
    ensures RingsMatch(tail, n, a', rings')
  {
  }

  lemma StageStateOk(tail: nat, delims0: seq<Word>, delims: seq<Word>, seens: seq<Word>, seens0: seq<Word>,
                     buffers: seq<StagedBuffer>, uses: seq<int>, a: Ledger, a': Ledger,
                     rings: map<nat, nat>, rings': map<nat, nat>,
                     m: nat, b: StagedBuffer, hasDelimiter: bool, c: Claim, pos: nat)
    requires StateOk(tail, delims0, seens0, buffers, uses, a, rings) && |delims| == |delims0|
    requires StageAllowed(a, m, b, hasDelimiter, c) && a' == StageStep(a, m, b, hasDelimiter, c)
    requires RingMatches(tail, delims, seens, Staged(a, m, b, hasDelimiter))
    requires b.buffer.Some? ==> b.buffer.value.sequenceNumber == m
    requires Live(tail, |delims|, m) && pos == m % |buffers|
    requires rings' == if m in a'.calls then rings[m := |delims|] else rings
    ensures StateOk(tail, delims, seens, buffers[pos := b], uses[pos := if hasDelimiter then 3 else 1], a', rings')
  {
    hide Inv, Matches, BelowTail, Exact, Honest, NumbersMatch, RingsMatch, TailOpen, CallsOk, UsedAreComplete;
    InvShape(a);
    StageKeepsInv(a, m, b, hasDelimiter, c);
    SameBits(tail, delims, seens, Staged(a, m, b, hasDelimiter), a');
    StageBuffers(tail, buffers, uses, a, a', m, b, hasDelimiter, c, pos);
    StageHonest(buffers, a, a', m, b, hasDelimiter, c, pos);
    CalledIsStaged(a, m);
    StageRings(tail, |delims|, a, a', rings, rings', m, c);
  }

  lemma StageRecorded(a: Ledger, a': Ledger, rings: map<nat, nat>, rings': map<nat, nat>,
                      m: nat, b: StagedBuffer, hasDelimiter: bool, c: Claim, call: Call)
    requires Inv(a) && m !in a.staged && a' == StageStep(a, m, b, hasDelimiter, c)
    requires rings' == if m in a'.calls then rings[m := call.numberOfBitmaps] else rings
    requires call == Call(m, hasDelimiter, call.span, call.numberOfBitmaps, b)
    requires Reports(Staged(a, m, b, hasDelimiter), m, call.span, c)
    ensures (hasDelimiter || (call.span.isStartValid && call.span.isEndValid)) == (m in a'.calls)
    ensures m in a'.calls ==> Recorded(a', rings', call)
    ensures forall other | Recorded(a, rings, other) :: Recorded(a', rings', other)
  {
    CalledIsStaged(a, m);
  }

  // --------------------------------------------------------------- moving the tail

  lemma ClearedState(tail: nat, delims: seq<Word>, seens: seq<Word>, buffers: seq<StagedBuffer>, uses: seq<int>,
                     a: Ledger, rings: map<nat, nat>, slot: nat)
    requires StateButTail(tail, delims, seens, buffers, uses, a, rings)
    requires slot == tail % |delims| && seens[slot] == Ones()
    ensures StateButTail(tail + 1, delims[slot := Zero()], seens[slot := Zero()], buffers, uses, a, rings)
  {
    ClearTail(tail, delims, seens, a, slot);
  }

  /** If the doubled ring keeps the tail in its slot, it keeps the block where the tail wrapped at slot 0. */
  lemma WrappedTurn(tail: nat, n: nat, turn: nat, end: nat, a: Ledger)
    requires n > 0 && turn < tail < end <= turn + n && turn % n == 0 && tail % (2 * n) == tail % n
    requires forall x | x in a.staged :: x < 64 * end
    ensures JustWrapped(tail, n, turn, a)
  {
    var r := tail - turn;
    assert tail == (turn / n) * n + r;
    DivisionIsUnique(tail, n, turn / n, r);
    assert turn == (tail / (2 * n)) * (2 * n) + 0;
    DivisionIsUnique(turn, 2 * n, tail / (2 * n), 0);
  }

  lemma GrownBuffers(tail: nat, n: nat, buffers: seq<StagedBuffer>, uses: seq<int>, a: Ledger, turn: nat)
    requires JustWrapped(tail, n, turn, a) && BuffersMatch(tail, buffers, uses, a) && |buffers| == 64 * n
    ensures BuffersMatch(tail, buffers + seq(64 * n, i => StagedBuffer(None, 0, 0, 0)), uses + seq(64 * n, i => 0), a)
  {
    var buffers', uses' := buffers + seq(64 * n, i => StagedBuffer(None, 0, 0, 0)), uses + seq(64 * n, i => 0);
    assert |uses'| == 64 * (2 * n);
    forall x | x in a.staged && 64 * tail <= x
      ensures SlotOk(buffers', uses', a.staged[x], Remaining(a, x), x % |uses'|)
    {
      assert SlotOk(buffers, uses, a.staged[x], Remaining(a, x), x % |uses|);
      DoublingKeepsSlot(tail, n, turn, a, x);
    }
  }

  lemma GrownRings(tail: nat, n: nat, a: Ledger, rings: map<nat, nat>, turn: nat)
    requires JustWrapped(tail, n, turn, a) && RingsMatch(tail, n, a, rings) && Inv(a)
    ensures RingsMatch(tail, 2 * n, a, rings)
  {
    forall m, x: nat | m in a.calls && First(m, a.calls[m]) <= x <= Last(m, a.calls[m]) && 64 * tail <= x
      ensures SameSlots(rings[m], 2 * n, x)
    {
      CallRangeStaged(a, m, x);
      assert SameSlots(rings[m], n, x);
      DoublingKeepsSlot(tail, n, turn, a, x);
    }
  }

  lemma GrownTail(tail: nat, seens: seq<Word>, turn: nat, a: Ledger)
    requires |seens| > 0 && JustWrapped(tail, |seens|, turn, a) && TailOpen(tail, seens)
    ensures TailOpen(tail, seens + seq(|seens|, i => Zero()))
  {
    SmallBlockSlots(turn, |seens|, tail);
    assert |seens + seq(|seens|, i => Zero())| == 2 * |seens|;
  }

  lemma GrownWindow(tail: nat, n: nat, turn: nat, a: Ledger, buffers: seq<StagedBuffer>)
    requires JustWrapped(tail, n, turn, a) && Honest(buffers, a)
    ensures n > 0 && InWindow(tail, 2 * n, a)
    ensures Honest(buffers + seq(64 * n, i => StagedBuffer(None, 0, 0, 0)), a)
  {
  }

  /** Doubling the ring keeps every field in step with the ledger. */
  lemma GrownState(tail: nat, delims: seq<Word>, seens: seq<Word>, buffers: seq<StagedBuffer>, uses: seq<int>,
                   a: Ledger, rings: map<nat, nat>, turn: nat)
    requires StateOk(tail, delims, seens, buffers, uses, a, rings) && JustWrapped(tail, |delims|, turn, a)
    ensures var n := |delims|;
            StateOk(tail, delims + seq(n, i => Zero()), seens + seq(n, i => Zero()),
                    buffers + seq(64 * n, i => StagedBuffer(None, 0, 0, 0)), uses + seq(64 * n, i => 0), a, rings)
  {
    hide Inv, BuffersMatch, RingsMatch, NumbersMatch, BelowTail, TailOpen, Honest, JustWrapped, UsedAreComplete, CallsOk;
    var n := |delims|;
    InvShape(a);
    GrownWindow(tail, n, turn, a, buffers);
    DoublingMatches(tail, delims, seens, turn, a);
    GrownBuffers(tail, n, buffers, uses, a, turn);
    GrownRings(tail, n, a, rings, turn);
    GrownTail(tail, seens, turn, a);
    assert |delims + seq(n, i => Zero())| == 2 * n;
  }

  // ------------------------------------------------------------------ committing

  lemma AreStagedExtend(buffers: seq<StagedBuffer>, a: Ledger, first: nat, next: nat, b: StagedBuffer)
    requires AreStaged(buffers, a, first, next) && next in a.staged && b == a.staged[next]
    ensures AreStaged(buffers + [b], a, first, next + 1)
  {
  }

  /** The next buffer of a call is in its slot, with enough uses left. */
  lemma UsableSlot(tail: nat, n: nat, buffers: seq<StagedBuffer>, uses: seq<int>, a: Ledger, rings: map<nat, nat>,
                   m: nat, x: nat, size: nat, pos: nat)
    requires Inv(a) && m in a.calls && PartlyHandedOut(tail, buffers, uses, a, m, x) && RingsMatch(tail, n, a, rings)
    requires First(m, a.calls[m]) <= x <= Last(m, a.calls[m]) && 64 * tail <= x
    requires size == 64 * rings[m] && |uses| == 64 * n && pos == x % size
    ensures x in a.staged && pos == x % |uses| && pos < |uses| == |buffers| && buffers[pos] == a.staged[x]
    ensures uses[pos] >= Uses(m in a.delims, m, a.calls[m], x)
  {
    CallRangeStaged(a, m, x);
    SamePosition(tail, n, a, rings, m, x, size, |uses|);
    HandOutHas(tail, buffers, uses, a, m, x, pos);
  }

  lemma SamePosition(tail: nat, n: nat, a: Ledger, rings: map<nat, nat>, m: nat, x: nat, size: nat, length: nat)
    requires RingsMatch(tail, n, a, rings) && m in a.calls
    requires First(m, a.calls[m]) <= x <= Last(m, a.calls[m]) && 64 * tail <= x
    requires size == 64 * rings[m] && length == 64 * n
    ensures x % size == x % length
  {
    assert SameSlots(rings[m], n, x);
  }

  /** What a call still has to hand out is not below the tail. */
  lemma CallIsLive(tail: nat, a: Ledger, m: nat)
    requires BelowTail(tail, a) && Inv(a) && m in a.calls
    ensures var c := a.calls[m];
            && (c.start.Some? ==> 64 * tail <= First(m, c))
            && (c.end.Some? && m in a.delims ==> 64 * tail <= m)
            && (c.start.None? && c.end.None? && 64 * tail <= m ==> 64 * tail <= First(m, c))
            && First(m, c) <= m <= Last(m, c)
            && (m < 64 * tail ==> c.start.None? && c.end.None?)
  {
    CalledIsStaged(a, m);
  }

  /** The seen bits after the starts of a call's spanning tuples have been marked. */
  function Marked(seens: seq<Word>, c: Claim, m: nat, hasDelimiter: bool, ring: nat): (r: seq<Word>)
    requires 0 < ring <= |seens|
    ensures |r| == |seens|
  {
    var s1 := if c.start.Some? then SetBit(seens, (c.start.value / 64) % ring, c.start.value % 64) else seens;
    if hasDelimiter && c.end.Some? then SetBit(s1, (m / 64) % ring, m % 64) else s1
  }

  /** One of the marked starts lies in the tail bitmap and completes it. */
  predicate CompletesTail(tail: nat, seens: seq<Word>, c: Claim, m: nat, hasDelimiter: bool, ring: nat)
    requires 0 < ring <= |seens|
  {
    || (c.start.Some? && c.start.value / 64 == tail && seens[(c.start.value / 64) % ring] == Ones())
    || (hasDelimiter && c.end.Some? && m / 64 == tail && seens[(m / 64) % ring] == Ones())
  }

  lemma MarkOne(tail: nat, delims: seq<Word>, seens: seq<Word>, a: Ledger, a': Ledger, p: nat, slot: nat)
    requires Matches(tail, delims, seens, a) && Live(tail, |delims|, p) && slot == (p / 64) % |delims|
    requires a'.staged == a.staged && a'.delims == a.delims && a'.used == a.used + {p}
    ensures Matches(tail, delims, SetBit(seens, slot, p % 64), a')
    ensures p / 64 != tail ==> SetBit(seens, slot, p % 64)[tail % |seens|] == seens[tail % |seens|]
    ensures p / 64 == tail ==> slot == tail % |seens|
  {
    UseMatches(tail, delims, seens, a, a', p, slot);
    if p / 64 != tail && slot == tail % |seens| {
      SlotUnique(p / 64, tail, |seens|);
    }
  }

  lemma SameSlotOf(tail: nat, n: nat, a: Ledger, rings: map<nat, nat>, m: nat, x: nat)
    requires RingsMatch(tail, n, a, rings) && m in a.calls
    requires First(m, a.calls[m]) <= x <= Last(m, a.calls[m]) && 64 * tail <= x
    ensures (x / 64) % rings[m] == (x / 64) % n
  {
    assert SameSlots(rings[m], n, x);
  }

  lemma MarkedRing(tail: nat, delims: seq<Word>, seens: seq<Word>, a: Ledger, rings: map<nat, nat>, m: nat, ring: nat)
    requires RingMatches(tail, delims, seens, a) && Inv(a) && m in a.calls
    requires RingsMatch(tail, |delims|, a, rings) && ring == rings[m] && 64 * tail <= m
    ensures var seens' := Marked(seens, a.calls[m], m, m in a.delims, ring);
            && Matches(tail, delims, seens', CommitStep(a, m))
            && TailOpen(tail, seens') == !CompletesTail(tail, seens', a.calls[m], m, m in a.delims, ring)
  {
    hide RingsMatch, BelowTail, UsedAreComplete, ClaimsDisjoint, SpansAccounted, LostOk, OwnCalls, Gap;
    PassedCall(tail, |delims|, a, rings, m);
    var c := a.calls[m];
    CalledIsStaged(a, m);
    CallIsLive(tail, a, m);
    var a1 := a.(used := if c.start.Some? then a.used + {c.start.value} else a.used);
    var s1 := if c.start.Some? then SetBit(seens, (c.start.value / 64) % ring, c.start.value % 64) else seens;
    if c.start.Some? {
      SameSlotOf(tail, |delims|, a, rings, m, c.start.value);
      MarkOne(tail, delims, seens, a, a1, c.start.value, (c.start.value / 64) % ring);
    }
    if m in a.delims && c.end.Some? {
      SameSlotOf(tail, |delims|, a, rings, m, m);
      MarkOne(tail, delims, s1, a1, CommitStep(a, m), m, (m / 64) % ring);
    }
    SameBitsClosed(tail, delims, Marked(seens, c, m, m in a.delims, ring),
                   a.(used := CommitStep(a, m).used), CommitStep(a, m));
  }

  lemma SameBitsClosed(tail: nat, delims: seq<Word>, seens: seq<Word>, s: Ledger, t: Ledger)
    requires Matches(tail, delims, seens, s)
    requires s.staged == t.staged && s.delims == t.delims && s.used == t.used
    ensures Matches(tail, delims, seens, t)
  {
    assert forall x: nat :: SeenBit(s, x) == SeenBit(t, x);
  }

  lemma CommitRings(tail: nat, n: nat, a: Ledger, rings: map<nat, nat>, m: nat)
    requires RingsMatch(tail, n, a, rings) && m in a.calls
    ensures RingsMatch(tail, n, CommitStep(a, m), rings - {m})
  {
  }

  lemma CommittedState(tail: nat, delims: seq<Word>, seens: seq<Word>, buffers: seq<StagedBuffer>, uses: seq<int>,
                       a: Ledger, rings: map<nat, nat>, m: nat, ring: nat)
    requires HandedOut(tail, delims, seens, buffers, uses, a, rings, m) && ring == rings[m] && 64 * tail <= m
    ensures 0 < ring <= |seens|
    ensures var seens' := Marked(seens, a.calls[m], m, m in a.delims, ring);
            && StateButTail(tail, delims, seens', buffers, uses, CommitStep(a, m), rings - {m})
            && TailOpen(tail, seens') == !CompletesTail(tail, seens', a.calls[m], m, m in a.delims, ring)
  {
    MarkedRing(tail, delims, seens, a, rings, m, ring);
    CommitKeepsInv(a, m);
    CommitRings(tail, |delims|, a, rings, m);
  }

  /** Returning a buffer that the tail has passed touches no live slot. */
  lemma PassedState(tail: nat, delims: seq<Word>, seens: seq<Word>, buffers: seq<StagedBuffer>, uses: seq<int>,
                    a: Ledger, rings: map<nat, nat>, m: nat, pos: nat)
    requires StateOk(tail, delims, seens, buffers, uses, a, rings) && m in a.calls && m in a.delims && m < 64 * tail
    requires pos == m % (64 * rings[m])
    ensures pos < |buffers| && m in a.staged
    ensures a.staged[m].buffer.Some? ==> a.staged[m].buffer.value.sequenceNumber == m
    ensures StateOk(tail, delims, seens, buffers, uses, CommitStep(a, m), rings - {m})
    ensures buffers[pos].buffer.Some? && buffers[pos].buffer.value.sequenceNumber == m ==>
              && buffers[pos] == a.staged[m]
              && StateOk(tail, delims, seens, buffers[pos := buffers[pos].(buffer := None)], uses,
                         CommitStep(a, m), rings - {m})
  {
    hide Inv, RingsMatch, BuffersMatch, Matches, BelowTail, InWindow, CallsOk, UsedAreComplete;
    var a' := CommitStep(a, m);
    InvShape(a);
    CalledIsStaged(a, m);
    PassedCall(tail, |delims|, a, rings, m);
    CallIsLive(tail, a, m);
    CommitKeepsInv(a, m);
    CommitRings(tail, |delims|, a, rings, m);
    SameBits(tail, delims, seens, a, a');
    PassedBuffers(tail, buffers, uses, a, m);
    assert Honest(buffers, a') && NumbersMatch(a');
    if buffers[pos].buffer.Some? && buffers[pos].buffer.value.sequenceNumber == m {
      MovedOut(tail, buffers, uses, a', m, pos);
    }
  }

  lemma PassedCall(tail: nat, n: nat, a: Ledger, rings: map<nat, nat>, m: nat)
    requires RingsMatch(tail, n, a, rings) && m in a.calls
    ensures m in rings && 0 < rings[m] <= n
  {
  }

  lemma PassedBuffers(tail: nat, buffers: seq<StagedBuffer>, uses: seq<int>, a: Ledger, m: nat)
    requires Inv(a) && m in a.calls && m < 64 * tail && BuffersMatch(tail, buffers, uses, a)
    requires a.calls[m].start.None? && a.calls[m].end.None?
    ensures BuffersMatch(tail, buffers, uses, CommitStep(a, m))
  {
    var a' := CommitStep(a, m);
    forall x | x in a'.staged && 64 * tail <= x
      ensures SlotOk(buffers, uses, a'.staged[x], Remaining(a', x), x % |uses|)
    {
      assert SlotOk(buffers, uses, a.staged[x], Remaining(a, x), x % |uses|);
      CommitRemaining(a, m, x);
    }
  }

  lemma MovedOut(tail: nat, buffers: seq<StagedBuffer>, uses: seq<int>, a: Ledger, m: nat, pos: nat)
    requires BuffersMatch(tail, buffers, uses, a) && NumbersMatch(a) && pos < |buffers| && m < 64 * tail
    requires buffers[pos].buffer.Some? && buffers[pos].buffer.value.sequenceNumber == m
    ensures BuffersMatch(tail, buffers[pos := buffers[pos].(buffer := None)], uses, a)
  {
    var buffers' := buffers[pos := buffers[pos].(buffer := None)];
    forall x | x in a.staged && 64 * tail <= x
      ensures SlotOk(buffers', uses, a.staged[x], Remaining(a, x), x % |uses|)
    {
      assert SlotOk(buffers, uses, a.staged[x], Remaining(a, x), x % |uses|);
    }
  }

  // ------------------------------------------------------------------- the flush

  ghost predicate IsLargest(a: Ledger, x: int) {
    x >= 0 && x in a.staged && forall y | y in a.staged :: y <= x
  }

  lemma LiveDelimiter(tail: nat, a: Ledger) returns (q: nat)
    requires Inv(a) && BelowTail(tail, a)
    ensures q in a.staged && q >= 64 * tail
  {
    q := UnusedDelimiter(a);
  }

  ghost predicate StagedWord(a: Ledger, block: nat, w: Word) {
    forall i | 0 <= i < 64 :: w[i] == (64 * block + i in a.staged)
  }

  lemma StagedBits(a: Ledger, block: nat, delim: Word, seen: Word)
    requires WordMatches(delim, seen, block, a) && Shape(a)
    ensures StagedWord(a, block, Or(seen, delim))
  {
  }

  lemma LargestInWord(a: Ledger, tail: nat, k: nat, block: nat, w: Word)
    requires StagedWord(a, block, w) && InWindow(tail, k + 1, a) && block == tail + k
    ensures var z := CountLeadingZeros(w);
            if w == Zero() then InWindow(tail, k, a)
            else z < 64 && IsLargest(a, 64 * block + (63 - z))
  {
    AllZero(w);
    var z := CountLeadingZeros(w);
    forall x | x in a.staged && 64 * block <= x ensures w[x - 64 * block] {
      assert w[x - 64 * block] == (64 * block + (x - 64 * block) in a.staged);
    }
    if w != Zero() {
      assert w[63 - z] == (64 * block + (63 - z) in a.staged);
    }
  }

  /** The leading zeros of the highest block lead to the largest staged number. */
  lemma HeadBlock(tail: nat, delims: seq<Word>, seens: seq<Word>, a: Ledger, k: nat, slot: nat)
    requires Matches(tail, delims, seens, a) && Inv(a) && InWindow(tail, k + 1, a)
    requires k < |delims| && slot == (tail + k) % |delims|
    ensures slot < |delims| == |seens|
    ensures var w := Or(seens[slot], delims[slot]);
            var z := CountLeadingZeros(w);
            if w == Zero() then InWindow(tail, k, a)
            else && z < 64
                 && IsLargest(a, 64 * (tail + k) + (63 - z))
                 && TestBit(delims[slot], 63 - z) == (64 * (tail + k) + (63 - z) in a.delims)
  {
    hide *;
    SlotOfRing(tail, delims, seens, a, slot, tail + k);
    WordOfRing(tail, delims, seens, a, tail + k);
    InvShape(a);
    HeadWord(a, tail, k, delims[slot], seens[slot]);
  }

  lemma SlotOfRing(tail: nat, delims: seq<Word>, seens: seq<Word>, a: Ledger, slot: nat, block: nat)
    requires Matches(tail, delims, seens, a) && slot == block % |delims|
    ensures slot < |delims| == |seens|
  {
  }

  lemma TestDelimiter(a: Ledger, block: nat, delim: Word, seen: Word, i: nat)
    requires WordMatches(delim, seen, block, a) && i < 64
    ensures TestBit(delim, i) == (64 * block + i in a.delims)
  {
    TestBitReads(delim, i);
  }

  lemma HeadWord(a: Ledger, tail: nat, k: nat, delim: Word, seen: Word)
    requires WordMatches(delim, seen, tail + k, a) && Shape(a) && InWindow(tail, k + 1, a)
    ensures var w := Or(seen, delim);
            var z := CountLeadingZeros(w);
            if w == Zero() then InWindow(tail, k, a)
            else && z < 64
                 && IsLargest(a, 64 * (tail + k) + (63 - z))
                 && TestBit(delim, 63 - z) == (64 * (tail + k) + (63 - z) in a.delims)
  {
    hide *;
    StagedBits(a, tail + k, delim, seen);
    LargestInWord(a, tail, k, tail + k, Or(seen, delim));
    if Or(seen, delim) != Zero() {
      TestDelimiter(a, tail + k, delim, seen, 63 - CountLeadingZeros(Or(seen, delim)));
    }
  }

  lemma InvShape(a: Ledger)
    requires Inv(a)
    ensures Shape(a) && CallsOk(a) && UsedAreComplete(a)
  {
  }

  lemma LargestIsLive(tail: nat, n: nat, buffers: seq<StagedBuffer>, uses: seq<int>, a: Ledger, next: nat)
    requires BuffersMatch(tail, buffers, uses, a) && InWindow(tail, n, a) && next > 64 * tail && IsLargest(a, next - 1)
    requires 64 * (tail + n) - 1 !in a.staged
    ensures next < 64 * (tail + n) && next !in a.staged && |buffers| == |uses| > 0
    ensures uses[(next - 1) % |buffers|] == Remaining(a, next - 1)
  {
    assert SlotOk(buffers, uses, a.staged[next - 1], Remaining(a, next - 1), (next - 1) % |uses|);
  }

  /** The open tuple that the flush is to end. */
  lemma FlushStart(tail: nat, delims: seq<Word>, seens: seq<Word>, buffers: seq<StagedBuffer>, uses: seq<int>,
                   a: Ledger, rings: map<nat, nat>, next: nat) returns (q: nat)
    requires StateOk(tail, delims, seens, buffers, uses, a, rings) && (exists n: nat :: Gapless(a, n)) && IsLargest(a, next - 1)
    ensures |delims| == |seens| > 0 && |buffers| == |uses| == 64 * |delims|
    ensures Gapless(a, next) && IsStart(a, q, next) && 64 * tail <= q < next <= 64 * (tail + |delims|)
    ensures Shape(a) && UsedAreComplete(a) && RingMatches(tail, delims, seens, a) && BelowTail(tail, a)
    ensures BuffersMatch(tail, buffers, uses, a)
  {
    hide *;
    StateFacts(tail, delims, seens, buffers, uses, a, rings);
    InvShape(a);
    GaplessUpTo(tail, |delims|, a, next);
    q := NearestDelimiter(a, next);
    OpenStart(tail, a, q, next);
    StartFacts(a, q, next);
  }

  lemma StateFacts(tail: nat, delims: seq<Word>, seens: seq<Word>, buffers: seq<StagedBuffer>, uses: seq<int>,
                   a: Ledger, rings: map<nat, nat>)
    requires StateOk(tail, delims, seens, buffers, uses, a, rings)
    ensures |delims| == |seens| > 0 && |buffers| == |uses| == 64 * |delims|
    ensures Inv(a) && RingMatches(tail, delims, seens, a) && BelowTail(tail, a) && InWindow(tail, |delims|, a)
    ensures BuffersMatch(tail, buffers, uses, a)
  {
    hide Inv, RingsMatch, Honest, NumbersMatch, BelowTail, InWindow, TailOpen;
  }

  lemma GaplessUpTo(tail: nat, n: nat, a: Ledger, next: nat)
    requires (exists k: nat :: Gapless(a, k)) && IsLargest(a, next - 1) && InWindow(tail, n, a)
    ensures Gapless(a, next) && next <= 64 * (tail + n) && (forall x | 0 <= x < next :: x in a.staged)
  {
    var k: nat :| Gapless(a, k);
    assert k - 1 in a.staged;
  }

  /** The ring that the flush searches after its write. */
  lemma FlushView(tail: nat, delims: seq<Word>, seens: seq<Word>, a: Ledger, q: nat, next: nat, seat: nat)
    requires RingMatches(tail, delims, seens, a) && Shape(a) && UsedAreComplete(a) && Gapless(a, next) && IsStart(a, q, next)
    requires |delims| > 0 && 64 * tail <= next <= 64 * (tail + |delims|) && seat == if next < 64 * (tail + |delims|) then next else 64 * tail
    ensures var s := Seen(a, next, seat);
            && Seated(tail, |delims|, next, seat)
            && RingMatches(tail, SetBit(delims, (next / 64) % |delims|, next % 64), seens, s)
            && Shape(s) && s.used <= s.delims && UsedAvoid(s, next) && (seat == next ==> next in s.delims)
            && IsStart(s, q, next)
            && ((exists e: nat :: IsEnd(s, seat, e)) <==> seat != next && q > 64 * tail)
  {
    hide RingMatches, UsedAvoid, UsedAreComplete, IsStart, IsEnd, SetBit, Seen;
    if Live(tail, |delims|, next) {
      StagedRing(tail, delims, seens, a, next, DUMMY, true, (next / 64) % |delims|);
    }
    FlushRing(tail, delims, seens, a, q, next, seat);
  }

  lemma SeenFromTail(a: Ledger, next: nat, t: nat)
    ensures t != next ==> Seen(a, next, t) == Reseated(a, t)
  {
  }

  /** The report of the flush's search. */
  lemma FlushReport(s: Ledger, q: nat, next: nat, seat: nat, span: SpanningTuple)
    requires ReportsFrom(s, next, seat, span) && IsStart(s, q, next) && seat <= next
    ensures span.isStartValid && span.spanStart == q
    ensures span.isEndValid <==> exists e: nat :: IsEnd(s, seat, e)
    ensures span.isEndValid ==> span.spanEnd - (next - seat) > seat && IsEnd(s, seat, span.spanEnd - (next - seat))
  {
  }

  lemma FlushHasNoEnd(a: Ledger, next: nat, b: StagedBuffer)
    requires Inv(a) && IsLargest(a, next - 1)
    ensures var c := Reachable(Staged(a, next, b, true), next);
            c.end.None? && StagedCall(a, next, b, true).calls == a.calls[next := c]
  {
    var s := Staged(a, next, b, true);
    assert forall e: nat :: !IsEnd(s, next, e);
  }
}
