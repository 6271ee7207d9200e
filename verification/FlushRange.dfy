/** The flush of the last, open tuple does not ask whether the number behind the
    last buffer is in range.  If it lies just behind the ring, its delimiter bit
    and its slot are those of the tail's first number. */
module FlushRange {
  import opened Bits
  import opened Options
  import opened RawBuffers
  import opened RingArithmetic
  import opened Spans
  import opened UseCounts
  import opened ShredderSearch
  import opened ShredderRing
  import opened ShredderBuffers

  /** The staged buffer of the flush. */
  const DUMMY := StagedBuffer(None, 0, 0, 0)

  /** The numbers below `next`, and no others, are staged. */
  ghost predicate Gapless(a: Ledger, next: nat) {
    next > 0 && forall x: nat :: x in a.staged <==> x < next
  }

  /** What the ring says when the flush has set the delimiter bit of `t`: a
      plain buffer now looks like a delimiter whose tuple was handed out. */
  ghost function Reseated(a: Ledger, t: nat): (a': Ledger) {
    if t in a.delims then a else a.(delims := a.delims + {t}, used := a.used + {t})
  }

  /** The ledger that the flush's search sees. */
  ghost function Seen(a: Ledger, next: nat, seat: nat): (s: Ledger) {
    if seat == next then Staged(a, next, DUMMY, true) else Reseated(a, seat)
  }

  /** The start of the open tuple is not used and not below the tail. */
  lemma OpenStart(tail: nat, a: Ledger, q: nat, next: nat)
    requires BelowTail(tail, a) && Shape(a) && UsedAreComplete(a) && Gapless(a, next) && IsStart(a, q, next)
    ensures q !in a.used && 64 * tail <= q
  {
    if q in a.used {
      var e :| Span(a, q, e);
      PlainHasNoDelimiter(a, e);
    }
  }

  lemma {:induction false} NearestEnd(a: Ledger, p: nat, hi: nat) returns (e: nat)
    requires p < hi && hi in a.delims && forall x | p < x < hi :: x in a.staged
    ensures p < e <= hi && IsEnd(a, p, e)
    decreases hi - p
  {
    if x :| p < x < hi && x in a.delims {
      e := NearestEnd(a, p, x);
    } else {
      e := hi;
      assert forall x | p < x < hi :: Plain(a, x);
    }
  }

  lemma ReseatedMatches(tail: nat, delims: seq<Word>, seens: seq<Word>, a: Ledger, next: nat)
    requires RingMatches(tail, delims, seens, a) && Gapless(a, next) && next == 64 * (tail + |delims|)
    ensures RingMatches(tail, SetBit(delims, tail % |delims|, 0), seens, Reseated(a, 64 * tail))
  {
    var t, a', delims' := 64 * tail, Reseated(a, 64 * tail), SetBit(delims, tail % |delims|, 0);
    assert t % 64 == 0 && t / 64 == tail;
    forall x | 64 * tail <= x < 64 * (tail + |delims|)
      ensures BitAt(delims', x) == (x in a'.delims) && BitAt(seens, x) == SeenBit(a', x)
    {
      assert BitAt(delims, x) == (x in a.delims) && BitAt(seens, x) == SeenBit(a, x);
      SetBitAt(tail, delims, t, tail % |delims|, x);
    }
  }

  /** Behind the ring the open tuple's start is still the nearest one. */
  lemma ReseatedStart(tail: nat, a: Ledger, q: nat, next: nat)
    requires Shape(a) && Gapless(a, next) && IsStart(a, q, next) && 64 * tail <= q
    ensures Shape(Reseated(a, 64 * tail)) && IsStart(Reseated(a, 64 * tail), q, next)
  {
    var s := Reseated(a, 64 * tail);
    forall x | q < x < next ensures Plain(s, x) {
      assert Plain(a, x);
    }
  }

  lemma ReseatedAvoid(tail: nat, a: Ledger, q: nat, next: nat)
    requires Shape(a) && UsedAreComplete(a) && Gapless(a, next) && IsStart(a, q, next) && 64 * tail <= q
    ensures UsedAvoid(Reseated(a, 64 * tail), next)
  {
    var s := Reseated(a, 64 * tail);
    forall p: nat | p in s.used ensures exists e: nat :: Span(s, p, e) && (next < p || e < next) {
      var e := UsedSpanBelow(tail, a, q, next, p);
    }
  }

  lemma UsedSpanBelow(tail: nat, a: Ledger, q: nat, next: nat, p: nat) returns (e: nat)
    requires Shape(a) && UsedAreComplete(a) && Gapless(a, next) && IsStart(a, q, next) && 64 * tail <= q
    requires p in Reseated(a, 64 * tail).used
    ensures Span(Reseated(a, 64 * tail), p, e) && e < next
  {
    hide IsStart;
    var s := Reseated(a, 64 * tail);
    var hi := q;
    if p in a.used {
      hi :| Span(a, p, hi);
    }
    StartFacts(a, q, next);
    e := NearestEnd(s, p, hi);
  }

  lemma StartFacts(a: Ledger, q: nat, next: nat)
    requires IsStart(a, q, next)
    ensures q in a.delims && q < next
  {
  }

  /** Any delimiter above the tail's first number passes for an end. */
  lemma ReseatedEnd(tail: nat, a: Ledger, q: nat, next: nat)
    requires Shape(a) && Gapless(a, next) && IsStart(a, q, next) && 64 * tail <= q
    ensures (exists e: nat :: IsEnd(Reseated(a, 64 * tail), 64 * tail, e)) <==> q > 64 * tail
  {
    var t, s := 64 * tail, Reseated(a, 64 * tail);
    if q > t {
      var e := NearestEnd(s, t, q);
    } else if e: nat :| IsEnd(s, t, e) {
      PlainHasNoDelimiter(a, e);
    }
  }

  /** In range the open tuple's start is the nearest one. */
  lemma StagedStart(a: Ledger, q: nat, next: nat)
    requires Shape(a) && Gapless(a, next) && IsStart(a, q, next)
    ensures Shape(Staged(a, next, DUMMY, true)) && IsStart(Staged(a, next, DUMMY, true), q, next)
  {
    forall x | q < x < next ensures Plain(Staged(a, next, DUMMY, true), x) {
      assert Plain(a, x);
    }
  }

  lemma StagedEnd(a: Ledger, next: nat)
    requires Shape(a) && Gapless(a, next)
    ensures forall e: nat :: !IsEnd(Staged(a, next, DUMMY, true), next, e)
  {
    forall e: nat ensures !IsEnd(Staged(a, next, DUMMY, true), next, e) {
      assert e in a.delims ==> e in a.staged;
    }
  }

  /** The ring and the ledger that the flush's search works on. */
  lemma FlushRing(tail: nat, delims: seq<Word>, seens: seq<Word>, a: Ledger, q: nat, next: nat, seat: nat)
    requires RingMatches(tail, delims, seens, a) && Shape(a) && UsedAreComplete(a) && Gapless(a, next) && IsStart(a, q, next)
    requires |delims| > 0 && 64 * tail <= next <= 64 * (tail + |delims|) && seat == if next < 64 * (tail + |delims|) then next else 64 * tail
    requires Live(tail, |delims|, next) ==>
      RingMatches(tail, SetBit(delims, (next / 64) % |delims|, next % 64), seens, Staged(a, next, DUMMY, true))
    ensures var s := Seen(a, next, seat);
            && Seated(tail, |delims|, next, seat)
            && RingMatches(tail, SetBit(delims, (next / 64) % |delims|, next % 64), seens, s)
            && Shape(s) && UsedAvoid(s, next) && (seat == next ==> next in s.delims)
            && IsStart(s, q, next)
            && ((exists e: nat :: IsEnd(s, seat, e)) <==> seat != next && q > 64 * tail)
  {
    hide RingMatches, UsedAvoid, Shape, UsedAreComplete, IsStart, IsEnd, SetBit;
    if seat == next {
      StagedStart(a, q, next);
      StagedEnd(a, next);
      FreshIsAvoided(a, next, DUMMY, true);
    } else {
      SameSlot(tail, |delims|, next, seat);
      ReseatedMatches(tail, delims, seens, a, next);
      BelowTailOf(tail, delims, seens, a);
      OpenStart(tail, a, q, next);
      ReseatedStart(tail, a, q, next);
      ReseatedAvoid(tail, a, q, next);
      ReseatedEnd(tail, a, q, next);
    }
  }

  lemma BelowTailOf(tail: nat, delims: seq<Word>, seens: seq<Word>, a: Ledger)
    requires RingMatches(tail, delims, seens, a)
    ensures BelowTail(tail, a)
  {
  }

  /** Every buffer of the open tuple is still in its slot. */
  lemma OpenTupleStored(tail: nat, buffers: seq<StagedBuffer>, uses: seq<int>, a: Ledger, q: nat, next: nat, x: nat)
    requires BuffersMatch(tail, buffers, uses, a) && BelowTail(tail, a) && Shape(a) && UsedAreComplete(a)
    requires Gapless(a, next) && IsStart(a, q, next) && q <= x < next
    ensures buffers[x % |buffers|] == a.staged[x]
  {
    hide BelowTail, Shape, UsedAreComplete, IsStart, Remaining;
    OpenStart(tail, a, q, next);
    OpenTupleRemains(a, q, next, x);
    assert SlotOk(buffers, uses, a.staged[x], Remaining(a, x), x % |uses|);
  }

  lemma OpenTupleRemains(a: Ledger, q: nat, next: nat, x: nat)
    requires Shape(a) && Gapless(a, next) && IsStart(a, q, next) && q <= x < next && q !in a.used
    ensures Remaining(a, x) > 0
  {
    hide Span;
    if x > q {
      assert Plain(a, x);
      if Covered(a, x) {
        var p: nat, e: nat :| p in a.used && p < x < e && Span(a, p, e);
        SpanEnds(a, p, e);
        PlainHasNoDelimiter(a, e);
      }
    }
  }

  lemma SpanEnds(a: Ledger, p: nat, e: nat)
    requires Span(a, p, e)
    ensures e in a.delims
  {
  }

  lemma BuffersSize(tail: nat, buffers: seq<StagedBuffer>, uses: seq<int>, a: Ledger)
    requires BuffersMatch(tail, buffers, uses, a)
    ensures |buffers| > 0
  {
  }

  ghost predicate Intact(buffers: seq<StagedBuffer>, a: Ledger, q: nat, next: nat) {
    |buffers| > 0 && forall x | q <= x < next :: x in a.staged && buffers[x % |buffers|] == a.staged[x]
  }

  /** The flush's own slot belongs to the open tuple only behind the ring, and then only if that starts at the tail. */
  lemma FlushedSlots(tail: nat, buffers: seq<StagedBuffer>, uses: seq<int>, a: Ledger, q: nat, next: nat)
    requires BuffersMatch(tail, buffers, uses, a) && BelowTail(tail, a) && Shape(a) && UsedAreComplete(a)
    requires Gapless(a, next) && IsStart(a, q, next) && next <= 64 * tail + |buffers|
    requires forall x | x in a.staged :: a.staged[x] != DUMMY
    ensures Intact(buffers[next % |buffers| := DUMMY], a, q, next) <==> next < 64 * tail + |buffers| || q > 64 * tail
  {
    hide BuffersMatch, BelowTail, Shape, UsedAreComplete, IsStart;
    BuffersSize(tail, buffers, uses, a);
    StartFacts(a, q, next);
    var size := |buffers|;
    var after := buffers[next % size := DUMMY];
    OpenStart(tail, a, q, next);
    if next < 64 * tail + size || q > 64 * tail {
      forall x | q <= x < next ensures x in a.staged && after[x % size] == a.staged[x] {
        OpenTupleStored(tail, buffers, uses, a, q, next, x);
        if x % size == next % size {
          SlotUnique(x, next, size);
        }
      }
    } else {
      AddOne(q, size);
      assert after[q % size] == DUMMY;
    }
  }
}
