/** The ring of bitmaps: setting a bit, clearing the tail and doubling the ring
    keep the bitmaps in step with the ledger. */
module ShredderRing {
  import opened Bits
  import opened RawBuffers
  import opened RingArithmetic
  import opened Spans
  import opened ShredderSearch

  function SetBit(bitmaps: seq<Word>, slot: nat, bit: nat): (r: seq<Word>)
    requires slot < |bitmaps| && bit < 64
  {
    bitmaps[slot := Or(bitmaps[slot], BitMask(bit))]
  }

  ghost predicate Live(tail: nat, n: nat, x: int) {
    64 * tail <= x < 64 * (tail + n)
  }

  /** Within the window, setting the bit of `p` changes the bit of `p` only. */
  lemma SetBitAt(tail: nat, bitmaps: seq<Word>, p: nat, slot: nat, x: nat)
    requires |bitmaps| > 0 && Live(tail, |bitmaps|, p) && Live(tail, |bitmaps|, x)
    requires slot == (p / 64) % |bitmaps|
    ensures BitAt(SetBit(bitmaps, slot, p % 64), x) == (BitAt(bitmaps, x) || x == p)
  {
    if (x / 64) % |bitmaps| == slot {
      SlotUnique(x / 64, p / 64, |bitmaps|);
    }
  }

  lemma StageMatches(tail: nat, delims: seq<Word>, seens: seq<Word>, a: Ledger,
                     m: nat, b: StagedBuffer, hasDelimiter: bool, slot: nat)
    requires Matches(tail, delims, seens, a) && Shape(a) && m !in a.staged
    requires Live(tail, |delims|, m) && slot == (m / 64) % |delims|
    ensures var s := Staged(a, m, b, hasDelimiter);
            if hasDelimiter then Matches(tail, SetBit(delims, slot, m % 64), seens, s)
            else Matches(tail, delims, SetBit(seens, slot, m % 64), s)
  {
    var s := Staged(a, m, b, hasDelimiter);
    var delims' := if hasDelimiter then SetBit(delims, slot, m % 64) else delims;
    var seens' := if hasDelimiter then seens else SetBit(seens, slot, m % 64);
    forall x | 64 * tail <= x < 64 * (tail + |delims|)
      ensures BitAt(delims', x) == (x in s.delims) && BitAt(seens', x) == SeenBit(s, x)
    {
      assert BitAt(delims, x) == (x in a.delims) && BitAt(seens, x) == SeenBit(a, x);
      SetBitAt(tail, delims, m, slot, x);
      SetBitAt(tail, seens, m, slot, x);
    }
  }

  /** A plain buffer never fills the tail bitmap. */
  lemma StageKeepsTailOpen(tail: nat, delims: seq<Word>, seens: seq<Word>, s: Ledger, m: nat)
    requires Matches(tail, delims, seens, s) && BelowTail(tail, s) && Shape(s) && UsedAvoid(s, m)
    requires tail <= m / 64 && m > 0
    requires tail < m / 64 ==> TailOpen(tail, seens)
    ensures m / 64 == tail ==> TailOpen(tail, seens)
  {
    if m / 64 == tail && !TailOpen(tail, seens) {
      var slot := tail % |seens|;
      WordOfRing(tail, delims, seens, s, tail);
      FullBlock(s, tail, delims[slot], seens[slot]);
      var x := RunEnds(s, m);
      NotBelowTail(tail, s, x);
    }
  }

  /** Handing out the spanning tuple that starts in `p` sets its seen bit. */
  lemma UseMatches(tail: nat, delims: seq<Word>, seens: seq<Word>, a: Ledger, a': Ledger, p: nat, slot: nat)
    requires Matches(tail, delims, seens, a) && Live(tail, |delims|, p) && slot == (p / 64) % |delims|
    requires a'.staged == a.staged && a'.delims == a.delims && a'.used == a.used + {p}
    ensures Matches(tail, delims, SetBit(seens, slot, p % 64), a')
  {
    var seens' := SetBit(seens, slot, p % 64);
    forall x | 64 * tail <= x < 64 * (tail + |delims|)
      ensures BitAt(delims, x) == (x in a'.delims) && BitAt(seens', x) == SeenBit(a', x)
    {
      assert BitAt(delims, x) == (x in a.delims) && BitAt(seens, x) == SeenBit(a, x);
      SetBitAt(tail, seens, p, slot, x);
    }
  }

  // ----------------------------------------------------------- moving the tail

  lemma ClearTail(tail: nat, delims: seq<Word>, seens: seq<Word>, a: Ledger, slot: nat)
    requires Matches(tail, delims, seens, a) && BelowTail(tail, a) && InWindow(tail, |delims|, a)
    requires a.delims <= a.staged.Keys && a.used <= a.delims
    requires slot == tail % |delims| && seens[slot] == Ones()
    ensures Matches(tail + 1, delims[slot := Zero()], seens[slot := Zero()], a)
    ensures BelowTail(tail + 1, a) && InWindow(tail + 1, |delims|, a)
  {
    var n := |delims|;
    var delims', seens' := delims[slot := Zero()], seens[slot := Zero()];
    WordOfRing(tail, delims, seens, a, tail);
    FullBlock(a, tail, delims[slot], seens[slot]);
    forall x | 64 * (tail + 1) <= x < 64 * (tail + 1 + n)
      ensures BitAt(delims', x) == (x in a.delims) && BitAt(seens', x) == SeenBit(a, x)
    {
      if x < 64 * (tail + n) {
        assert BitAt(delims, x) == (x in a.delims) && BitAt(seens, x) == SeenBit(a, x);
        if (x / 64) % n == slot {
          SlotUnique(x / 64, tail, n);
        }
      } else {
        AddOne(tail, n);
        assert x / 64 == tail + n;
        assert x !in a.staged;
      }
    }
    forall x | 0 <= x < 64 * (tail + 1) ensures x in a.staged && (x in a.delims ==> x in a.used) {
      if x >= 64 * tail {
        assert SeenBit(a, x);
      }
    }
  }

  lemma {:induction false} Maximum(s: set<nat>) returns (q: nat)
    requires s != {}
    ensures q in s && forall x | x in s :: x <= q
  {
    q :| q in s;
    var rest := s - {q};
    assert forall x | x in s :: x == q || x in rest;
    if rest != {} {
      var r := Maximum(rest);
      q := if q < r then r else q;
    }
  }

  /** Some delimiter is always still waiting for the end of its tuple. */
  lemma UnusedDelimiter(a: Ledger) returns (q: nat)
    requires Shape(a) && UsedAreComplete(a)
    ensures q in a.delims && q !in a.used
  {
    q := Maximum(a.delims);
    assert forall e: nat :: !Span(a, q, e);
  }

  /** ... so the tail stays below the end of the window it started from. */
  lemma TailBound(tail: nat, end: nat, a: Ledger)
    requires Shape(a) && UsedAreComplete(a) && BelowTail(tail, a)
    requires forall x | x in a.staged :: x < 64 * end
    ensures tail < end
  {
    var q := UnusedDelimiter(a);
    assert 64 * tail <= q;
  }

  // ---------------------------------------------------------- doubling the ring

  /** Everything staged lies below the block that is `n` after a block `turn`
      that the tail has passed and that has slot 0 in both rings. */
  ghost predicate JustWrapped(tail: nat, n: nat, turn: nat, a: Ledger) {
    && n > 0 && turn < tail < turn + n
    && turn % n == 0 && turn % (2 * n) == 0
    && forall x | x in a.staged :: x < 64 * (turn + n)
  }

  lemma SmallBlockSlots(turn: nat, n: nat, b: nat)
    requires n > 0 && turn % n == 0 && turn % (2 * n) == 0 && turn <= b < turn + 2 * n
    ensures b % (2 * n) == b - turn
    ensures b < turn + n ==> b % n == b - turn
    ensures b >= turn + n ==> b % n == b - turn - n
  {
    assert turn == (turn / (2 * n)) * (2 * n) + 0;
    assert turn == (turn / n) * n + 0;
    DivisionIsUnique(b, 2 * n, turn / (2 * n), b - turn);
    if b < turn + n {
      DivisionIsUnique(b, n, turn / n, b - turn);
    } else {
      assert (turn / n + 1) * n == turn + n;
      DivisionIsUnique(b, n, turn / n + 1, b - turn - n);
    }
  }

  /** A live staged number keeps its bitmap and its buffer position. */
  lemma DoublingKeepsSlot(tail: nat, n: nat, turn: nat, a: Ledger, x: nat)
    requires JustWrapped(tail, n, turn, a) && x in a.staged && x >= 64 * tail
    ensures (x / 64) % (2 * n) == (x / 64) % n
    ensures x % (64 * (2 * n)) == x % (64 * n)
  {
    SmallBlockSlots(turn, n, x / 64);
    PositionSplit(x, n);
    PositionSplit(x, 2 * n);
  }

  lemma DoubledBit(tail: nat, n: nat, turn: nat, bitmaps: seq<Word>, x: nat, y: nat)
    requires n > 0 && turn < tail < turn + n && turn % n == 0 && turn % (2 * n) == 0 && |bitmaps| == n
    requires Live(tail, 2 * n, x)
    requires y == if x < 64 * (turn + 2 * n) then x else x - 64 * n
    ensures var doubled := bitmaps + seq(n, i => Zero());
            && |doubled| == 2 * n
            && BitAt(doubled, x) ==
               (if x < 64 * (turn + n) then BitAt(bitmaps, x)
                else if x < 64 * (turn + 2 * n) then false
                else BitAt(bitmaps, y))
            && (x >= 64 * (turn + 2 * n) ==> Live(tail, n, y) && y >= 64 * (turn + n))
  {
    var doubled := bitmaps + seq(n, i => Zero());
    var b := x / 64;
    assert |doubled| == 2 * n;
    if b < turn + 2 * n {
      SmallBlockSlots(turn, n, b);
      if b >= turn + n {
        assert doubled[b - turn] == Zero();
      }
    } else {
      SmallBlockSlots(turn, n, b - n);
      SmallBlockSlots(turn, n, b - 2 * n);
      AddOne(b - 2 * n, 2 * n);
      assert b % (2 * n) == b - 2 * n - turn;
      assert y / 64 == b - n && y % 64 == x % 64;
      assert (b - n) % n == b - 2 * n - turn;
    }
  }

  lemma DoublingMatches(tail: nat, delims: seq<Word>, seens: seq<Word>, turn: nat, a: Ledger)
    requires Matches(tail, delims, seens, a) && Shape(a) && JustWrapped(tail, |delims|, turn, a)
    ensures var n := |delims|;
            Matches(tail, delims + seq(n, i => Zero()), seens + seq(n, i => Zero()), a)
  {
    var n := |delims|;
    var delims', seens' := delims + seq(n, i => Zero()), seens + seq(n, i => Zero());
    forall x | 64 * tail <= x < 64 * (tail + |delims'|)
      ensures BitAt(delims', x) == (x in a.delims) && BitAt(seens', x) == SeenBit(a, x)
    {
      var y := if x < 64 * (turn + 2 * n) then x else x - 64 * n;
      DoubledBit(tail, n, turn, delims, x, y);
      DoubledBit(tail, n, turn, seens, x, y);
      if x < 64 * (turn + n) {
        assert BitAt(delims, x) == (x in a.delims) && BitAt(seens, x) == SeenBit(a, x);
      } else {
        assert x !in a.staged;
        if x >= 64 * (turn + 2 * n) {
          assert BitAt(delims, y) == (y in a.delims) && BitAt(seens, y) == SeenBit(a, y);
          assert y !in a.staged;
        }
      }
    }
  }
}
