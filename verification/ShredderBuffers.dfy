/** The ring of staged buffers and their use counts, against the ledger. */
module ShredderBuffers {
  import opened Options
  import opened RawBuffers
  import opened RingArithmetic
  import opened Spans
  import opened UseCounts
  import opened ShredderSearch

  /** The slot of number `x` holds its count and, while uses remain, its buffer. */
  ghost predicate SlotOk(buffers: seq<StagedBuffer>, uses: seq<int>, b: StagedBuffer, remaining: int, pos: nat) {
    pos < |uses| == |buffers| && uses[pos] == remaining && (remaining > 0 ==> buffers[pos] == b)
  }

  ghost predicate BuffersMatch(tail: nat, buffers: seq<StagedBuffer>, uses: seq<int>, a: Ledger) {
    && |buffers| == |uses| > 0
    && forall x | x in a.staged && 64 * tail <= x ::
         SlotOk(buffers, uses, a.staged[x], Remaining(a, x), x % |uses|)
  }

  /** A slot that holds a buffer handle holds what was staged under its number. */
  ghost predicate Honest(buffers: seq<StagedBuffer>, a: Ledger) {
    forall i | 0 <= i < |buffers| && buffers[i].buffer.Some? ::
      var k := buffers[i].buffer.value.sequenceNumber;
      k in a.staged && buffers[i] == a.staged[k]
  }

  ghost predicate NumbersMatch(a: Ledger) {
    forall x | x in a.staged && a.staged[x].buffer.Some? :: a.staged[x].buffer.value.sequenceNumber == x
  }

  lemma PositionsDiffer(tail: nat, size: nat, x: nat, y: nat)
    requires size > 0 && 64 * tail <= x < 64 * tail + size && 64 * tail <= y < 64 * tail + size && x != y
    ensures x % size != y % size
  {
    if x % size == y % size {
      SlotUnique(x, y, size);
    }
  }

  lemma SameRemaining(s: Ledger, t: Ledger, x: nat)
    requires s.staged == t.staged && s.delims == t.delims && s.used == t.used && s.done == t.done
    ensures Remaining(s, x) == Remaining(t, x)
  {
    SameSpans(s, t);
    assert EndUsed(s, x) == EndUsed(t, x);
    assert Covered(s, x) == Covered(t, x);
  }

  /** The first locked section stores the buffer with its full count. */
  lemma StageBuffers(tail: nat, buffers: seq<StagedBuffer>, uses: seq<int>, a: Ledger, a': Ledger,
                     m: nat, b: StagedBuffer, hasDelimiter: bool, c: Claim, pos: nat)
    requires BuffersMatch(tail, buffers, uses, a) && Inv(a) && m !in a.staged && m > 0
    requires a' == StageStep(a, m, b, hasDelimiter, c)
    requires forall x | x in a.staged || x == m :: x < 64 * tail + |uses|
    requires 64 * tail <= m && pos == m % |uses|
    ensures BuffersMatch(tail, buffers[pos := b], uses[pos := if hasDelimiter then 3 else 1], a')
  {
    var buffers', uses' := buffers[pos := b], uses[pos := if hasDelimiter then 3 else 1];
    forall x | x in a'.staged && 64 * tail <= x
      ensures SlotOk(buffers', uses', a'.staged[x], Remaining(a', x), x % |uses'|)
    {
      StageKeepsRemaining(a, m, b, hasDelimiter, x);
      SameRemaining(Staged(a, m, b, hasDelimiter), a', x);
      if x != m {
        PositionsDiffer(tail, |uses|, x, m);
        assert SlotOk(buffers, uses, a.staged[x], Remaining(a, x), x % |uses|);
      }
    }
  }

  lemma StageHonest(buffers: seq<StagedBuffer>, a: Ledger, a': Ledger,
                    m: nat, b: StagedBuffer, hasDelimiter: bool, c: Claim, pos: nat)
    requires Honest(buffers, a) && NumbersMatch(a) && m !in a.staged && pos < |buffers|
    requires a' == StageStep(a, m, b, hasDelimiter, c)
    requires b.buffer.Some? ==> b.buffer.value.sequenceNumber == m
    ensures Honest(buffers[pos := b], a') && NumbersMatch(a')
  {
  }

  // ---------------------------------------------------------------- handing out

  /** The counts while the commit of call `m` has handed out the buffers below `next`. */
  ghost function Partial(a: Ledger, m: nat, next: nat, x: nat): (r: int)
    requires m in a.calls
  {
    if x < next then Remaining(CommitStep(a, m), x) else Remaining(a, x)
  }

  ghost predicate PartlyHandedOut(tail: nat, buffers: seq<StagedBuffer>, uses: seq<int>, a: Ledger, m: nat, next: nat)
    requires m in a.calls
  {
    && |buffers| == |uses| > 0
    && forall x | x in a.staged && 64 * tail <= x ::
         SlotOk(buffers, uses, a.staged[x], Partial(a, m, next, x), x % |uses|)
  }

  lemma HandOutStart(tail: nat, buffers: seq<StagedBuffer>, uses: seq<int>, a: Ledger, m: nat)
    requires Inv(a) && m in a.calls && BuffersMatch(tail, buffers, uses, a)
    ensures |buffers| == |uses| && PartlyHandedOut(tail, buffers, uses, a, m, First(m, a.calls[m]))
  {
    forall x | x in a.staged && 64 * tail <= x
      ensures SlotOk(buffers, uses, a.staged[x], Partial(a, m, First(m, a.calls[m]), x), x % |uses|)
    {
      assert SlotOk(buffers, uses, a.staged[x], Remaining(a, x), x % |uses|);
      CommitRemaining(a, m, x);
    }
  }

  lemma HandOutStep(tail: nat, n: nat, buffers: seq<StagedBuffer>, uses: seq<int>, a: Ledger, m: nat, next: nat,
                    pos: nat, buffers': seq<StagedBuffer>, uses': seq<int>)
    requires Inv(a) && m in a.calls && PartlyHandedOut(tail, buffers, uses, a, m, next)
    requires next in a.staged && 64 * tail <= next && pos == next % |uses|
    requires |uses| == 64 * n && InWindow(tail, n, a)
    requires uses' == uses[pos := uses[pos] - Uses(m in a.delims, m, a.calls[m], next)]
    requires buffers' == if uses'[pos] == 0 then buffers[pos := buffers[pos].(buffer := None)] else buffers
    ensures PartlyHandedOut(tail, buffers', uses', a, m, next + 1)
  {
    forall x | x in a.staged && 64 * tail <= x
      ensures SlotOk(buffers', uses', a.staged[x], Partial(a, m, next + 1, x), x % |uses'|)
    {
      assert SlotOk(buffers, uses, a.staged[x], Partial(a, m, next, x), x % |uses|);
      if x == next {
        CommitRemaining(a, m, x);
      } else {
        PositionsDiffer(tail, |uses|, x, next);
      }
    }
  }

  /** Moving a buffer out of its slot leaves honest slots. */
  lemma MoveOutHonest(buffers: seq<StagedBuffer>, a: Ledger, pos: nat)
    requires Honest(buffers, a) && pos < |buffers|
    ensures Honest(buffers[pos := buffers[pos].(buffer := None)], a)
  {
  }

  /** Every buffer that a commit uses still has that many uses left, so its slot holds it. */
  lemma HandOutHas(tail: nat, buffers: seq<StagedBuffer>, uses: seq<int>, a: Ledger, m: nat, next: nat, pos: nat)
    requires Inv(a) && m in a.calls && PartlyHandedOut(tail, buffers, uses, a, m, next)
    requires next in a.staged && 64 * tail <= next && pos == next % |uses|
    requires First(m, a.calls[m]) <= next <= Last(m, a.calls[m])
    ensures pos < |uses| && buffers[pos] == a.staged[next]
    ensures uses[pos] >= Uses(m in a.delims, m, a.calls[m], next)
  {
    assert SlotOk(buffers, uses, a.staged[next], Partial(a, m, next, next), next % |uses|);
    CommitRemaining(a, m, next);
    RemainingIsNatural(CommitStep(a, m), next);
  }

  lemma RemainingIsNatural(a: Ledger, x: nat)
    ensures Remaining(a, x) >= 0
  {
  }

  lemma HandOutEnd(tail: nat, buffers: seq<StagedBuffer>, uses: seq<int>, a: Ledger, m: nat)
    requires Inv(a) && m in a.calls && PartlyHandedOut(tail, buffers, uses, a, m, Last(m, a.calls[m]) + 1)
    ensures BuffersMatch(tail, buffers, uses, CommitStep(a, m))
  {
    var a' := CommitStep(a, m);
    forall x | x in a'.staged && 64 * tail <= x
      ensures SlotOk(buffers, uses, a'.staged[x], Remaining(a', x), x % |uses|)
    {
      assert SlotOk(buffers, uses, a.staged[x], Partial(a, m, Last(m, a.calls[m]) + 1, x), x % |uses|);
      CommitRemaining(a, m, x);
    }
  }

  // -------------------------------------------------------------- calls in flight

  /** The buffers of a call in flight are staged. */
  lemma CallRangeStaged(a: Ledger, m: nat, x: nat)
    requires Inv(a) && m in a.calls && First(m, a.calls[m]) <= x <= Last(m, a.calls[m])
    ensures x in a.staged
  {
    var c := a.calls[m];
    assert CallOk(a, m, c);
    if First(m, c) < x < m {
      InGap(a, First(m, c), m, x);
    } else if m < x < Last(m, c) {
      InGap(a, m, Last(m, c), x);
    }
  }

  /** The ring size that a call in flight took with its snapshot still maps
      its live buffers to their slots. */
  ghost predicate SameSlots(ring: nat, n: nat, x: nat) {
    ring > 0 && n > 0 && x % (64 * ring) == x % (64 * n) && (x / 64) % ring == (x / 64) % n
  }

  ghost predicate RingsMatch(tail: nat, n: nat, a: Ledger, rings: map<nat, nat>) {
    && rings.Keys == a.calls.Keys
    && forall m | m in a.calls ::
         && 0 < rings[m] <= n
         && forall x | First(m, a.calls[m]) <= x <= Last(m, a.calls[m]) && 64 * tail <= x :: SameSlots(rings[m], n, x)
  }
}
