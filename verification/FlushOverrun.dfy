/** A stream that fills the ring up to its last slot, so that its flush lies behind the ring. */
module FlushOverrun {
  import opened Options
  import opened RawBuffers
  import opened RingArithmetic
  import opened Spans
  import opened ShredderSearch
  import opened FlushRange
  import opened SequenceShredding

  /** The first `k` numbers are staged, the only delimiter is in buffer 5, and its
      call has handed out the first tuple. */
  ghost predicate OneDelimiter(a: Ledger, k: nat) {
    && Gapless(a, k) && a.calls == map[]
    && a.delims == (if k > 5 then {0, 5} else {0}) && a.used == (if k > 5 then {0} else {})
    && forall x | x in a.staged :: a.staged[x] != DUMMY
  }

  lemma PlainCall(a: Ledger, k: nat, b: StagedBuffer)
    requires OneDelimiter(a, k) && k != 5 && b != DUMMY
    ensures var a' := StagedCall(a, k, b, false);
            k !in a'.calls && OneDelimiter(a', k + 1)
  {
    var s := Staged(a, k, b, false);
    assert Reachable(s, k).end.None?;
  }

  lemma DelimiterCall(a: Ledger, b: StagedBuffer)
    requires OneDelimiter(a, 5) && b != DUMMY
    ensures var a' := StagedCall(a, 5, b, true);
            5 in a'.calls && OneDelimiter(CommitStep(a', 5), 6)
  {
    var s := Staged(a, 5, b, true);
    assert IsStart(s, 0, 5);
    assert Reachable(s, 5) == Claim(Some(0), None);
  }

  /** An unused delimiter in the first bitmap keeps the tail there. */
  lemma TailStays(tail: nat, a: Ledger, k: nat)
    requires BelowTail(tail, a) && OneDelimiter(a, k)
    ensures tail == 0
  {
    var x := if k > 5 then 5 else 0;
    assert x in a.delims && x !in a.used;
  }

  /** For every initial ring: the flush behind its last slot takes the delimiter
      of buffer 5 for the end of a tuple and claims numbers that do not exist. */
  method OverfullRing(sizeOfTupleDelimiter: nat, n: nat) returns (s: SequenceShredder, call: Call)
    requires PowerOfTwo(n) && sizeOfTupleDelimiter > 0
    ensures call.number == 64 * n && call.span == SpanningTuple(5, 64 * n + 5, true, true)
    ensures forall x | x in s.ledger.staged :: x < 64 * n
  {
    hide StateOk, Inv, StagedCall, CommitStep, Reachable, AreStaged, IsStart, IsEnd;
    s := new SequenceShredder(sizeOfTupleDelimiter, n);
    var k := 1;
    while k < 64 * n
      invariant 1 <= k <= 64 * n && fresh(s) && s.Valid() && s.tail == 0 && s.numberOfBitmaps == n
      invariant OneDelimiter(s.ledger, k)
    {
      var b := StagedBuffer(Some(RawBuffer(k, "")), 1, 0, 0);
      ghost var a := s.ledger;
      if k == 5 {
        DelimiterCall(a, b);
      } else {
        PlainCall(a, k, b);
      }
      var r := s.ProcessSequenceNumber(b, k, k == 5);
      k := k + 1;
      StateFacts(s.tail, s.tupleDelimiterBitmaps, s.seenAndUsedBitmaps, s.stagedBuffers, s.stagedBufferUses, s.ledger, s.rings);
      TailStays(s.tail, s.ledger, k);
    }
    ghost var q, next;
    call, q, next := s.FlushSearch();
    OpenTuple(s.ledger, q, next, 64 * n, call.span.spanEnd - 64 * n);
  }

  lemma OpenTuple(a: Ledger, q: nat, next: nat, k: nat, e: int)
    requires OneDelimiter(a, k) && Gapless(a, next) && IsStart(a, q, next) && k > 5
    ensures next == k && q == 5 && (e > 0 && IsEnd(Reseated(a, 0), 0, e) ==> e == 5)
  {
    assert k - 1 in a.staged && next - 1 in a.staged;
    assert 5 in a.delims && (q < 5 ==> !Plain(a, 5));
  }
}
