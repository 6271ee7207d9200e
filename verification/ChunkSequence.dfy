/** The sequence numbers of the emitted chunks: every call emits under its own
    number, and the flush under that of the last buffer or the one behind it. */
module ChunkSequence {
  import opened RawBuffers
  import opened Spans
  import opened UseCounts
  import opened CsvFormatting
  import opened ParallelParse

  ghost predicate EmittedUnder(emitted: seq<FormattedBuffer>, n: nat) {
    exists i: nat :: i < |emitted| && emitted[i].sequenceNumber == n
  }

  /** No two chunks have the same sequence and chunk number. */
  ghost predicate UniqueChunks(emitted: seq<FormattedBuffer>) {
    forall i, j | 0 <= i < j < |emitted| ::
      emitted[i].sequenceNumber != emitted[j].sequenceNumber || emitted[i].chunkNumber != emitted[j].chunkNumber
  }

  /** Buffer `x` has more than one delimiter, so tuples of its own. */
  predicate HasInner(d: char, w: seq<string>, x: nat)
    requires x <= |w| + 1
  {
    HasDelimiter(d, w, x) && BufferOf(d, w, x).offsetOfFirstDelimiter != BufferOf(d, w, x).offsetOfLastDelimiter
  }

  /** A call that has emitted under its number `m`: it is committed, and there was something to emit. */
  ghost predicate NumberOk(d: char, w: seq<string>, a: Ledger, m: nat) {
    && 0 < m <= |w| && m in a.staged && m !in a.calls
    && (m in a.delims ==> m in a.done && (HasInner(d, w, m) || m in a.used || EndUsed(a, m)))
    && (m !in a.delims ==> exists e: nat :: e > m && e in a.delims)
  }

  ghost predicate NumbersOk(d: char, w: seq<string>, a: Ledger, emitted: seq<FormattedBuffer>) {
    && UniqueChunks(emitted)
    && (forall n: nat | EmittedUnder(emitted, n) :: NumberOk(d, w, a, n))
    && (forall m | m in a.done && m <= |w| && HasInner(d, w, m) :: EmittedUnder(emitted, m))
  }

  lemma UniqueConcat(emitted: seq<FormattedBuffer>, chunks: seq<FormattedBuffer>, n: nat)
    requires UniqueChunks(emitted) && !EmittedUnder(emitted, n) && Numbered(chunks, n, true)
    ensures UniqueChunks(emitted + chunks)
    ensures forall k: nat :: EmittedUnder(emitted + chunks, k) <==> EmittedUnder(emitted, k) || (k == n && chunks != [])
  {
    var all := emitted + chunks;
    forall i, j | 0 <= i < j < |all|
      ensures all[i].sequenceNumber != all[j].sequenceNumber || all[i].chunkNumber != all[j].chunkNumber
    {
      if i < |emitted| <= j {
        assert emitted[i].sequenceNumber != n;
      }
    }
    forall k: nat ensures EmittedUnder(all, k) <==> EmittedUnder(emitted, k) || (k == n && chunks != []) {
      if EmittedUnder(emitted, k) {
        var i: nat :| i < |emitted| && emitted[i].sequenceNumber == k;
        assert all[i].sequenceNumber == k;
      }
      if chunks != [] {
        assert all[|emitted|].sequenceNumber == n;
      }
    }
  }

  lemma StageNumber(d: char, w: seq<string>, a: Ledger, m: nat, b: StagedBuffer, hasDelimiter: bool, c: Claim, n: nat)
    requires Shape(a) && UsedAreComplete(a) && m !in a.staged && NumberOk(d, w, a, n)
    ensures NumberOk(d, w, StageStep(a, m, b, hasDelimiter, c), n)
  {
    var s, a' := Staged(a, m, b, hasDelimiter), StageStep(a, m, b, hasDelimiter, c);
    StageKeepsEndUsed(a, m, b, hasDelimiter, n);
    SameEndUsed(s, a', n);
    if n !in a.delims {
      var e: nat :| e > n && e in a.delims;
      assert e in a'.delims;
    }
  }

  lemma SameEndUsed(s: Ledger, t: Ledger, n: nat)
    requires s.staged == t.staged && s.delims == t.delims && s.used == t.used
    ensures EndUsed(s, n) == EndUsed(t, n)
  {
    SameSpans(s, t);
  }

  lemma StageNumbers(d: char, w: seq<string>, a: Ledger, m: nat, b: StagedBuffer, hasDelimiter: bool, c: Claim,
                     emitted: seq<FormattedBuffer>)
    requires Shape(a) && UsedAreComplete(a) && m !in a.staged && NumbersOk(d, w, a, emitted)
    ensures NumbersOk(d, w, StageStep(a, m, b, hasDelimiter, c), emitted)
  {
    hide NumberOk, EmittedUnder, UniqueChunks, Shape, UsedAreComplete;
    forall n: nat | EmittedUnder(emitted, n) ensures NumberOk(d, w, StageStep(a, m, b, hasDelimiter, c), n) {
      StageNumber(d, w, a, m, b, hasDelimiter, c, n);
    }
  }

  lemma CommitNumber(d: char, w: seq<string>, a: Ledger, m: nat, n: nat)
    requires m in a.calls && NumberOk(d, w, a, n)
    ensures NumberOk(d, w, CommitStep(a, m), n)
  {
    var a' := CommitStep(a, m);
    SameSpansAfter(a, m);
    if EndUsed(a, n) {
      var p: nat :| p in a.used && Span(a, p, n);
      assert p in a'.used && Span(a', p, n);
    }
  }

  lemma SameSpansAfter(a: Ledger, m: nat)
    requires m in a.calls
    ensures forall p: nat, e: nat :: Span(CommitStep(a, m), p, e) == Span(a, p, e)
  {
    forall p: nat, e: nat ensures Span(CommitStep(a, m), p, e) == Span(a, p, e) {
      assert forall x :: Plain(CommitStep(a, m), x) == Plain(a, x);
    }
  }

  /** A call that emits: its spanning tuples count as handed out from then on. */
  lemma OwnNumber(d: char, w: seq<string>, a: Ledger, m: nat)
    requires CallsOk(a) && m in a.calls && m <= |w| && FromStream(d, w, a)
    requires m in a.delims ==> HasInner(d, w, m) || a.calls[m].start.Some? || a.calls[m].end.Some?
    ensures NumberOk(d, w, CommitStep(a, m), m)
  {
    var c, a' := a.calls[m], CommitStep(a, m);
    assert CallOk(a, m, c);
    SameSpansAfter(a, m);
    if m in a.delims {
      if c.start.Some? {
        assert Span(a, c.start.value, m) && c.start.value in a'.used;
        assert EndUsed(a', m);
      }
    } else {
      assert c.end.value > m && c.end.value in a'.delims;
    }
  }

  lemma NotYetEmitted(d: char, w: seq<string>, a: Ledger, m: nat, emitted: seq<FormattedBuffer>)
    requires NumbersOk(d, w, a, emitted) && m in a.calls
    ensures !EmittedUnder(emitted, m)
  {
  }

  lemma CommitNumbers(d: char, w: seq<string>, a: Ledger, m: nat, emitted: seq<FormattedBuffer>, chunks: seq<FormattedBuffer>)
    requires Inv(a) && m in a.calls && 0 < m <= |w| && FromStream(d, w, a) && NumbersOk(d, w, a, emitted) && Numbered(chunks, m, true)
    requires m in a.delims ==> (chunks == [] <==> a.calls[m].start.None? && a.calls[m].end.None? && !HasInner(d, w, m))
    ensures !EmittedUnder(emitted, m) && NumbersOk(d, w, CommitStep(a, m), emitted + chunks)
  {
    hide EmittedUnder, UniqueChunks, Numbered, FromStream, BufferOf;
    var a' := CommitStep(a, m);
    NotYetEmitted(d, w, a, m, emitted);
    UniqueConcat(emitted, chunks, m);
    forall n: nat | EmittedUnder(emitted + chunks, n) ensures NumberOk(d, w, a', n) {
      if EmittedUnder(emitted, n) {
        CommitNumber(d, w, a, m, n);
      } else {
        OwnNumber(d, w, a, m);
      }
    }
    forall k | k in a'.done && k <= |w| && HasInner(d, w, k) ensures EmittedUnder(emitted + chunks, k) {
      if k == m {
        DoneIsDelimiter(d, w, a, m);
      }
    }
  }

  lemma DoneIsDelimiter(d: char, w: seq<string>, a: Ledger, m: nat)
    requires FromStream(d, w, a) && CallsOk(a) && m in a.calls && m <= |w| && HasInner(d, w, m)
    ensures m in a.delims
  {
    assert CallOk(a, m, a.calls[m]);
  }

  // ------------------------------------------------------------------------ the flush

  /** The last buffer has a delimiter and the tuple that ends in it was handed out. */
  ghost predicate LastProduced(d: char, w: seq<string>, a: Ledger) {
    HasDelimiter(d, w, |w|) && !(a.lost && Span(a, 0, |w|))
  }

  /** The number under which the flush emits. */
  ghost function FlushSequence(d: char, w: seq<string>, a: Ledger): (n: nat) {
    if LastProduced(d, w, a) then |w| + 1 else |w|
  }

  lemma NothingBehind(d: char, w: seq<string>, a: Ledger)
    requires Inv(a) && FromStream(d, w, a) && Quiet(w, a)
    ensures forall e | e in a.delims :: e <= |w|
    ensures |w| !in a.used && (|w| in a.delims) == HasDelimiter(d, w, |w|)
  {
    assert |w| in a.staged;
  }

  /** What the use count of the last buffer says when every call is done. */
  lemma LastUses(d: char, w: seq<string>, a: Ledger)
    requires Inv(a) && FromStream(d, w, a) && Quiet(w, a)
    ensures |w| in a.delims && Remaining(a, |w|) != 2 <==> LastProduced(d, w, a)
  {
    hide Inv, FromStream, EndUsed, HasDelimiter;
    NothingBehind(d, w, a);
    if |w| > 0 && |w| in a.delims {
      var e := LostEnd(a);
      QuietDelimiter(a, |w|, e);
      LostEndUnique(a, e, |w|);
    }
  }

  lemma LostEnd(a: Ledger) returns (e: nat)
    requires Inv(a)
    ensures a.lost ==> Span(a, 0, e)
  {
    if a.lost {
      e :| Span(a, 0, e);
    } else {
      e := 0;
    }
  }

  lemma LostEndUnique(a: Ledger, e: nat, f: nat)
    ensures Span(a, 0, e) && Span(a, 0, f) ==> e == f
  {
    if Span(a, 0, e) && Span(a, 0, f) {
      SpanFromUnique(a, 0, e, f);
    }
  }

  /** Exactly when the flush repeats the number of an earlier chunk: the first
      tuple was lost, it ends in the last buffer, and that has tuples of its own. */
  lemma FlushNumberRepeats(d: char, w: seq<string>, a: Ledger, emitted: seq<FormattedBuffer>)
    requires Inv(a) && FromStream(d, w, a) && Quiet(w, a) && NumbersOk(d, w, a, emitted)
    ensures EmittedUnder(emitted, FlushSequence(d, w, a)) <==> a.lost && Span(a, 0, |w|) && HasInner(d, w, |w|)
  {
    hide Inv, FromStream, EmittedUnder, UniqueChunks, HasInner, EndUsed, Remaining;
    NothingBehind(d, w, a);
    var n := FlushSequence(d, w, a);
    if EmittedUnder(emitted, n) {
      assert NumberOk(d, w, a, n);
    }
    if |w| > 0 && |w| in a.delims {
      var e := LostEnd(a);
      QuietDelimiter(a, |w|, e);
      LostEndUnique(a, e, |w|);
    }
  }
}
