/** How often each staged buffer is still to be used, on the shredder's ledger. */
module UseCounts {
  import opened Options
  import opened RawBuffers
  import opened Spans

  /** The spanning tuple that ends in `x` was handed out. */
  ghost predicate EndUsed(a: Ledger, x: nat) {
    exists p: nat :: p in a.used && Span(a, p, x)
  }

  /** The spanning tuple that runs through `x` was handed out. */
  ghost predicate Covered(a: Ledger, x: nat) {
    exists p: nat, e: nat :: p in a.used && p < x < e && Span(a, p, e)
  }

  function Count(b: bool): nat { if b then 1 else 0 }

  /** A buffer with a delimiter is used by its own call, by the spanning tuple
      that ends in it and by the one that starts in it; a plain buffer by the
      one that runs through it; the artificial first delimiter only as a start. */
  ghost function Remaining(a: Ledger, x: nat): (r: int) {
    if x == 0 then 1 - Count(0 in a.used)
    else if x in a.delims then 3 - Count(x in a.done) - Count(x in a.used) - Count(EndUsed(a, x))
    else 1 - Count(Covered(a, x))
  }

  function First(m: nat, c: Claim): (x: nat) { if c.start.Some? then c.start.value else m }
  function Last(m: nat, c: Claim): (x: nat) { if c.end.Some? then c.end.value else m }

  /** How often the commit of call `m` uses buffer `x`. */
  function Uses(hasDelimiter: bool, m: nat, c: Claim, x: nat): (r: nat) {
    if !(First(m, c) <= x <= Last(m, c)) then 0
    else if x == m && hasDelimiter then 1 + Count(c.start.Some?) + Count(c.end.Some?)
    else 1
  }

  // ------------------------------------------------------------------ staging

  lemma UsedSpanOld(a: Ledger, s: Ledger, m: nat, b: StagedBuffer, hasDelimiter: bool, p: nat, e: nat)
    requires Shape(a) && UsedAreComplete(a) && m !in a.staged && s == Staged(a, m, b, hasDelimiter)
    requires p in a.used && Span(s, p, e)
    ensures Span(a, p, e)
  {
    var f: nat :| Span(a, p, f);
    SpanStable(a, m, b, hasDelimiter, p, f);
    SpanFromUnique(s, p, e, f);
  }

  lemma StageKeepsEndUsed(a: Ledger, m: nat, b: StagedBuffer, hasDelimiter: bool, x: nat)
    requires Shape(a) && UsedAreComplete(a) && m !in a.staged
    ensures EndUsed(Staged(a, m, b, hasDelimiter), x) == EndUsed(a, x)
  {
    var s := Staged(a, m, b, hasDelimiter);
    if EndUsed(s, x) {
      var p: nat :| p in s.used && Span(s, p, x);
      UsedSpanOld(a, s, m, b, hasDelimiter, p, x);
    }
    if EndUsed(a, x) {
      var p: nat :| p in a.used && Span(a, p, x);
      SpanStable(a, m, b, hasDelimiter, p, x);
    }
  }

  lemma StageKeepsRemaining(a: Ledger, m: nat, b: StagedBuffer, hasDelimiter: bool, x: nat)
    requires Shape(a) && UsedAreComplete(a) && m !in a.staged && m > 0
    ensures x != m ==> Remaining(Staged(a, m, b, hasDelimiter), x) == Remaining(a, x)
    ensures x == m ==> Remaining(Staged(a, m, b, hasDelimiter), x) == if hasDelimiter then 3 else 1
  {
    var s := Staged(a, m, b, hasDelimiter);
    StageKeepsEndUsed(a, m, b, hasDelimiter, x);
    assert Covered(s, x) == Covered(a, x) by {
      if Covered(s, x) {
        var p: nat, e: nat :| p in s.used && p < x < e && Span(s, p, e);
        UsedSpanOld(a, s, m, b, hasDelimiter, p, e);
      }
      if Covered(a, x) {
        var p: nat, e: nat :| p in a.used && p < x < e && Span(a, p, e);
        SpanStable(a, m, b, hasDelimiter, p, e);
      }
    }
    if x == m {
      assert !EndUsed(a, m);
      if Covered(a, m) {
        var p: nat, e: nat :| p in a.used && p < m < e && Span(a, p, e);
        InGap(a, p, e, m);
      }
    }
  }

  // --------------------------------------------------------------- committing

  lemma CommitEndUsed(a: Ledger, m: nat, x: nat)
    requires Inv(a) && m in a.calls
    ensures EndUsed(CommitStep(a, m), x) == (EndUsed(a, x) || exists p: nat :: Claims(a, m, a.calls[m], p, x))
    ensures forall p: nat | Claims(a, m, a.calls[m], p, x) :: !EndUsed(a, x)
  {
    var a', c := CommitStep(a, m), a.calls[m];
    assert CallOk(a, m, c);
    SameSpans(a, a');
    if EndUsed(a', x) {
      var p: nat :| p in a'.used && Span(a', p, x);
      if p !in a.used {
        var e := ClaimedSpan(a, m, p);
        SpanFromUnique(a, p, e, x);
      }
    }
    if EndUsed(a, x) {
      var p: nat :| p in a.used && Span(a, p, x);
      assert p in a'.used && Span(a', p, x);
    }
    forall p: nat | Claims(a, m, c, p, x) ensures !EndUsed(a, x) && EndUsed(a', x) {
      ClaimIsSpan(a, m, c, p, x);
      assert ClaimsStart(a, m, c, p);
      assert p in a'.used && Span(a', p, x);
      if EndUsed(a, x) {
        var q: nat :| q in a.used && Span(a, q, x);
        SpanToUnique(a, p, q, x);
      }
    }
  }

  lemma CommitCovered(a: Ledger, m: nat, x: nat)
    requires Inv(a) && m in a.calls && Plain(a, x)
    ensures Covered(CommitStep(a, m), x) == (Covered(a, x) || exists p: nat, e: nat :: p < x < e && Claims(a, m, a.calls[m], p, e))
    ensures forall p: nat, e: nat | p < x < e && Claims(a, m, a.calls[m], p, e) :: !Covered(a, x)
  {
    var a', c := CommitStep(a, m), a.calls[m];
    assert CallOk(a, m, c);
    SameSpans(a, a');
    if Covered(a', x) {
      var p: nat, e: nat :| p in a'.used && p < x < e && Span(a', p, e);
      if p !in a.used {
        var f := ClaimedSpan(a, m, p);
        SpanFromUnique(a, p, e, f);
      }
    }
    if Covered(a, x) {
      var p: nat, e: nat :| p in a.used && p < x < e && Span(a, p, e);
      assert p in a'.used && Span(a', p, e);
    }
    forall p: nat, e: nat | p < x < e && Claims(a, m, c, p, e) ensures !Covered(a, x) && Covered(a', x) {
      ClaimIsSpan(a, m, c, p, e);
      assert ClaimsStart(a, m, c, p);
      assert p in a'.used && Span(a', p, e);
      if Covered(a, x) {
        var q: nat, f: nat :| q in a.used && q < x < f && Span(a, q, f);
        NestedSpansEqual(a, p, e, q, f, x);
      }
    }
  }

  lemma NestedSpansEqual(a: Ledger, p: nat, e: nat, q: nat, f: nat, x: nat)
    requires Span(a, p, e) && Span(a, q, f) && p < x < e && q < x < f
    ensures p == q && e == f
  {
    if p < q {
      InGap(a, p, e, q);
    } else if q < p {
      InGap(a, q, f, p);
    }
    SpanFromUnique(a, p, e, f);
  }

  /** The commit of call `m` uses every buffer exactly as often as it takes from its count. */
  lemma CommitRemaining(a: Ledger, m: nat, x: nat)
    requires Inv(a) && m in a.calls && x in a.staged
    ensures Remaining(CommitStep(a, m), x) == Remaining(a, x) - Uses(m in a.delims, m, a.calls[m], x)
  {
    var c := a.calls[m];
    assert CallOk(a, m, c);
    if x !in a.delims {
      CommitPlain(a, m, x);
    } else {
      CommitDelimiter(a, m, x);
    }
  }

  lemma CommitPlain(a: Ledger, m: nat, x: nat)
    requires Inv(a) && m in a.calls && Plain(a, x)
    ensures Remaining(CommitStep(a, m), x) == Remaining(a, x) - Uses(m in a.delims, m, a.calls[m], x)
  {
    var c := a.calls[m];
    assert CallOk(a, m, c);
    CommitCovered(a, m, x);
    if Uses(m in a.delims, m, c, x) > 0 {
      var p, e := First(m, c), Last(m, c);
      if m in a.delims {
        if x < m {
          assert Claims(a, m, c, p, m);
        } else {
          assert Claims(a, m, c, m, e);
        }
      } else {
        assert Claims(a, m, c, p, e);
      }
    }
  }

  lemma CommitDelimiter(a: Ledger, m: nat, x: nat)
    requires Inv(a) && m in a.calls && x in a.delims
    ensures Remaining(CommitStep(a, m), x) == Remaining(a, x) - Uses(m in a.delims, m, a.calls[m], x)
  {
    var c := a.calls[m];
    assert CallOk(a, m, c);
    CommitEndUsed(a, m, x);
    if First(m, c) < x < Last(m, c) {
      InsideIsPlain(a, m, c, x);
    }
    ClaimedEnd(a, m, x);
    assert x in CommitStep(a, m).used <==> x in a.used || ClaimsStart(a, m, c, x);
  }

  /** The call of `m` hands out a spanning tuple that ends in `x`. */
  predicate EndsIn(a: Ledger, m: nat, c: Claim, x: nat) {
    (x == m && m in a.delims && c.start.Some?) || c.end == Some(x)
  }

  lemma ClaimedEnd(a: Ledger, m: nat, x: nat)
    requires m in a.calls && CallOk(a, m, a.calls[m])
    ensures (exists p: nat :: Claims(a, m, a.calls[m], p, x)) == EndsIn(a, m, a.calls[m], x)
  {
    var c := a.calls[m];
    if c.end == Some(x) {
      assert Claims(a, m, c, if m in a.delims then m else c.start.value, x);
    } else if EndsIn(a, m, c, x) {
      assert Claims(a, m, c, c.start.value, x);
    }
  }

  lemma CommitEnds(a: Ledger, m: nat, x: nat)
    requires Inv(a) && m in a.calls
    ensures EndUsed(CommitStep(a, m), x) == (EndUsed(a, x) || EndsIn(a, m, a.calls[m], x))
    ensures !(EndUsed(a, x) && EndsIn(a, m, a.calls[m], x))
    ensures EndsIn(a, m, a.calls[m], x) ==> x in a.delims && x > 0
    ensures m in a.staged && m > 0 && m !in a.done && !(m in a.delims && a.calls[m].end == Some(m))
  {
    assert CallOk(a, m, a.calls[m]);
    ClaimedEnd(a, m, x);
    CommitEndUsed(a, m, x);
  }

  /** A delimiter strictly between the first and the last buffer of a call is the call's own. */
  lemma InsideIsPlain(a: Ledger, m: nat, c: Claim, x: nat)
    requires CallOk(a, m, c) && x in a.delims && First(m, c) < x < Last(m, c)
    ensures x == m
  {
    if x < m {
      InGap(a, First(m, c), m, x);
    } else if m < x {
      InGap(a, m, Last(m, c), x);
    }
  }
}
