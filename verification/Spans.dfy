/** The shredder's protocol on plain sets of sequence numbers: which numbers
    have been staged, which of them hold a tuple delimiter, which spanning
    tuples have been handed out, and which calls are between their two locked
    sections.  No bitmaps, no ring. */
module Spans {
  import opened Options
  import opened RawBuffers

  /** What the search of one call found: the delimiter that starts the spanning
      tuple the call's buffer belongs to, and the one that ends it. */
  datatype Claim = Claim(start: Option<nat>, end: Option<nat>)

  datatype Ledger = Ledger(
    staged: map<nat, StagedBuffer>,  // every number staged so far, with what was staged
    delims: set<nat>,                // those that hold a tuple delimiter
    used: set<nat>,                  // delimiters whose trailing spanning tuple was handed out
    done: set<nat>,                  // delimiters whose own call has committed
    calls: map<nat, Claim>,          // calls that have staged but not committed
    lost: bool)                      // the first tuple was complete and no call claimed it

  /** Staged and without a delimiter: a spanning tuple runs through it. */
  predicate Plain(a: Ledger, x: nat) {
    x in a.staged && x !in a.delims
  }

  ghost predicate Gap(a: Ledger, lo: nat, hi: nat) {
    forall x | lo < x < hi :: Plain(a, x)
  }

  /** A complete spanning tuple: it starts in `p`, ends in `e`, and every buffer
      in between is staged and has no delimiter. */
  ghost predicate Span(a: Ledger, p: nat, e: nat) {
    p < e && p in a.delims && e in a.delims && Gap(a, p, e)
  }

  /** `p` is the nearest delimiter below `m`, reachable over plain buffers. */
  ghost predicate IsStart(a: Ledger, p: nat, m: nat) {
    p < m && p in a.delims && Gap(a, p, m)
  }

  /** `e` is the nearest delimiter above `m`, reachable over plain buffers. */
  ghost predicate IsEnd(a: Ledger, m: nat, e: nat) {
    m < e && e in a.delims && Gap(a, m, e)
  }

  /** The claim holds exactly the two delimiters reachable from `m`. */
  ghost predicate Exact(a: Ledger, m: nat, c: Claim) {
    && (c.start.Some? ==> IsStart(a, c.start.value, m))
    && (c.end.Some? ==> IsEnd(a, m, c.end.value))
    && (forall p: nat | IsStart(a, p, m) :: c.start == Some(p))
    && (forall e: nat | IsEnd(a, m, e) :: c.end == Some(e))
  }

  /** The call of `m` with claim `c` will hand out the span from `p` to `e`. */
  predicate Claims(a: Ledger, m: nat, c: Claim, p: nat, e: nat) {
    if m in a.delims
    then (c.start == Some(p) && e == m) || (p == m && c.end == Some(e))
    else c.start == Some(p) && c.end == Some(e)
  }

  predicate ClaimsStart(a: Ledger, m: nat, c: Claim, p: nat) {
    c.start == Some(p) || (m in a.delims && p == m && c.end.Some?)
  }

  /** The guards of the wrapping searches test the number of the start instead
      of its flag, so a start of 0 stops the search when the tuple ends in a
      later bitmap than the one of the plain buffer that completes it. */
  predicate Overlooked(m: nat, c: Claim) {
    c.start == Some(0) && c.end.Some? && m / 64 < c.end.value / 64
  }

  function Initial(first: StagedBuffer): (a: Ledger) {
    Ledger(map[0 := first], {0}, {}, {}, map[], false)
  }

  function Staged(a: Ledger, m: nat, b: StagedBuffer, hasDelimiter: bool): (a': Ledger) {
    a.(staged := a.staged[m := b], delims := if hasDelimiter then a.delims + {m} else a.delims)
  }

  /** The first locked section, with the search that follows it. */
  function StageStep(a: Ledger, m: nat, b: StagedBuffer, hasDelimiter: bool, c: Claim): (a': Ledger) {
    var s := Staged(a, m, b, hasDelimiter);
    if hasDelimiter then s.(calls := a.calls[m := c])
    else if c.start.None? || c.end.None? then s
    else if Overlooked(m, c) then s.(lost := true)
    else s.(calls := a.calls[m := c])
  }

  function StartsOf(a: Ledger, m: nat, c: Claim): (s: set<nat>)
    ensures forall p :: p in s <==> ClaimsStart(a, m, c, p)
  {
    (if c.start.Some? then {c.start.value} else {})
    + (if m in a.delims && c.end.Some? then {m} else {})
  }

  /** The second locked section. */
  function CommitStep(a: Ledger, m: nat): (a': Ledger)
    requires m in a.calls
  {
    a.(used := a.used + StartsOf(a, m, a.calls[m]),
       done := if m in a.delims then a.done + {m} else a.done,
       calls := a.calls - {m})
  }

  ghost predicate StageAllowed(a: Ledger, m: nat, b: StagedBuffer, hasDelimiter: bool, c: Claim) {
    m > 0 && m !in a.staged && Exact(Staged(a, m, b, hasDelimiter), m, c)
  }

  // ---------------------------------------------------------------- invariant

  ghost predicate Shape(a: Ledger) {
    && 0 in a.delims
    && a.delims <= a.staged.Keys
    && a.used <= a.delims
    && a.done <= a.delims
    && 0 !in a.done
  }

  ghost predicate UsedAreComplete(a: Ledger) {
    forall p | p in a.used :: exists e :: Span(a, p, e)
  }

  ghost predicate CallOk(a: Ledger, m: nat, c: Claim) {
    && m in a.staged && m > 0 && m !in a.done
    && (c.start.Some? ==> IsStart(a, c.start.value, m) && c.start.value !in a.used)
    && (c.end.Some? ==> IsEnd(a, m, c.end.value) && m !in a.used)
    && (m !in a.delims ==> c.start.Some? && c.end.Some?)
  }

  ghost predicate CallsOk(a: Ledger) {
    forall m | m in a.calls :: CallOk(a, m, a.calls[m])
  }

  /** No two calls hand out a spanning tuple with the same start. */
  ghost predicate ClaimsDisjoint(a: Ledger) {
    forall m, k, p | m in a.calls && k in a.calls && m != k ::
      !(ClaimsStart(a, m, a.calls[m], p) && ClaimsStart(a, k, a.calls[k], p))
  }

  ghost predicate Claimed(a: Ledger, p: nat) {
    exists m :: m in a.calls && ClaimsStart(a, m, a.calls[m], p)
  }

  /** A complete spanning tuple was handed out, will be, or is the lost first one. */
  ghost predicate SpansAccounted(a: Ledger) {
    forall p, e | Span(a, p, e) :: p in a.used || Claimed(a, p) || (p == 0 && a.lost)
  }

  ghost predicate LostOk(a: Ledger) {
    a.lost ==> 0 !in a.used && !Claimed(a, 0) && exists e :: Span(a, 0, e)
  }

  ghost predicate OwnCalls(a: Ledger) {
    forall x | x in a.delims && x > 0 :: x in a.calls || x in a.done
  }

  ghost predicate Inv(a: Ledger) {
    && Shape(a)
    && UsedAreComplete(a)
    && CallsOk(a)
    && ClaimsDisjoint(a)
    && SpansAccounted(a)
    && LostOk(a)
    && OwnCalls(a)
  }

  // ------------------------------------------------------------------- lemmas

  lemma InitialInv(first: StagedBuffer)
    ensures Inv(Initial(first))
  {
  }

  lemma InGap(a: Ledger, lo: nat, hi: nat, x: nat)
    requires Gap(a, lo, hi) && lo < x < hi
    ensures Plain(a, x)
  {
  }

  lemma SpanFromUnique(a: Ledger, p: nat, e: nat, f: nat)
    requires Span(a, p, e) && Span(a, p, f)
    ensures e == f
  {
    if e < f {
      InGap(a, p, f, e);
    } else if f < e {
      InGap(a, p, e, f);
    }
  }

  lemma SpanToUnique(a: Ledger, p: nat, q: nat, e: nat)
    requires Span(a, p, e) && Span(a, q, e)
    ensures p == q
  {
    if p < q {
      InGap(a, p, e, q);
    } else if q < p {
      InGap(a, q, e, p);
    }
  }

  lemma StartUnique(a: Ledger, p: nat, q: nat, m: nat)
    requires IsStart(a, p, m) && IsStart(a, q, m)
    ensures p == q
  {
    if p < q {
      InGap(a, p, m, q);
    } else if q < p {
      InGap(a, q, m, p);
    }
  }

  /** Without gaps every number reaches the nearest delimiter below it. */
  lemma {:induction false} NearestDelimiter(a: Ledger, m: nat) returns (q: nat)
    requires Shape(a) && m > 0 && forall x | 0 <= x < m :: x in a.staged
    ensures IsStart(a, q, m)
  {
    if m - 1 in a.delims {
      q := m - 1;
    } else {
      q := NearestDelimiter(a, m - 1);
      assert Plain(a, m - 1);
      assert forall x | q < x < m :: Plain(a, x);
    }
  }

  lemma EndUnique(a: Ledger, m: nat, e: nat, f: nat)
    requires IsEnd(a, m, e) && IsEnd(a, m, f)
    ensures e == f
  {
    if e < f {
      InGap(a, m, f, e);
    } else if f < e {
      InGap(a, m, e, f);
    }
  }

  /** A staged span stays a span. */
  lemma SpanStable(a: Ledger, m: nat, b: StagedBuffer, hasDelimiter: bool, p: nat, e: nat)
    requires Shape(a) && m !in a.staged && Span(a, p, e)
    ensures Span(Staged(a, m, b, hasDelimiter), p, e)
  {
    var s := Staged(a, m, b, hasDelimiter);
    forall x | p < x < e ensures Plain(s, x) {
      assert Plain(a, x);
    }
  }

  /** Staging `m` completes exactly the spans that its search claims: a span is
      found by the call that stages its last buffer, and by no other. */
  lemma StageCompletes(a: Ledger, m: nat, b: StagedBuffer, hasDelimiter: bool, c: Claim, p: nat, e: nat)
    requires Shape(a) && StageAllowed(a, m, b, hasDelimiter, c)
    ensures var s := Staged(a, m, b, hasDelimiter);
            Span(s, p, e) && !Span(a, p, e) <==> Claims(s, m, c, p, e)
  {
    var s := Staged(a, m, b, hasDelimiter);
    if Span(s, p, e) && !Span(a, p, e) {
      NewSpanTouches(a, m, b, hasDelimiter, p, e);
      if m == p {
        assert IsEnd(s, m, e);
      } else if m == e {
        assert IsStart(s, p, m);
      } else {
        assert IsStart(s, p, m) && IsEnd(s, m, e);
      }
    }
    if Claims(s, m, c, p, e) {
      ClaimIsSpan(s, m, c, p, e);
      if Span(a, p, e) && p < m < e {
        InGap(a, p, e, m);
      }
    }
  }

  lemma GapStable(a: Ledger, m: nat, b: StagedBuffer, hasDelimiter: bool, lo: nat, hi: nat)
    requires !(lo < m < hi)
    ensures Gap(a, lo, hi) == Gap(Staged(a, m, b, hasDelimiter), lo, hi)
  {
    var s := Staged(a, m, b, hasDelimiter);
    assert forall x | lo < x < hi :: Plain(a, x) == Plain(s, x);
  }

  lemma NewSpanTouches(a: Ledger, m: nat, b: StagedBuffer, hasDelimiter: bool, p: nat, e: nat)
    requires Shape(a) && m !in a.staged
    requires Span(Staged(a, m, b, hasDelimiter), p, e) && !Span(a, p, e)
    ensures p <= m <= e && (hasDelimiter ==> m == p || m == e)
    ensures !hasDelimiter ==> p < m < e
  {
    var s := Staged(a, m, b, hasDelimiter);
    if m < p || m > e {
      GapStable(a, m, b, hasDelimiter, p, e);
    }
    if p < m < e {
      InGap(s, p, e, m);
    }
  }

  lemma ClaimIsSpan(s: Ledger, m: nat, c: Claim, p: nat, e: nat)
    requires m in s.staged && Claims(s, m, c, p, e)
    requires c.start.Some? ==> IsStart(s, c.start.value, m)
    requires c.end.Some? ==> IsEnd(s, m, c.end.value)
    ensures Span(s, p, e)
  {
    if m !in s.delims {
      assert Plain(s, m);
    }
  }

  // ------------------------------------------------------- staging keeps Inv

  lemma StartStable(a: Ledger, m: nat, b: StagedBuffer, hasDelimiter: bool, p: nat, k: nat)
    requires Shape(a) && m !in a.staged && k in a.staged && IsStart(a, p, k)
    ensures IsStart(Staged(a, m, b, hasDelimiter), p, k)
  {
    if p < m < k {
      InGap(a, p, k, m);
    }
    GapStable(a, m, b, hasDelimiter, p, k);
  }

  lemma EndStable(a: Ledger, m: nat, b: StagedBuffer, hasDelimiter: bool, k: nat, e: nat)
    requires Shape(a) && m !in a.staged && IsEnd(a, k, e)
    ensures IsEnd(Staged(a, m, b, hasDelimiter), k, e)
  {
    if k < m < e {
      InGap(a, k, e, m);
    }
    GapStable(a, m, b, hasDelimiter, k, e);
  }

  /** A start that a fresh buffer reaches was not handed out before. */
  lemma FreshStartUnused(a: Ledger, m: nat, b: StagedBuffer, hasDelimiter: bool, p: nat)
    requires Shape(a) && UsedAreComplete(a) && m !in a.staged
    requires IsStart(Staged(a, m, b, hasDelimiter), p, m)
    ensures p !in a.used
  {
    if p in a.used {
      var e :| Span(a, p, e);
      if m < e {
        InGap(a, p, e, m);
      } else {
        InGap(Staged(a, m, b, hasDelimiter), p, m, e);
      }
    }
  }

  /** ... nor does a call in flight claim it. */
  lemma FreshStartUnclaimed(a: Ledger, m: nat, b: StagedBuffer, hasDelimiter: bool, p: nat)
    requires Shape(a) && CallsOk(a) && m !in a.staged
    requires IsStart(Staged(a, m, b, hasDelimiter), p, m)
    ensures !Claimed(a, p)
  {
    if Claimed(a, p) {
      var k :| k in a.calls && ClaimsStart(a, k, a.calls[k], p);
      var e := ClaimedSpan(a, k, p);
      if m < e {
        InGap(a, p, e, m);
      } else {
        InGap(Staged(a, m, b, hasDelimiter), p, m, e);
      }
    }
  }

  lemma ClaimedSpan(a: Ledger, k: nat, p: nat) returns (e: nat)
    requires Shape(a) && CallsOk(a) && k in a.calls && ClaimsStart(a, k, a.calls[k], p)
    ensures Claims(a, k, a.calls[k], p, e) && Span(a, p, e)
  {
    var c := a.calls[k];
    assert CallOk(a, k, c);
    e := if k in a.delims && c.start == Some(p) then k else c.end.value;
    ClaimIsSpan(a, k, c, p, e);
  }

  lemma StageKeepsCalls(a: Ledger, m: nat, b: StagedBuffer, hasDelimiter: bool, c: Claim)
    requires Inv(a) && StageAllowed(a, m, b, hasDelimiter, c)
    ensures CallsOk(StageStep(a, m, b, hasDelimiter, c))
    ensures UsedAreComplete(StageStep(a, m, b, hasDelimiter, c))
  {
    var s := Staged(a, m, b, hasDelimiter);
    var a' := StageStep(a, m, b, hasDelimiter, c);
    SameSpans(s, a');
    forall p | p in a'.used ensures exists e :: Span(a', p, e) {
      var e :| Span(a, p, e);
      SpanStable(a, m, b, hasDelimiter, p, e);
      assert Span(a', p, e);
    }
    forall k | k in a'.calls ensures CallOk(a', k, a'.calls[k]) {
      if k == m {
        if c.start.Some? {
          FreshStartUnused(a, m, b, hasDelimiter, c.start.value);
        }
      } else {
        var d := a.calls[k];
        assert CallOk(a, k, d);
        if d.start.Some? {
          StartStable(a, m, b, hasDelimiter, d.start.value, k);
        }
        if d.end.Some? {
          EndStable(a, m, b, hasDelimiter, k, d.end.value);
        }
      }
    }
  }

  /** Spans depend on the staged numbers and the delimiters only. */
  lemma SameSpans(s: Ledger, t: Ledger)
    requires s.staged == t.staged && s.delims == t.delims
    ensures forall p, e :: Span(s, p, e) == Span(t, p, e)
    ensures forall p, m :: IsStart(s, p, m) == IsStart(t, p, m)
    ensures forall m, e :: IsEnd(s, m, e) == IsEnd(t, m, e)
  {
    assert forall x :: Plain(s, x) == Plain(t, x);
    assert forall lo, hi :: Gap(s, lo, hi) == Gap(t, lo, hi);
  }

  lemma StageKeepsDisjoint(a: Ledger, m: nat, b: StagedBuffer, hasDelimiter: bool, c: Claim)
    requires Inv(a) && StageAllowed(a, m, b, hasDelimiter, c)
    ensures ClaimsDisjoint(StageStep(a, m, b, hasDelimiter, c))
  {
    var s := Staged(a, m, b, hasDelimiter);
    var a' := StageStep(a, m, b, hasDelimiter, c);
    forall k, p | k in a.calls && ClaimsStart(a', m, c, p) ensures !ClaimsStart(a', k, a'.calls[k], p) {
      assert CallOk(a, k, a.calls[k]);
      if ClaimsStart(a', k, a'.calls[k], p) {
        assert ClaimsStart(a, k, a.calls[k], p);
        var e := ClaimedSpan(a, k, p);
        if p != m {
          FreshStartUnclaimed(a, m, b, hasDelimiter, p);
        }
      }
    }
    forall k, l, p | k in a'.calls && l in a'.calls && k != l
      ensures !(ClaimsStart(a', k, a'.calls[k], p) && ClaimsStart(a', l, a'.calls[l], p))
    {
      if k != m && l != m {
        assert CallOk(a, k, a.calls[k]) && CallOk(a, l, a.calls[l]);
        assert ClaimsStart(a', k, a'.calls[k], p) == ClaimsStart(a, k, a.calls[k], p);
        assert ClaimsStart(a', l, a'.calls[l], p) == ClaimsStart(a, l, a.calls[l], p);
      }
    }
  }

  lemma ClaimedStable(a: Ledger, m: nat, b: StagedBuffer, hasDelimiter: bool, c: Claim, p: nat)
    requires CallsOk(a) && m !in a.staged && Claimed(a, p)
    ensures Claimed(StageStep(a, m, b, hasDelimiter, c), p)
  {
    var a' := StageStep(a, m, b, hasDelimiter, c);
    var k :| k in a.calls && ClaimsStart(a, k, a.calls[k], p);
    assert CallOk(a, k, a.calls[k]);
    assert k in a'.calls && ClaimsStart(a', k, a'.calls[k], p);
  }

  lemma StageKeepsAccounts(a: Ledger, m: nat, b: StagedBuffer, hasDelimiter: bool, c: Claim)
    requires Inv(a) && StageAllowed(a, m, b, hasDelimiter, c)
    ensures SpansAccounted(StageStep(a, m, b, hasDelimiter, c))
  {
    var s := Staged(a, m, b, hasDelimiter);
    var a' := StageStep(a, m, b, hasDelimiter, c);
    SameSpans(s, a');
    forall p, e | Span(a', p, e) ensures p in a'.used || Claimed(a', p) || (p == 0 && a'.lost) {
      StageCompletes(a, m, b, hasDelimiter, c, p, e);
      if Span(a, p, e) {
        if Claimed(a, p) {
          ClaimedStable(a, m, b, hasDelimiter, c, p);
        }
      } else if m in a'.calls {
        assert ClaimsStart(a', m, a'.calls[m], p);
      }
    }
  }

  lemma StageKeepsLost(a: Ledger, m: nat, b: StagedBuffer, hasDelimiter: bool, c: Claim)
    requires Inv(a) && StageAllowed(a, m, b, hasDelimiter, c)
    ensures LostOk(StageStep(a, m, b, hasDelimiter, c))
  {
    var s := Staged(a, m, b, hasDelimiter);
    var a' := StageStep(a, m, b, hasDelimiter, c);
    SameSpans(s, a');
    if a.lost {
      var e :| Span(a, 0, e);
      SpanStable(a, m, b, hasDelimiter, 0, e);
      assert Span(a', 0, e);
      if IsStart(s, 0, m) {
        if m < e {
          InGap(a, 0, e, m);
        } else {
          InGap(s, 0, m, e);
        }
      }
      assert !ClaimsStart(s, m, c, 0);
      assert !Claimed(a', 0) by {
        if Claimed(a', 0) {
          var k :| k in a'.calls && ClaimsStart(a', k, a'.calls[k], 0);
          assert CallOk(a, k, a.calls[k]);
          assert ClaimsStart(a, k, a.calls[k], 0);
        }
      }
    } else if a'.lost {
      ClaimIsSpan(s, m, c, 0, c.end.value);
      assert Span(a', 0, c.end.value);
      FreshStartUnused(a, m, b, hasDelimiter, 0);
      FreshStartUnclaimed(a, m, b, hasDelimiter, 0);
    }
  }

  lemma StageKeepsInv(a: Ledger, m: nat, b: StagedBuffer, hasDelimiter: bool, c: Claim)
    requires Inv(a) && StageAllowed(a, m, b, hasDelimiter, c)
    ensures Inv(StageStep(a, m, b, hasDelimiter, c))
  {
    StageKeepsCalls(a, m, b, hasDelimiter, c);
    StageKeepsDisjoint(a, m, b, hasDelimiter, c);
    StageKeepsAccounts(a, m, b, hasDelimiter, c);
    StageKeepsLost(a, m, b, hasDelimiter, c);
  }

  // ---------------------------------------------------- committing keeps Inv

  lemma CommitKeepsCalls(a: Ledger, m: nat)
    requires Inv(a) && m in a.calls
    ensures CallsOk(CommitStep(a, m)) && UsedAreComplete(CommitStep(a, m))
  {
    var a' := CommitStep(a, m);
    SameSpans(a, a');
    forall p | p in a'.used ensures exists e :: Span(a', p, e) {
      if p in a.used {
        var e :| Span(a, p, e);
        assert Span(a', p, e);
      } else {
        var e := ClaimedSpan(a, m, p);
        assert Span(a', p, e);
      }
    }
    forall k | k in a'.calls ensures CallOk(a', k, a'.calls[k]) {
      var d := a.calls[k];
      assert CallOk(a, k, d);
      assert d.start.Some? ==> ClaimsStart(a, k, d, d.start.value);
      assert d.end.Some? && k in a.delims ==> ClaimsStart(a, k, d, k);
    }
  }

  lemma CommitKeepsAccounts(a: Ledger, m: nat)
    requires Inv(a) && m in a.calls
    ensures SpansAccounted(CommitStep(a, m)) && LostOk(CommitStep(a, m))
  {
    var a' := CommitStep(a, m);
    SameSpans(a, a');
    forall p, e | Span(a', p, e) ensures p in a'.used || Claimed(a', p) || (p == 0 && a'.lost) {
      assert Span(a, p, e);
      if Claimed(a, p) {
        var k :| k in a.calls && ClaimsStart(a, k, a.calls[k], p);
        if k != m {
          assert k in a'.calls && ClaimsStart(a', k, a'.calls[k], p);
        }
      }
    }
    if a.lost {
      var e :| Span(a, 0, e);
      assert Span(a', 0, e);
      assert !ClaimsStart(a, m, a.calls[m], 0);
      assert forall k | k in a'.calls :: k in a.calls && !ClaimsStart(a, k, a.calls[k], 0);
      assert forall k | k in a'.calls :: !ClaimsStart(a', k, a'.calls[k], 0);
    }
  }

  lemma CommitKeepsInv(a: Ledger, m: nat)
    requires Inv(a) && m in a.calls
    ensures Inv(CommitStep(a, m))
  {
    CommitKeepsCalls(a, m);
    CommitKeepsAccounts(a, m);
    var a' := CommitStep(a, m);
    assert CallOk(a, m, a.calls[m]);
    assert ClaimsDisjoint(a') by {
      forall k, l, p | k in a'.calls && l in a'.calls && k != l
        ensures !(ClaimsStart(a', k, a'.calls[k], p) && ClaimsStart(a', l, a'.calls[l], p))
      {
        assert ClaimsStart(a', k, a'.calls[k], p) == ClaimsStart(a, k, a.calls[k], p);
        assert ClaimsStart(a', l, a'.calls[l], p) == ClaimsStart(a, l, a.calls[l], p);
      }
    }
  }
}
