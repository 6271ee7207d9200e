/** Whole runs of the shredder: any number of calls, whose two locked sections
    interleave in any order. */
module ShredderRuns {
  import opened Options
  import opened RawBuffers
  import opened Spans
  import opened ShredderSearch

  datatype Event =
    | Stages(number: nat, buffer: StagedBuffer, hasDelimiter: bool)
    | Commits(number: nat)

  ghost predicate Enabled(a: Ledger, event: Event) {
    match event
    case Stages(m, _, _) => m > 0 && m !in a.staged
    case Commits(m) => m in a.calls
  }

  /** One locked section; an event that is not enabled does nothing. */
  ghost function Step(a: Ledger, event: Event): (a': Ledger) {
    if !Enabled(a, event) then a
    else match event
      case Stages(m, b, hasDelimiter) => StageStep(a, m, b, hasDelimiter, Reachable(Staged(a, m, b, hasDelimiter), m))
      case Commits(m) => CommitStep(a, m)
  }

  /** The ledger after a run. */
  ghost function After(first: StagedBuffer, events: seq<Event>): (a: Ledger) {
    if events == [] then Initial(first) else Step(After(first, events[..|events| - 1]), events[|events| - 1])
  }

  lemma Continue(first: StagedBuffer, events: seq<Event>, event: Event)
    ensures After(first, events + [event]) == Step(After(first, events), event)
  {
    assert (events + [event])[..|events|] == events;
  }

  lemma StepKeepsInv(a: Ledger, event: Event)
    requires Inv(a)
    ensures Inv(Step(a, event))
  {
    hide Inv, Exact, Reachable;
    if Enabled(a, event) {
      match event
      case Stages(m, b, hasDelimiter) =>
        StageKeepsInv(a, m, b, hasDelimiter, Reachable(Staged(a, m, b, hasDelimiter), m));
      case Commits(m) =>
        CommitKeepsInv(a, m);
    }
  }

  /** The invariant holds in every reachable state. */
  lemma {:induction false} RunKeepsInv(first: StagedBuffer, events: seq<Event>)
    ensures Inv(After(first, events))
  {
    hide Inv, Step;
    if events == [] {
      InitialInv(first);
    } else {
      RunKeepsInv(first, events[..|events| - 1]);
      StepKeepsInv(After(first, events[..|events| - 1]), events[|events| - 1]);
    }
  }

  // ------------------------------------------------------------ growth along a run

  ghost predicate Grows(a: Ledger, b: Ledger) {
    && a.used <= b.used
    && (a.lost ==> b.lost)
    && forall p, e | Span(a, p, e) :: Span(b, p, e)
  }

  lemma StepGrows(a: Ledger, event: Event)
    requires Inv(a)
    ensures Grows(a, Step(a, event))
  {
    if Enabled(a, event) {
      match event
      case Stages(m, b, hasDelimiter) =>
        var s := Staged(a, m, b, hasDelimiter);
        SameSpans(s, Step(a, event));
        forall p, e | Span(a, p, e) ensures Span(s, p, e) {
          SpanStable(a, m, b, hasDelimiter, p, e);
        }
      case Commits(m) =>
        SameSpans(a, CommitStep(a, m));
    }
  }

  ghost function At(first: StagedBuffer, events: seq<Event>, i: nat): (a: Ledger)
    requires i <= |events|
  {
    After(first, events[..i])
  }

  lemma AtNext(first: StagedBuffer, events: seq<Event>, i: nat)
    requires i < |events|
    ensures At(first, events, i + 1) == Step(At(first, events, i), events[i])
  {
    assert events[..i + 1][..i] == events[..i];
  }

  lemma {:induction false} RunGrows(first: StagedBuffer, events: seq<Event>, i: nat, j: nat)
    requires i <= j <= |events|
    ensures Grows(At(first, events, i), At(first, events, j))
    decreases j - i
  {
    hide Inv, Step, At, Span;
    if i < j {
      RunGrows(first, events, i, j - 1);
      AtNext(first, events, j - 1);
      InvAt(first, events, j - 1);
      StepGrows(At(first, events, j - 1), events[j - 1]);
    }
  }

  lemma InvAt(first: StagedBuffer, events: seq<Event>, i: nat)
    requires i <= |events|
    ensures Inv(At(first, events, i))
  {
    RunKeepsInv(first, events[..i]);
  }

  // --------------------------------------------------- who hands out a spanning tuple

  /** Event `j` stages the last missing buffer of the spanning tuple from `p` to `e`. */
  ghost predicate Completes(first: StagedBuffer, events: seq<Event>, j: nat, p: nat, e: nat) {
    && j < |events| && events[j].Stages?
    && !Span(At(first, events, j), p, e) && Span(At(first, events, j + 1), p, e)
  }

  /** Event `i` hands the spanning tuple from `p` to `e` out. */
  ghost predicate HandsOut(first: StagedBuffer, events: seq<Event>, i: nat, p: nat, e: nat) {
    && i < |events| && events[i].Commits?
    && var a := At(first, events, i);
       var m := events[i].number;
       m in a.calls && Claims(a, m, a.calls[m], p, e)
  }

  lemma ClaimsFacts(a: Ledger, m: nat, p: nat, e: nat)
    requires Inv(a) && m in a.calls && Claims(a, m, a.calls[m], p, e)
    ensures p !in a.used && p in CommitStep(a, m).used && Span(a, p, e) && !(p == 0 && a.lost)
  {
    var c := a.calls[m];
    assert CallOk(a, m, c);
    ClaimIsSpan(a, m, c, p, e);
    assert ClaimsStart(a, m, c, p);
  }

  lemma HandOutMarks(first: StagedBuffer, events: seq<Event>, i: nat, p: nat, e: nat)
    requires HandsOut(first, events, i, p, e)
    ensures var a, a' := At(first, events, i), At(first, events, i + 1);
            p !in a.used && p in a'.used && Span(a, p, e) && !(p == 0 && a.lost)
  {
    hide Inv, At, Span, Claims;
    InvAt(first, events, i);
    AtNext(first, events, i);
    ClaimsFacts(At(first, events, i), events[i].number, p, e);
  }

  /** No spanning tuple is handed out twice. */
  lemma HandedOutOnce(first: StagedBuffer, events: seq<Event>, i: nat, j: nat, p: nat, e: nat, f: nat)
    requires HandsOut(first, events, i, p, e) && HandsOut(first, events, j, p, f)
    ensures i == j && e == f
  {
    hide At, Span, Claims;
    HandOutMarks(first, events, i, p, e);
    HandOutMarks(first, events, j, p, f);
    if i < j {
      RunGrows(first, events, i + 1, j);
    } else if j < i {
      RunGrows(first, events, j + 1, i);
    }
    SpanFromUnique(At(first, events, i), p, e, f);
  }

  /** The claim of a call in flight is the one its search made. */
  lemma {:induction false} CallWasStaged(first: StagedBuffer, events: seq<Event>, i: nat, m: nat) returns (j: nat)
    requires i <= |events| && m in At(first, events, i).calls
    ensures j < i && events[j].Stages? && events[j].number == m && Enabled(At(first, events, j), events[j])
    ensures m in At(first, events, j + 1).calls && At(first, events, j + 1).calls[m] == At(first, events, i).calls[m]
    decreases i
  {
    hide Inv, At, Reachable;
    if i == 0 {
      assert events[..0] == [];
      NoCallAtFirst(first, events);
    } else {
      AtNext(first, events, i - 1);
      var a := At(first, events, i - 1);
      InvAt(first, events, i - 1);
      CalledIsStaged(a, m);
      if events[i - 1].Stages? && events[i - 1].number == m && Enabled(a, events[i - 1]) {
        j := i - 1;
      } else {
        j := CallWasStaged(first, events, i - 1, m);
      }
    }
  }

  lemma NoCallAtFirst(first: StagedBuffer, events: seq<Event>)
    ensures At(first, events, 0).calls == map[]
  {
    assert events[..0] == [];
  }

  lemma CalledIsStaged(a: Ledger, m: nat)
    requires Inv(a)
    ensures m in a.calls ==> m in a.staged
  {
    if m in a.calls {
      assert CallOk(a, m, a.calls[m]);
    }
  }

  /** A spanning tuple is handed out by the call that staged its last buffer. */
  lemma OwnerStagedLast(first: StagedBuffer, events: seq<Event>, i: nat, j: nat, p: nat, e: nat)
    requires HandsOut(first, events, i, p, e) && Completes(first, events, j, p, e)
    ensures j < i && events[j].number == events[i].number
  {
    hide At, Span, Claims, Inv;
    var k := ClaimCompletes(first, events, i, p, e);
    if k < j {
      RunGrows(first, events, k + 1, j);
    } else if j < k {
      RunGrows(first, events, j + 1, k);
    }
  }

  lemma ClaimCompletes(first: StagedBuffer, events: seq<Event>, i: nat, p: nat, e: nat) returns (j: nat)
    requires HandsOut(first, events, i, p, e)
    ensures j < i && events[j].Stages? && events[j].number == events[i].number && Completes(first, events, j, p, e)
  {
    hide At, Span, Inv, Reachable;
    var m := events[i].number;
    j := CallWasStaged(first, events, i, m);
    AtNext(first, events, j);
    InvAt(first, events, j);
    InvAt(first, events, j + 1);
    CalledIsStaged(At(first, events, j + 1), m);
    SameDelimiter(first, events, j + 1, i, m);
    StagedClaim(At(first, events, j), events[j], p, e);
  }

  lemma StagedClaim(a: Ledger, event: Event, p: nat, e: nat)
    requires Inv(a) && event.Stages? && Enabled(a, event)
    requires var a' := Step(a, event);
             event.number in a'.calls && Claims(a', event.number, a'.calls[event.number], p, e)
    ensures !Span(a, p, e) && Span(Step(a, event), p, e)
  {
    hide Span;
    var m, b, h := event.number, event.buffer, event.hasDelimiter;
    CalledIsStaged(a, m);
    var c := Reachable(Staged(a, m, b, h), m);
    StageCompletes(a, m, b, h, c, p, e);
    SameSpans(Staged(a, m, b, h), Step(a, event));
  }

  /** A staged number keeps its kind. */
  lemma {:induction false} SameDelimiter(first: StagedBuffer, events: seq<Event>, i: nat, j: nat, m: nat)
    requires i <= j <= |events| && m in At(first, events, i).staged
    ensures m in At(first, events, j).staged
    ensures (m in At(first, events, i).delims) == (m in At(first, events, j).delims)
    decreases j - i
  {
    hide Inv, At, Reachable;
    if i < j {
      SameDelimiter(first, events, i, j - 1, m);
      AtNext(first, events, j - 1);
    }
  }

  // -------------------------------------------------- every complete tuple has its owner

  /** A used start was handed out at some event of the run. */
  lemma {:induction false} UsedWasHandedOut(first: StagedBuffer, events: seq<Event>, n: nat, p: nat) returns (i: nat, e: nat)
    requires n <= |events| && p in At(first, events, n).used
    ensures i < n && HandsOut(first, events, i, p, e)
    decreases n
  {
    hide Inv, At, Span, Claims, Reachable;
    if n == 0 {
      NothingUsedAtFirst(first, events);
    } else {
      AtNext(first, events, n - 1);
      var a := At(first, events, n - 1);
      InvAt(first, events, n - 1);
      if p in a.used {
        i, e := UsedWasHandedOut(first, events, n - 1, p);
      } else {
        i := n - 1;
        e := NewlyUsed(a, events[n - 1], p);
      }
    }
  }

  lemma NothingUsedAtFirst(first: StagedBuffer, events: seq<Event>)
    ensures At(first, events, 0).used == {}
  {
    assert events[..0] == [];
  }

  lemma NewlyUsed(a: Ledger, event: Event, p: nat) returns (e: nat)
    requires Inv(a) && p !in a.used && p in Step(a, event).used
    ensures event.Commits? && event.number in a.calls && Claims(a, event.number, a.calls[event.number], p, e)
  {
    hide Span, Reachable;
    e := ClaimedSpan(a, event.number, p);
  }

  /** Once every call has committed, each complete spanning tuple was handed
      out, except for a first one that was overlooked. */
  lemma OwnerExists(first: StagedBuffer, events: seq<Event>, p: nat, e: nat)
    requires At(first, events, |events|).calls == map[] && Span(At(first, events, |events|), p, e)
    ensures (exists i: nat :: HandsOut(first, events, i, p, e)) <==> !(p == 0 && At(first, events, |events|).lost)
  {
    hide At, Span, Claims, Inv, Reachable;
    var n := |events|;
    var a := At(first, events, n);
    InvAt(first, events, n);
    QuietUsed(a, p, e);
    if p in a.used {
      var i, f := UsedWasHandedOut(first, events, n, p);
      HandOutMarks(first, events, i, p, f);
      RunGrows(first, events, i, n);
      SpanFromUnique(a, p, e, f);
    }
    if i: nat :| HandsOut(first, events, i, p, e) {
      HandOutMarks(first, events, i, p, e);
      RunGrows(first, events, i + 1, n);
    }
  }

  lemma QuietUsed(a: Ledger, p: nat, e: nat)
    requires Inv(a) && a.calls == map[] && Span(a, p, e)
    ensures p in a.used <==> !(p == 0 && a.lost)
  {
  }

  /** Exactly one owner: in every run a spanning tuple is handed out at most
      once, by the call that staged its last buffer; and once no call is in
      flight a complete one has been, unless it is the overlooked first one. */
  lemma ExactlyOneOwner(first: StagedBuffer, events: seq<Event>, p: nat, e: nat)
    ensures forall i: nat, j: nat | HandsOut(first, events, i, p, e) && HandsOut(first, events, j, p, e) :: i == j
    ensures forall i: nat, j: nat | HandsOut(first, events, i, p, e) && Completes(first, events, j, p, e) ::
              j < i && events[j].number == events[i].number
    ensures var a := After(first, events);
            a.calls == map[] && Span(a, p, e) ==>
              ((exists i: nat :: HandsOut(first, events, i, p, e)) <==> !(p == 0 && a.lost))
  {
    hide *;
    forall i: nat, j: nat | HandsOut(first, events, i, p, e) && HandsOut(first, events, j, p, e) ensures i == j {
      HandedOutOnce(first, events, i, j, p, e, e);
    }
    forall i: nat, j: nat | HandsOut(first, events, i, p, e) && Completes(first, events, j, p, e)
      ensures j < |events| && i < |events| && j < i && events[j].number == events[i].number
    {
      EventsExist(first, events, i, j, p, e);
      OwnerStagedLast(first, events, i, j, p, e);
    }
    AtEnd(first, events);
    if After(first, events).calls == map[] && Span(After(first, events), p, e) {
      OwnerExists(first, events, p, e);
    }
  }

  lemma EventsExist(first: StagedBuffer, events: seq<Event>, i: nat, j: nat, p: nat, e: nat)
    requires HandsOut(first, events, i, p, e) && Completes(first, events, j, p, e)
    ensures i < |events| && j < |events|
  {
  }

  lemma AtEnd(first: StagedBuffer, events: seq<Event>)
    ensures At(first, events, |events|) == After(first, events)
  {
    assert events[..|events|] == events;
  }

  // ------------------------------------------------------------- the overlooked first tuple

  /** Event `j` completes the first tuple with a plain buffer of an earlier bitmap than the one of its end. */
  ghost predicate Overlooks(first: StagedBuffer, events: seq<Event>, j: nat, e: nat) {
    && Completes(first, events, j, 0, e)
    && !events[j].hasDelimiter && events[j].number / 64 < e / 64
  }

  lemma OverlookedStep(a: Ledger, event: Event, e: nat)
    requires Inv(a) && event.Stages? && !Span(a, 0, e) && Span(Step(a, event), 0, e)
    requires !event.hasDelimiter && event.number / 64 < e / 64
    ensures Step(a, event).lost
  {
    hide Span;
    var m, b, h := event.number, event.buffer, event.hasDelimiter;
    var c := Reachable(Staged(a, m, b, h), m);
    SameSpans(Staged(a, m, b, h), Step(a, event));
    StageCompletes(a, m, b, h, c, 0, e);
    CalledIsStaged(a, m);
    assert 0 in a.delims;
  }

  lemma LostStep(a: Ledger, event: Event) returns (e: nat)
    requires Inv(a) && !a.lost && Step(a, event).lost
    ensures event.Stages? && !Span(a, 0, e) && Span(Step(a, event), 0, e)
    ensures !event.hasDelimiter && event.number / 64 < e / 64
  {
    hide Span;
    var m, b, h := event.number, event.buffer, event.hasDelimiter;
    var c := Reachable(Staged(a, m, b, h), m);
    e := c.end.value;
    SameSpans(Staged(a, m, b, h), Step(a, event));
    StageCompletes(a, m, b, h, c, 0, e);
  }

  lemma {:induction false} LostWasOverlooked(first: StagedBuffer, events: seq<Event>, n: nat) returns (j: nat, e: nat)
    requires n <= |events| && At(first, events, n).lost
    ensures j < n && Overlooks(first, events, j, e)
    decreases n
  {
    hide Inv, At, Span, Reachable, Step;
    if n == 0 {
      NothingLostAtFirst(first, events);
    } else {
      AtNext(first, events, n - 1);
      InvAt(first, events, n - 1);
      if At(first, events, n - 1).lost {
        j, e := LostWasOverlooked(first, events, n - 1);
      } else {
        j := n - 1;
        e := LostStep(At(first, events, n - 1), events[n - 1]);
      }
    }
  }

  lemma NothingLostAtFirst(first: StagedBuffer, events: seq<Event>)
    ensures !At(first, events, 0).lost
  {
    assert events[..0] == [];
  }

  /** Exactly when the first tuple goes unreported. */
  lemma LostExactly(first: StagedBuffer, events: seq<Event>)
    ensures After(first, events).lost <==> exists j: nat, e: nat :: Overlooks(first, events, j, e)
    ensures forall e: nat | Span(After(first, events), 0, e) && e < 64 :: !After(first, events).lost
  {
    hide At, Span, Reachable, Step, Inv;
    var n := |events|;
    AtEnd(first, events);
    if After(first, events).lost {
      var j, e := LostWasOverlooked(first, events, n);
      forall f: nat | Span(After(first, events), 0, f) && f < 64 ensures false {
        RunGrows(first, events, j + 1, n);
        SpanFromUnique(After(first, events), 0, e, f);
      }
    }
    if j: nat, e: nat :| Overlooks(first, events, j, e) {
      InvAt(first, events, j);
      AtNext(first, events, j);
      OverlookedStep(At(first, events, j), events[j], e);
      RunGrows(first, events, j + 1, n);
    }
  }

  /** Delimiter 64 has arrived first and is committed, then the plain buffers below `k`. */
  ghost predicate Filling(a: Ledger, k: nat) {
    && a.delims == {0, 64} && a.used == {} && a.calls == map[] && !a.lost
    && forall x: nat :: x in a.staged <==> x < k || x == 64
  }

  lemma EndFirst(first: StagedBuffer, b: StagedBuffer)
    ensures Filling(Step(Step(Initial(first), Stages(64, b, true)), Commits(64)), 1)
  {
    var s := Staged(Initial(first), 64, b, true);
    assert s.staged.Keys == {0, 64};
    var c := Reachable(s, 64);
    assert IsStart(s, 0, 64) ==> Plain(s, 1);
    assert c == Claim(None, None);
  }

  lemma NoEndYet(s: Ledger, k: nat)
    requires s.delims == {0, 64} && 0 < k < 63 && k + 1 !in s.staged
    ensures Reachable(s, k).end.None?
  {
    var c := Reachable(s, k);
    assert c.end.Some? ==> Gap(s, k, c.end.value) && c.end.value == 64;
    assert Gap(s, k, 64) ==> Plain(s, k + 1);
  }

  lemma {:induction false} FillUp(first: StagedBuffer, b: StagedBuffer, events: seq<Event>, k: nat) returns (more: seq<Event>)
    requires 0 < k <= 63 && Filling(After(first, events), k)
    ensures Filling(After(first, more), 63)
    decreases 63 - k
  {
    hide After;
    if k == 63 {
      more := events;
    } else {
      var a := After(first, events);
      var s := Staged(a, k, b, false);
      NoEndYet(s, k);
      Continue(first, events, Stages(k, b, false));
      more := FillUp(first, b, events + [Stages(k, b, false)], k + 1);
    }
  }

  /** If the tuple's end, in the second bitmap, arrives before plain buffer 63, no call hands the first tuple out. */
  lemma FirstTupleIsLost(first: StagedBuffer, b: StagedBuffer) returns (events: seq<Event>)
    ensures var a := After(first, events);
            a.calls == map[] && Span(a, 0, 64) && forall i: nat :: !HandsOut(first, events, i, 0, 64)
  {
    hide After, HandsOut;
    assert After(first, []) == Initial(first) by {
      AtFirst(first);
    }
    Continue(first, [], Stages(64, b, true));
    Continue(first, [] + [Stages(64, b, true)], Commits(64));
    EndFirst(first, b);
    var before := FillUp(first, b, [] + [Stages(64, b, true)] + [Commits(64)], 1);
    Continue(first, before, Stages(63, b, false));
    events := before + [Stages(63, b, false)];
    LastPlain(After(first, before), b);
    ExactlyOneOwner(first, events, 0, 64);
  }

  lemma AtFirst(first: StagedBuffer)
    ensures After(first, []) == Initial(first)
  {
  }

  lemma LastPlain(a: Ledger, b: StagedBuffer)
    requires Filling(a, 63)
    ensures var a' := Step(a, Stages(63, b, false));
            && a'.lost && a'.calls == map[] && Span(a', 0, 64)
            && a'.used == {} && forall x: nat :: x in a'.staged <==> x <= 64
  {
    var s := Staged(a, 63, b, false);
    assert IsStart(s, 0, 63) && IsEnd(s, 63, 64);
    assert Reachable(s, 63) == Claim(Some(0), Some(64));
  }
}
