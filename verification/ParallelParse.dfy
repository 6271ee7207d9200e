/** Parallel parsing of a byte stream that is cut into numbered raw buffers:
    in every interleaving of the shredder's steps the emitted tuples are those
    of the sequential split of the whole stream. */
module ParallelParse {
  import opened Options
  import opened RawBuffers
  import opened Spans
  import opened UseCounts
  import opened ShredderSearch
  import Runs = ShredderRuns
  import opened TupleText
  import opened CsvFormatting

  // -------------------------------------------------------------- the input stream

  /** Buffer `x` of a stream with texts `w[0], w[1], …`: an artificial delimiter,
      the buffers `1..|w|`, and the artificial delimiter of the flush. */
  function BufferOf(d: char, w: seq<string>, x: nat): (b: StagedBuffer)
    requires x <= |w| + 1
  {
    if x == 0 then StagedBuffer(None, 1, 0, 0)
    else if x <= |w| then Describe(d, x, w[x - 1])
    else StagedBuffer(None, 0, 0, 0)
  }

  predicate HasDelimiter(d: char, w: seq<string>, x: nat)
    requires x <= |w| + 1
  {
    x == 0 || x == |w| + 1 || d in w[x - 1]
  }

  lemma BufferDelimited(d: char, w: seq<string>, x: nat)
    requires x <= |w| + 1 && HasDelimiter(d, w, x)
    ensures Delimited(d, BufferOf(d, w, x))
  {
    if 0 < x <= |w| {
      DescribeDelimited(d, x, w[x - 1]);
    }
  }

  ghost predicate FromStream(d: char, w: seq<string>, a: Ledger) {
    && (forall x | x in a.staged ::
          x <= |w| + 1 && a.staged[x] == BufferOf(d, w, x) && (x in a.delims) == HasDelimiter(d, w, x))
    && a.delims <= a.staged.Keys
  }

  function Bytes(w: seq<string>, k: nat): (s: string)
    requires k <= |w|
  {
    if k == 0 then "" else Bytes(w, k - 1) + w[k - 1]
  }

  // ---------------------------------------------------- the tuples by where they end

  /** The text that is still open behind buffer `k`. */
  function Carry(d: char, w: seq<string>, k: nat): (s: string)
    requires k <= |w|
  {
    if HasDelimiter(d, w, k) then Trailing(BufferOf(d, w, k))
    else Carry(d, w, k - 1) + w[k - 1]
  }

  /** The text of the tuple that ends at the first delimiter of buffer `x`. */
  function EndText(d: char, w: seq<string>, x: nat): (s: string)
    requires 0 < x <= |w| + 1
  {
    Carry(d, w, x - 1) + Leading(BufferOf(d, w, x))
  }

  function InnerOfBuffer(d: char, w: seq<string>, x: nat): (r: seq<string>)
    requires x <= |w| + 1
  {
    Inner(d, BufferOf(d, w, x))
  }

  /** The tuples that end in the buffers `1..k`, in stream order. */
  function TuplesUpTo(d: char, w: seq<string>, k: nat): (r: seq<string>)
    requires k <= |w|
  {
    if k == 0 then []
    else if !HasDelimiter(d, w, k) then TuplesUpTo(d, w, k - 1)
    else TuplesUpTo(d, w, k - 1) + [EndText(d, w, k)] + InnerOfBuffer(d, w, k)
  }

  /** The pieces of a buffer with a delimiter. */
  lemma SplitDelimited(d: char, b: StagedBuffer)
    requires b.buffer.Some? && Delimited(d, b)
    ensures Split(d, Text(b)) == [Leading(b)] + Inner(d, b) + [Trailing(b)]
  {
    hide Split;
    var s, i, j := Text(b), b.offsetOfFirstDelimiter, b.offsetOfLastDelimiter;
    SplitFirst(d, s, i);
    var t := s[i + 1..];
    if i == j {
      SplitPlain(d, t);
    } else {
      assert t[j - i - 1] == d && t[j - i..] == s[j + 1..];
      SplitLast(d, t, j - i - 1);
    }
  }

  lemma MergePieces(a: seq<string>, open: string, lead: string, inner: seq<string>, trail: string)
    ensures Merge(a + [open], [lead] + inner + [trail]) == a + [open + lead] + inner + [trail]
    ensures Merge(a + [open], [lead]) == a + [open + lead]
  {
    assert ([lead] + inner + [trail])[1..] == inner + [trail];
  }

  /** The sequential split of the first `k` buffers. */
  lemma {:induction false} SplitOfPrefix(d: char, w: seq<string>, k: nat)
    requires k <= |w|
    ensures Split(d, Bytes(w, k)) == TuplesUpTo(d, w, k) + [Carry(d, w, k)]
  {
    hide Merge, Delimited, Leading, Inner, Describe;
    if k > 0 {
      var b := BufferOf(d, w, k);
      SplitOfPrefix(d, w, k - 1);
      SplitConcat(d, Bytes(w, k - 1), w[k - 1]);
      TextOfBuffer(d, w, k);
      if HasDelimiter(d, w, k) {
        BufferDelimited(d, w, k);
        SplitDelimited(d, b);
        MergePieces(TuplesUpTo(d, w, k - 1), Carry(d, w, k - 1), Leading(b), Inner(d, b), Trailing(b));
      } else {
        SplitPlain(d, w[k - 1]);
        MergePieces(TuplesUpTo(d, w, k - 1), Carry(d, w, k - 1), w[k - 1], [], "");
      }
    }
  }

  lemma TextOfBuffer(d: char, w: seq<string>, x: nat)
    requires 0 < x <= |w|
    ensures var b := BufferOf(d, w, x);
            b.buffer == Some(RawBuffer(x, w[x - 1])) && Text(b) == w[x - 1]
  {
  }

  // ------------------------------------------------------------- what was emitted

  function If(b: bool, tuples: multiset<string>): (r: multiset<string>) {
    if b then tuples else multiset{}
  }

  /** The tuples that were emitted and end in buffer `x`. */
  ghost function EmittedIn(d: char, w: seq<string>, a: Ledger, x: nat): (r: multiset<string>)
    requires x <= |w| + 1
  {
    if x == 0 || !HasDelimiter(d, w, x) then multiset{}
    else
      If(x in a.done, multiset(InnerOfBuffer(d, w, x))) + If(EndUsed(a, x), multiset{EndText(d, w, x)})
  }

  ghost function Emitted(d: char, w: seq<string>, a: Ledger, k: nat): (r: multiset<string>)
    requires k <= |w| + 2
  {
    if k == 0 then multiset{} else Emitted(d, w, a, k - 1) + EmittedIn(d, w, a, k - 1)
  }

  /** What the call of `m` emits for its own buffer. */
  function OwnTuples(d: char, w: seq<string>, m: nat, c: Claim): (r: multiset<string>)
    requires m <= |w| + 1
  {
    if m == 0 || !HasDelimiter(d, w, m) then multiset{}
    else
      multiset(InnerOfBuffer(d, w, m)) + If(c.start.Some?, multiset{EndText(d, w, m)})
  }

  /** What it emits for the tuple that ends in a later buffer. */
  function EndTuple(d: char, w: seq<string>, c: Claim): (r: multiset<string>) {
    if c.end.Some? && 0 < c.end.value <= |w| + 1 && HasDelimiter(d, w, c.end.value)
    then multiset{EndText(d, w, c.end.value)} else multiset{}
  }

  function CallTuples(d: char, w: seq<string>, m: nat, c: Claim): (r: multiset<string>)
    requires m <= |w| + 1
  {
    OwnTuples(d, w, m, c) + EndTuple(d, w, c)
  }

  lemma {:induction false} StageEmits(d: char, w: seq<string>, a: Ledger, m: nat, b: StagedBuffer, hasDelimiter: bool, c: Claim, k: nat)
    requires Inv(a) && m !in a.staged && k <= |w| + 2
    ensures Emitted(d, w, StageStep(a, m, b, hasDelimiter, c), k) == Emitted(d, w, a, k)
  {
    hide Inv, EmittedIn, EndUsed;
    if k > 0 {
      InvParts(a);
      StageEmits(d, w, a, m, b, hasDelimiter, c, k - 1);
      StageKeepsEndUsed(a, m, b, hasDelimiter, k - 1);
      SameEndUsed(Staged(a, m, b, hasDelimiter), StageStep(a, m, b, hasDelimiter, c), k - 1);
      SameEmitted(d, w, a, StageStep(a, m, b, hasDelimiter, c), k - 1);
    }
  }

  lemma InvParts(a: Ledger)
    requires Inv(a)
    ensures Shape(a) && UsedAreComplete(a)
  {
  }

  lemma SameEmitted(d: char, w: seq<string>, s: Ledger, t: Ledger, x: nat)
    requires s.done == t.done && EndUsed(s, x) == EndUsed(t, x) && x <= |w| + 1
    ensures EmittedIn(d, w, s, x) == EmittedIn(d, w, t, x)
  {
  }

  lemma SameEndUsed(s: Ledger, t: Ledger, x: nat)
    requires s.staged == t.staged && s.delims == t.delims && s.used == t.used
    ensures EndUsed(s, x) == EndUsed(t, x)
  {
    SameSpans(s, t);
  }

  lemma Regroup(e: multiset<string>, i: multiset<string>, o: multiset<string>, t: multiset<string>,
                o1: bool, o2: bool, t1: bool, t2: bool)
    requires !(o1 && o2) && !(t1 && t2)
    ensures (e + If(o1, o) + If(t1, t)) + (i + If(o2, o) + If(t2, t)) == (e + i) + If(o1 || o2, o) + If(t1 || t2, t)
  {
  }

  lemma CommitEmitsIn(d: char, w: seq<string>, a: Ledger, m: nat, x: nat)
    requires Inv(a) && FromStream(d, w, a) && m in a.calls && x <= |w| + 1
    ensures EmittedIn(d, w, CommitStep(a, m), x) ==
            EmittedIn(d, w, a, x) + If(x == m, OwnTuples(d, w, m, a.calls[m]))
                                  + If(a.calls[m].end == Some(x), EndTuple(d, w, a.calls[m]))
  {
    hide Inv, EndUsed, EmittedIn, If, OwnTuples, EndTuple;
    CommitEnds(a, m, x);
    assert (m in a.delims) == HasDelimiter(d, w, m);
    EmittedInAfter(d, w, a, CommitStep(a, m), m, a.calls[m], x);
  }

  lemma EmittedInAfter(d: char, w: seq<string>, a: Ledger, a': Ledger, m: nat, c: Claim, x: nat)
    requires x <= |w| + 1 && m <= |w| + 1 && !(x == m && (x in a.done || c.end == Some(x)))
    requires x > 0 && HasDelimiter(d, w, x) ==>
      && (x in a'.done) == (x in a.done || x == m)
      && EndUsed(a', x) == (EndUsed(a, x) || (x == m && c.start.Some?) || c.end == Some(x))
      && !(EndUsed(a, x) && ((x == m && c.start.Some?) || c.end == Some(x)))
    ensures EmittedIn(d, w, a', x) ==
            EmittedIn(d, w, a, x) + If(x == m, OwnTuples(d, w, m, c)) + If(c.end == Some(x), EndTuple(d, w, c))
  {
    hide EndUsed, InnerOfBuffer, EndText;
    if x > 0 && HasDelimiter(d, w, x) {
      RegroupIn(multiset(InnerOfBuffer(d, w, x)), multiset{EndText(d, w, x)},
                x in a.done, EndUsed(a, x), x == m, c.start.Some?, c.end == Some(x));
    }
  }

  lemma RegroupIn(inner: multiset<string>, end: multiset<string>, done: bool, used: bool, own: bool, start: bool, last: bool)
    requires !(done && own) && !(used && ((own && start) || last)) && !(own && last)
    ensures If(done || own, inner) + If(used || (own && start) || last, end)
         == If(done, inner) + If(used, end) + If(own, inner + If(start, end)) + If(last, end)
  {
  }

  /** A commit adds exactly the tuples of its call. */
  lemma {:induction false} CommitEmits(d: char, w: seq<string>, a: Ledger, m: nat, k: nat)
    requires Inv(a) && FromStream(d, w, a) && m in a.calls && m <= |w| + 1 && k <= |w| + 2
    ensures var c := a.calls[m];
            Emitted(d, w, CommitStep(a, m), k) == Emitted(d, w, a, k)
              + If(m < k, OwnTuples(d, w, m, c)) + If(c.end.Some? && c.end.value < k, EndTuple(d, w, c))
  {
    hide Inv, FromStream, EmittedIn, OwnTuples, EndTuple, CommitStep;
    if k > 0 {
      CommitEmits(d, w, a, m, k - 1);
      CommitEmitsIn(d, w, a, m, k - 1);
      CommitEmitsStep(d, w, a, CommitStep(a, m), m, a.calls[m], k);
    }
  }

  lemma CommitEmitsStep(d: char, w: seq<string>, a: Ledger, a': Ledger, m: nat, c: Claim, k: nat)
    requires 0 < k <= |w| + 2 && m <= |w| + 1
    requires Emitted(d, w, a', k - 1) == Emitted(d, w, a, k - 1)
               + If(m < k - 1, OwnTuples(d, w, m, c)) + If(c.end.Some? && c.end.value < k - 1, EndTuple(d, w, c))
    requires EmittedIn(d, w, a', k - 1) == EmittedIn(d, w, a, k - 1)
               + If(k - 1 == m, OwnTuples(d, w, m, c)) + If(c.end == Some(k - 1), EndTuple(d, w, c))
    ensures Emitted(d, w, a', k) == Emitted(d, w, a, k)
               + If(m < k, OwnTuples(d, w, m, c)) + If(c.end.Some? && c.end.value < k, EndTuple(d, w, c))
  {
    hide EmittedIn, OwnTuples, EndTuple, If;
    Regroup(Emitted(d, w, a, k - 1), EmittedIn(d, w, a, k - 1), OwnTuples(d, w, m, c), EndTuple(d, w, c),
            m < k - 1, k - 1 == m, c.end.Some? && c.end.value < k - 1, c.end == Some(k - 1));
  }

  // ------------------------------------------------------------ when all calls are done

  /** All of the stream's buffers were staged, no call is in flight, and the flush has not begun. */
  ghost predicate Quiet(w: seq<string>, a: Ledger) {
    a.calls == map[] && |w| + 1 !in a.staged && forall x | 0 <= x <= |w| :: x in a.staged
  }

  /** Every delimiter's own tuples and the tuple that ends in it were emitted, but for a lost first one. */
  lemma QuietDelimiter(a: Ledger, x: nat, e: nat)
    requires Inv(a) && a.calls == map[] && x in a.delims && x > 0 && forall y | 0 <= y < x :: y in a.staged
    requires a.lost ==> Span(a, 0, e)
    ensures x in a.done
    ensures EndUsed(a, x) == !(a.lost && x == e)
  {
    var p := NearestDelimiter(a, x);
    assert Span(a, p, x);
    if a.lost && p == 0 {
      SpanFromUnique(a, 0, x, e);
      if EndUsed(a, x) {
        var q: nat :| q in a.used && Span(a, q, x);
        SpanToUnique(a, 0, q, x);
      }
    } else {
      assert p in a.used;
      if a.lost && x == e {
        SpanToUnique(a, 0, p, x);
      }
    }
  }

  lemma QuietIn(d: char, w: seq<string>, a: Ledger, x: nat, e: nat)
    requires Inv(a) && FromStream(d, w, a) && Quiet(w, a) && 0 < x <= |w| && HasDelimiter(d, w, x)
    requires a.lost ==> Span(a, 0, e)
    ensures EmittedIn(d, w, a, x) == multiset(InnerOfBuffer(d, w, x)) + If(!(a.lost && x == e), multiset{EndText(d, w, x)})
  {
    hide Inv, EndUsed, InnerOfBuffer, EndText;
    QuietDelimiter(a, x, e);
  }

  /** The lost tuple, if its end is not behind buffer `k`. */
  function LostTuple(d: char, w: seq<string>, lost: bool, e: nat, k: nat): (r: multiset<string>) {
    if lost && 0 < e <= k && e <= |w| && HasDelimiter(d, w, e) then multiset{EndText(d, w, e)} else multiset{}
  }

  lemma {:induction false} QuietEmits(d: char, w: seq<string>, a: Ledger, k: nat, e: nat)
    requires Inv(a) && FromStream(d, w, a) && Quiet(w, a) && k <= |w|
    requires a.lost ==> Span(a, 0, e)
    ensures multiset(TuplesUpTo(d, w, k)) == Emitted(d, w, a, k + 1) + LostTuple(d, w, a.lost, e, k)
  {
    hide Inv, FromStream, Quiet, InnerOfBuffer, EndText, EmittedIn, If, Carry;
    if k == 0 {
      assert Emitted(d, w, a, 1) == Emitted(d, w, a, 0) + EmittedIn(d, w, a, 0);
      NothingInFirst(d, w, a);
    } else {
      QuietEmits(d, w, a, k - 1, e);
      if HasDelimiter(d, w, k) {
        QuietIn(d, w, a, k, e);
        LostStep(d, w, a.lost, e, k);
        QuietStep(TuplesUpTo(d, w, k - 1), EndText(d, w, k), InnerOfBuffer(d, w, k), a.lost && k == e,
                  Emitted(d, w, a, k), LostTuple(d, w, a.lost, e, k - 1));
      } else {
        NothingInPlain(d, w, a, k);
        LostStep(d, w, a.lost, e, k);
      }
    }
  }

  lemma NothingInFirst(d: char, w: seq<string>, a: Ledger)
    ensures EmittedIn(d, w, a, 0) == multiset{}
  {
  }

  lemma NothingInPlain(d: char, w: seq<string>, a: Ledger, x: nat)
    requires x <= |w| && !HasDelimiter(d, w, x)
    ensures EmittedIn(d, w, a, x) == multiset{}
  {
  }

  lemma LostStep(d: char, w: seq<string>, lost: bool, e: nat, k: nat)
    requires 0 < k <= |w|
    ensures LostTuple(d, w, lost, e, k) == LostTuple(d, w, lost, e, k - 1)
              + (if HasDelimiter(d, w, k) then If(lost && k == e, multiset{EndText(d, w, k)}) else multiset{})
  {
    hide EndText;
  }

  lemma QuietStep(tuples: seq<string>, end: string, inner: seq<string>, isLost: bool,
                  emitted: multiset<string>, lost: multiset<string>)
    requires multiset(tuples) == emitted + lost
    ensures multiset(tuples + [end] + inner)
         == (emitted + (multiset(inner) + If(!isLost, multiset{end}))) + (lost + If(isLost, multiset{end}))
  {
    assert multiset(tuples + [end] + inner) == multiset(tuples) + multiset{end} + multiset(inner);
  }

  // ----------------------------------------------------------------- the result

  /** The tuples of a text, without an empty last piece. */
  function Tuples(d: char, s: string): (r: seq<string>) {
    var pieces := Split(d, s);
    if pieces[|pieces| - 1] == "" then pieces[..|pieces| - 1] else pieces
  }

  /** What the flush emits. */
  function FlushTuple(text: string): (r: multiset<string>) {
    if text == "" then multiset{} else multiset{text}
  }

  /** The first tuple, if it was lost. */
  ghost function Missing(d: char, w: seq<string>, a: Ledger): (r: multiset<string>) {
    If(a.lost, multiset{Split(d, Bytes(w, |w|))[0]})
  }

  /** The lost tuple is the first piece of the stream. */
  lemma {:induction false} FirstTuple(d: char, w: seq<string>, e: nat, k: nat)
    requires 0 < e <= |w| && HasDelimiter(d, w, e) && forall x | 0 < x < e :: !HasDelimiter(d, w, x)
    requires k <= |w|
    ensures if k < e then TuplesUpTo(d, w, k) == []
            else |TuplesUpTo(d, w, k)| > 0 && TuplesUpTo(d, w, k)[0] == EndText(d, w, e)
  {
    hide EndText, InnerOfBuffer;
    if k > 0 {
      FirstTuple(d, w, e, k - 1);
    }
  }

  lemma NothingInLast(d: char, w: seq<string>, a: Ledger)
    requires Inv(a) && |w| + 1 !in a.staged
    ensures EmittedIn(d, w, a, |w| + 1) == multiset{}
  {
    assert !EndUsed(a, |w| + 1);
  }

  lemma LostFirst(d: char, w: seq<string>, a: Ledger, e: nat)
    requires FromStream(d, w, a) && Quiet(w, a) && a.lost && Span(a, 0, e)
    ensures 0 < e <= |w| && HasDelimiter(d, w, e)
    ensures Split(d, Bytes(w, |w|))[0] == EndText(d, w, e)
  {
    hide Split, EndText;
    forall x | 0 < x < e ensures !HasDelimiter(d, w, x) {
      InGap(a, 0, e, x);
    }
    FirstTuple(d, w, e, |w|);
    SplitOfPrefix(d, w, |w|);
  }

  lemma MissingIsLost(d: char, w: seq<string>, a: Ledger) returns (e: nat)
    requires Inv(a) && FromStream(d, w, a) && Quiet(w, a)
    ensures a.lost ==> Span(a, 0, e)
    ensures LostTuple(d, w, a.lost, e, |w|) == Missing(d, w, a)
  {
    hide Split, EndText, FromStream, Quiet;
    e := 0;
    if a.lost {
      e :| Span(a, 0, e);
      LostFirst(d, w, a, e);
    }
  }

  lemma TuplesOfStream(d: char, w: seq<string>)
    ensures multiset(Tuples(d, Bytes(w, |w|))) == multiset(TuplesUpTo(d, w, |w|)) + FlushTuple(Carry(d, w, |w|))
  {
    hide Split;
    SplitOfPrefix(d, w, |w|);
  }

  /** When all calls are done, the emitted tuples, the one the flush adds and
      the one that was lost are the tuples of the stream. */
  lemma QuietResult(d: char, w: seq<string>, a: Ledger)
    requires Inv(a) && FromStream(d, w, a) && Quiet(w, a)
    ensures Emitted(d, w, a, |w| + 2) + FlushTuple(Carry(d, w, |w|)) + Missing(d, w, a)
         == multiset(Tuples(d, Bytes(w, |w|)))
  {
    hide Inv, FromStream, Quiet, EmittedIn, Tuples, Carry, TuplesUpTo, FlushTuple, Missing, LostTuple;
    var e := MissingIsLost(d, w, a);
    QuietEmits(d, w, a, |w|, e);
    QuietStaged(w, a);
    NothingInLast(d, w, a);
    TuplesOfStream(d, w);
  }

  lemma QuietStaged(w: seq<string>, a: Ledger)
    requires Quiet(w, a)
    ensures |w| + 1 !in a.staged
  {
  }

  // ------------------------------------------------------------------ over every run

  /** The events stage buffers of the stream. */
  ghost predicate OfStream(d: char, w: seq<string>, event: Runs.Event) {
    event.Stages? ==>
      && 0 < event.number <= |w|
      && event.buffer == BufferOf(d, w, event.number)
      && event.hasDelimiter == HasDelimiter(d, w, event.number)
  }

  /** The tuples that one locked section leads to. */
  ghost function StepOutput(d: char, w: seq<string>, a: Ledger, event: Runs.Event): (r: multiset<string>) {
    if event.Commits? && event.number in a.calls && event.number <= |w| + 1
    then CallTuples(d, w, event.number, a.calls[event.number]) else multiset{}
  }

  ghost function RunOutput(d: char, w: seq<string>, events: seq<Runs.Event>): (r: multiset<string>) {
    if events == [] then multiset{}
    else
      var before := events[..|events| - 1];
      RunOutput(d, w, before) + StepOutput(d, w, Runs.After(BufferOf(d, w, 0), before), events[|events| - 1])
  }

  lemma StepKeepsStream(d: char, w: seq<string>, a: Ledger, event: Runs.Event)
    requires FromStream(d, w, a) && OfStream(d, w, event)
    ensures FromStream(d, w, Runs.Step(a, event))
  {
    hide BufferOf, HasDelimiter, Reachable;
  }

  lemma CommitEmitsAll(d: char, w: seq<string>, a: Ledger, m: nat)
    requires Inv(a) && FromStream(d, w, a) && m in a.calls
    ensures m <= |w| + 1
    ensures Emitted(d, w, CommitStep(a, m), |w| + 2) == Emitted(d, w, a, |w| + 2) + CallTuples(d, w, m, a.calls[m])
  {
    hide OwnTuples, EndText, Emitted;
    assert CallOk(a, m, a.calls[m]);
    CommitEmits(d, w, a, m, |w| + 2);
  }

  lemma StepEmits(d: char, w: seq<string>, a: Ledger, event: Runs.Event)
    requires Inv(a) && FromStream(d, w, a)
    ensures Emitted(d, w, Runs.Step(a, event), |w| + 2) == Emitted(d, w, a, |w| + 2) + StepOutput(d, w, a, event)
  {
    hide Inv, FromStream, CallTuples, Emitted, Reachable;
    if Runs.Enabled(a, event) {
      match event
      case Stages(m, b, h) =>
        StageEmits(d, w, a, m, b, h, Reachable(Staged(a, m, b, h), m), |w| + 2);
      case Commits(m) =>
        CommitEmitsAll(d, w, a, m);
    }
  }

  lemma {:induction false} RunEmits(d: char, w: seq<string>, events: seq<Runs.Event>)
    requires forall event | event in events :: OfStream(d, w, event)
    ensures FromStream(d, w, Runs.After(BufferOf(d, w, 0), events))
    ensures RunOutput(d, w, events) == Emitted(d, w, Runs.After(BufferOf(d, w, 0), events), |w| + 2)
  {
    hide FromStream, Emitted, StepOutput, Runs.Step, OfStream;
    if events == [] {
      NothingAtFirst(d, w, |w| + 2);
    } else {
      var before, event := events[..|events| - 1], events[|events| - 1];
      var a := Runs.After(BufferOf(d, w, 0), before);
      RunEmits(d, w, before);
      Runs.RunKeepsInv(BufferOf(d, w, 0), before);
      StepKeepsStream(d, w, a, event);
      StepEmits(d, w, a, event);
    }
  }

  lemma {:induction false} NothingAtFirst(d: char, w: seq<string>, k: nat)
    requires k <= |w| + 2
    ensures FromStream(d, w, Initial(BufferOf(d, w, 0)))
    ensures Emitted(d, w, Initial(BufferOf(d, w, 0)), k) == multiset{}
  {
    if k > 0 {
      NothingAtFirst(d, w, k - 1);
    }
  }

  /** Parallel parse equals sequential split: for every cut of a stream into
      buffers and every interleaving of the calls, followed by the flush. */
  lemma ParallelEqualsSequential(d: char, w: seq<string>, events: seq<Runs.Event>)
    requires forall event | event in events :: OfStream(d, w, event)
    requires Quiet(w, Runs.After(BufferOf(d, w, 0), events))
    ensures RunOutput(d, w, events) + FlushTuple(Carry(d, w, |w|)) + Missing(d, w, Runs.After(BufferOf(d, w, 0), events))
         == multiset(Tuples(d, Bytes(w, |w|)))
  {
    hide *;
    RunEmits(d, w, events);
    Runs.RunKeepsInv(BufferOf(d, w, 0), events);
    QuietResult(d, w, Runs.After(BufferOf(d, w, 0), events));
  }

  /** Nothing is missing if the first delimiter lies in the first bitmap. */
  lemma FirstDelimiterInFirstBitmap(d: char, w: seq<string>, events: seq<Runs.Event>, e: nat)
    requires forall event | event in events :: OfStream(d, w, event)
    requires Quiet(w, Runs.After(BufferOf(d, w, 0), events))
    requires 0 < e <= |w| && e < 64 && HasDelimiter(d, w, e) && forall x | 0 < x < e :: !HasDelimiter(d, w, x)
    ensures RunOutput(d, w, events) + FlushTuple(Carry(d, w, |w|)) == multiset(Tuples(d, Bytes(w, |w|)))
  {
    hide Tuples, Bytes, RunOutput, Carry, Runs.After;
    var a := Runs.After(BufferOf(d, w, 0), events);
    ParallelEqualsSequential(d, w, events);
    Runs.LostExactly(BufferOf(d, w, 0), events);
    RunEmits(d, w, events);
    Runs.RunKeepsInv(BufferOf(d, w, 0), events);
    assert Span(a, 0, e);
  }
}
