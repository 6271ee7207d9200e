/** The parser as workers run it: the shredder's two locked sections around the
    formatter, tied to the stream's sequential split. */
module ParallelParsing {
  import opened Options
  import opened RawBuffers
  import opened Bits
  import opened RingArithmetic
  import opened Spans
  import opened UseCounts
  import opened ShredderSearch
  import opened SequenceShredding
  import opened TupleText
  import opened CsvFormatting
  import opened ParallelParse
  import opened ChunkSequence

  // ----------------------------------------------- handed-out buffers are stream text

  lemma StagedBuffersOfStream(d: char, w: seq<string>, a: Ledger, buffers: seq<StagedBuffer>, first: nat, next: nat, x: nat)
    requires FromStream(d, w, a) && AreStaged(buffers, a, first, next) && first <= x < next
    ensures x <= |w| + 1 && buffers[x - first] == BufferOf(d, w, x) && (x in a.delims) == HasDelimiter(d, w, x)
    ensures x in a.delims ==> Delimited(d, buffers[x - first])
  {
    if x in a.delims {
      BufferDelimited(d, w, x);
    }
  }

  /** The text behind `p` runs on through plain buffers. */
  lemma {:induction false} CarryGap(d: char, w: seq<string>, a: Ledger, buffers: seq<StagedBuffer>, first: nat, next: nat,
                                    p: nat, e: nat, k: nat)
    requires FromStream(d, w, a) && AreStaged(buffers, a, first, next) && first <= p < e < next && Span(a, p, e)
    requires p <= k < e && k <= |w|
    ensures Carry(d, w, k) == Trailing(buffers[p - first]) + Concat(buffers[p - first + 1..k - first + 1])
    decreases k
  {
    hide FromStream, Delimited, Concat, BufferOf, HasDelimiter, AreStaged, Carry, Trailing, Gap;
    AreStagedLength(buffers, a, first, next);
    StagedBuffersOfStream(d, w, a, buffers, first, next, p);
    StagedBuffersOfStream(d, w, a, buffers, first, next, k);
    if k == p {
      ConcatNothing(buffers, k - first + 1);
      CarryAtDelimiter(d, w, p);
    } else {
      InGap(a, p, e, k);
      CarryGap(d, w, a, buffers, first, next, p, e, k - 1);
      ConcatExtend(buffers, p - first + 1, k - first);
      CarryAtPlain(d, w, k);
    }
  }

  lemma CarryAtDelimiter(d: char, w: seq<string>, k: nat)
    requires k <= |w| && HasDelimiter(d, w, k)
    ensures Carry(d, w, k) == Trailing(BufferOf(d, w, k))
  {
  }

  lemma CarryAtPlain(d: char, w: seq<string>, k: nat)
    requires k <= |w| && !HasDelimiter(d, w, k)
    ensures k > 0 && Carry(d, w, k) == Carry(d, w, k - 1) + Text(BufferOf(d, w, k))
  {
    TextOfBuffer(d, w, k);
  }

  lemma CountTuples(lead: seq<string>, inner: seq<string>, trail: seq<string>)
    ensures multiset(lead + inner + trail) == multiset(inner) + multiset(lead) + multiset(trail)
  {
  }

  /** The glued text of a spanning tuple is the stream's text up to its end. */
  lemma SpanTextOfStream(d: char, w: seq<string>, a: Ledger, buffers: seq<StagedBuffer>, first: nat, next: nat, p: nat, e: nat)
    requires FromStream(d, w, a) && AreStaged(buffers, a, first, next) && first <= p < e < next && Span(a, p, e)
    ensures e <= |w| + 1 && HasDelimiter(d, w, e)
    ensures Delimited(d, buffers[p - first]) && Delimited(d, buffers[e - first])
    ensures SpanText(buffers, p - first, e - first) == EndText(d, w, e)
  {
    hide FromStream, Concat, Describe, Carry;
    StagedBuffersOfStream(d, w, a, buffers, first, next, p);
    StagedBuffersOfStream(d, w, a, buffers, first, next, e);
    CarryGap(d, w, a, buffers, first, next, p, e, e - 1);
  }

  /** The tuples of the call of `m`, in the order of the stream. */
  function TuplesInOrder(d: char, w: seq<string>, m: nat, c: Claim): (r: seq<string>)
    requires 0 < m <= |w| + 1 && HasDelimiter(d, w, m)
    requires c.end.Some? ==> 0 < c.end.value <= |w| + 1 && HasDelimiter(d, w, c.end.value)
    ensures multiset(r) == CallTuples(d, w, m, c)
  {
    var lead := if c.start.Some? then [EndText(d, w, m)] else [];
    var trail := if c.end.Some? then [EndText(d, w, c.end.value)] else [];
    CountTuples(lead, InnerOfBuffer(d, w, m), trail);
    lead + InnerOfBuffer(d, w, m) + trail
  }

  /** The ends of a call's range hold delimiters. */
  lemma CallEnds(d: char, w: seq<string>, a: Ledger, m: nat, buffers: seq<StagedBuffer>)
    requires FromStream(d, w, a) && CallsOk(a) && m in a.calls && m in a.delims
    requires AreStaged(buffers, a, First(m, a.calls[m]), Last(m, a.calls[m]) + 1)
    ensures var first, last := First(m, a.calls[m]), Last(m, a.calls[m]);
            && first <= m <= last <= |w| + 1 && m > 0 && |buffers| == last + 1 - first
            && HasDelimiter(d, w, m) && HasDelimiter(d, w, last)
            && Delimited(d, buffers[0]) && Delimited(d, buffers[m - first]) && Delimited(d, buffers[last - first])
            && Inner(d, buffers[m - first]) == InnerOfBuffer(d, w, m)
  {
    hide FromStream, Delimited, Inner, AreStaged, CallsOk, Gap, BufferOf, HasDelimiter;
    var first, next := First(m, a.calls[m]), Last(m, a.calls[m]) + 1;
    CalledIsStaged(a, m);
    AreStagedLength(buffers, a, first, next);
    StagedBuffersOfStream(d, w, a, buffers, first, next, first);
    StagedBuffersOfStream(d, w, a, buffers, first, next, m);
    StagedBuffersOfStream(d, w, a, buffers, first, next, next - 1);
  }

  /** What the formatter makes of a call's buffers is what the call owes the stream. */
  lemma DelimiterCallTuples(d: char, w: seq<string>, a: Ledger, m: nat, buffers: seq<StagedBuffer>)
    requires FromStream(d, w, a) && CallsOk(a) && m in a.calls && m in a.delims
    requires AreStaged(buffers, a, First(m, a.calls[m]), Last(m, a.calls[m]) + 1)
    ensures First(m, a.calls[m]) <= m <= Last(m, a.calls[m]) && m <= |w| + 1
    ensures var index := m - First(m, a.calls[m]);
            && index < |buffers| && Delimited(d, buffers[index])
            && Delimited(d, buffers[0]) && Delimited(d, buffers[|buffers| - 1])
            && multiset(TuplesOf(d, buffers, index)) == CallTuples(d, w, m, a.calls[m])
  {
    hide *;
    CallEnds(d, w, a, m, buffers);
    CallSpanTexts(d, w, a, m, buffers);
    SameTuples(d, w, a.calls[m], m, buffers);
  }

  lemma SameTuples(d: char, w: seq<string>, c: Claim, m: nat, buffers: seq<StagedBuffer>)
    requires var first, last := First(m, c), Last(m, c);
             && first <= m <= last <= |w| + 1 && m > 0 && |buffers| == last + 1 - first
             && HasDelimiter(d, w, m) && HasDelimiter(d, w, last)
             && Inner(d, buffers[m - first]) == InnerOfBuffer(d, w, m)
             && (if c.start.Some? then first < m && SpanText(buffers, 0, m - first) == EndText(d, w, m) else first == m)
             && (if c.end.Some? then m < last && SpanText(buffers, m - first, last - first) == EndText(d, w, last)
                 else last == m)
    ensures multiset(TuplesOf(d, buffers, m - First(m, c))) == CallTuples(d, w, m, c)
  {
    hide SpanText, Inner, EndText, CallTuples, InnerOfBuffer, HasDelimiter;
    assert TuplesOf(d, buffers, m - First(m, c)) == TuplesInOrder(d, w, m, c);
  }

  lemma CallSpanTexts(d: char, w: seq<string>, a: Ledger, m: nat, buffers: seq<StagedBuffer>)
    requires FromStream(d, w, a) && CallsOk(a) && m in a.calls && m in a.delims
    requires AreStaged(buffers, a, First(m, a.calls[m]), Last(m, a.calls[m]) + 1)
    ensures var c := a.calls[m];
            var first, last := First(m, c), Last(m, c);
            && first <= m <= last <= |w| + 1 && m > 0 && |buffers| == last + 1 - first
            && (if c.start.Some? then first < m && SpanText(buffers, 0, m - first) == EndText(d, w, m) else first == m)
            && (if c.end.Some? then m < last && SpanText(buffers, m - first, last - first) == EndText(d, w, last)
                else last == m)
  {
    hide FromStream, Delimited, SpanText, EndText, AreStaged, CallsOk, Gap, HasDelimiter;
    var c := a.calls[m];
    CallEnds(d, w, a, m, buffers);
    CalledIsStaged(a, m);
    if c.start.Some? {
      ClaimIsSpan(a, m, c, First(m, c), m);
      SpanTextOfStream(d, w, a, buffers, First(m, c), Last(m, c) + 1, First(m, c), m);
    }
    if c.end.Some? {
      ClaimIsSpan(a, m, c, m, Last(m, c));
      SpanTextOfStream(d, w, a, buffers, First(m, c), Last(m, c) + 1, m, Last(m, c));
    }
  }

  lemma AreStagedLength(buffers: seq<StagedBuffer>, a: Ledger, first: nat, next: nat)
    requires AreStaged(buffers, a, first, next)
    ensures |buffers| == next - first
  {
  }

  lemma PlainCallTuples(d: char, w: seq<string>, a: Ledger, m: nat, buffers: seq<StagedBuffer>)
    requires FromStream(d, w, a) && CallsOk(a) && m in a.calls && m !in a.delims
    requires AreStaged(buffers, a, First(m, a.calls[m]), Last(m, a.calls[m]) + 1)
    ensures m <= |w| + 1 && |buffers| >= 3
    ensures Delimited(d, buffers[0]) && Delimited(d, buffers[|buffers| - 1])
    ensures multiset{SpanText(buffers, 0, |buffers| - 1)} == CallTuples(d, w, m, a.calls[m])
  {
    hide FromStream, Delimited, SpanText, EndText, AreStaged, CallsOk, Gap, InnerOfBuffer;
    var c := a.calls[m];
    var first, next := First(m, c), Last(m, c) + 1;
    CalledIsStaged(a, m);
    AreStagedLength(buffers, a, first, next);
    StagedBuffersOfStream(d, w, a, buffers, first, next, m);
    assert Claims(a, m, c, first, next - 1);
    ClaimIsSpan(a, m, c, first, next - 1);
    SpanTextOfStream(d, w, a, buffers, first, next, first, next - 1);
  }

  lemma {:induction false} AllTuplesConcat(a: seq<FormattedBuffer>, b: seq<FormattedBuffer>)
    ensures AllTuples(a + b) == AllTuples(a) + AllTuples(b)
  {
    if b == [] {
      assert a + b == a;
    } else {
      hide AllTuples;
      var c, last := b[..|b| - 1], b[|b| - 1];
      AllTuplesConcat(a, c);
      AllTuplesExtend(c, last);
      AllTuplesExtend(a + c, last);
      assert b == c + [last] && a + b == (a + c) + [last];
    }
  }

  /** What the first half of a parse call led to. */
  datatype Outcome =
    | Repeat            // the number is out of range, the buffer comes again
    | Nothing           // a buffer without a delimiter that completed no tuple
    | Found(call: Call)

  class ParallelParser {
    const format: Format
    ghost const stream: seq<string>
    const shredder: SequenceShredder
    var emitted: seq<FormattedBuffer>

    ghost predicate Valid()
      reads this, shredder
    {
      && FormatOk(format)
      && shredder.Valid()
      && FromStream(format.delimiter, stream, shredder.ledger)
      && |stream| + 1 !in shredder.ledger.staged
      && multiset(AllTuples(emitted)) == Emitted(format.delimiter, stream, shredder.ledger, |stream| + 2)
      && NumbersOk(format.delimiter, stream, shredder.ledger, emitted)
    }

    constructor (format: Format, ghost stream: seq<string>, initialNumBitmaps: nat)
      requires FormatOk(format) && PowerOfTwo(initialNumBitmaps)
      ensures Valid() && this.format == format && this.stream == stream && fresh(shredder)
      ensures emitted == [] && shredder.ledger == Initial(BufferOf(format.delimiter, stream, 0))
      ensures shredder.tail == 0 && shredder.numberOfBitmaps == initialNumBitmaps && shredder.resizeRequestCount == 0
    {
      this.format := format;
      this.stream := stream;
      shredder := new SequenceShredder(1, initialNumBitmaps);
      emitted := [];
      new;
      NothingAtFirst(format.delimiter, stream, |stream| + 2);
    }

    /** Up to the end of the first locked section and its search. */
    method Begin(number: nat, bytes: string) returns (outcome: Outcome)
      requires Valid() && 0 < number <= |stream| && bytes == stream[number - 1] && number !in shredder.ledger.staged
      modifies shredder
      ensures Valid()
      ensures outcome.Repeat? <==> number >= 64 * (old(shredder.tail) + old(shredder.numberOfBitmaps))
      ensures outcome.Repeat? ==> shredder.ledger == old(shredder.ledger)
      ensures shredder.resizeRequestCount == old(shredder.resizeRequestCount) + (if outcome.Repeat? then 1 else 0)
      ensures !outcome.Repeat? ==>
        shredder.ledger == StagedCall(old(shredder.ledger), number, BufferOf(format.delimiter, stream, number),
                                      HasDelimiter(format.delimiter, stream, number))
      ensures shredder.tail == old(shredder.tail) && shredder.numberOfBitmaps == old(shredder.numberOfBitmaps)
      ensures outcome.Found? <==> !outcome.Repeat? && number in shredder.ledger.calls
      ensures outcome.Found? ==> shredder.InFlight(outcome.call) && outcome.call.number == number
      ensures forall other :: old(shredder.InFlight(other)) ==> shredder.InFlight(other)
    {
      hide StateOk, FromStream, Emitted, Inv, Reachable, Describe, NumbersOk;
      ghost var a := shredder.ledger;
      var inRange := shredder.IsInRange(number);
      if !inRange {
        return Repeat;
      }
      var buffer, hasDelimiter := InspectRawBuffer(format.delimiter, number, bytes);
      StateInv(shredder.tail, shredder.tupleDelimiterBitmaps, shredder.seenAndUsedBitmaps, shredder.stagedBuffers,
               shredder.stagedBufferUses, a, shredder.rings);
      BeginStream(format.delimiter, stream, a, number, emitted);
      var call := shredder.Stage(buffer, number, hasDelimiter);
      outcome := if hasDelimiter || (call.span.isStartValid && call.span.isEndValid) then Found(call) else Nothing;
    }

    /** The second locked section, and formatting what it handed out. */
    method Finish(call: Call)
      requires Valid() && shredder.InFlight(call)
      modifies this`emitted, shredder
      ensures Valid()
      ensures shredder.ledger == CommitStep(old(shredder.ledger), call.number)
      ensures forall other: Call | old(shredder.InFlight(other)) && other.number != call.number :: shredder.InFlight(other)
      ensures shredder.tail >= old(shredder.tail) && shredder.numberOfBitmaps >= old(shredder.numberOfBitmaps)
      ensures !EmittedUnder(old(emitted), call.number)
      ensures exists chunks :: emitted == old(emitted) + chunks && Numbered(chunks, call.number, true) && Fit(format, chunks)
    {
      hide StateOk, FromStream, Emitted, Inv, CallsOk, FormatOk, Describe, CallTuples, NumbersOk, HasInner, EmittedUnder, Numbered, Fit;
      ghost var a := shredder.ledger;
      StateInv(shredder.tail, shredder.tupleDelimiterBitmaps, shredder.seenAndUsedBitmaps, shredder.stagedBuffers,
               shredder.stagedBufferUses, a, shredder.rings);
      FinishStream(format.delimiter, stream, a, call.number);
      var chunks := CommitAndFormat(call);
      AllTuplesConcat(emitted, chunks);
      CommitNumbers(format.delimiter, stream, a, call.number, emitted, chunks);
      emitted := emitted + chunks;
    }

    method CommitAndFormat(call: Call) returns (chunks: seq<FormattedBuffer>)
      requires FormatOk(format) && shredder.Valid() && shredder.InFlight(call)
      requires FromStream(format.delimiter, stream, shredder.ledger) && CallsOk(shredder.ledger)
      requires call.number in shredder.ledger.staged && shredder.ledger.staged[call.number].buffer.Some?
      modifies shredder
      ensures shredder.Valid() && shredder.ledger == CommitStep(old(shredder.ledger), call.number) && call.number <= |stream| + 1
      ensures forall other: Call | old(shredder.InFlight(other)) && other.number != call.number :: shredder.InFlight(other)
      ensures shredder.tail >= old(shredder.tail) && shredder.numberOfBitmaps >= old(shredder.numberOfBitmaps)
      ensures var c := old(shredder.ledger).calls[call.number];
              && multiset(AllTuples(chunks)) == CallTuples(format.delimiter, stream, call.number, c)
              && (call.number in old(shredder.ledger).delims ==>
                    (chunks == [] <==> c.start.None? && c.end.None? && !HasInner(format.delimiter, stream, call.number)))
      ensures Numbered(chunks, call.number, true) && Fit(format, chunks)
    {
      hide StateOk, FromStream, Inv, CallsOk, FormatOk, Describe, CallTuples, HasInner, Numbered, Fit, AllTuples;
      ghost var a := shredder.ledger;
      if call.hasDelimiter {
        var r := shredder.CommitWithDelimiter(call);
        chunks := FormatDelimiterCall(call, r, a);
      } else {
        var r := shredder.CommitWithoutDelimiter(call);
        chunks := FormatPlainCall(call, r, a);
      }
    }

    method FormatDelimiterCall(call: Call, r: SpanningTupleBuffers, ghost a: Ledger) returns (chunks: seq<FormattedBuffer>)
      requires FormatOk(format) && FromStream(format.delimiter, stream, a) && CallsOk(a)
      requires call.number in a.calls && call.number in a.delims && call.number in a.staged && a.staged[call.number].buffer.Some?
      requires AreStaged(r.buffers, a, First(call.number, a.calls[call.number]), Last(call.number, a.calls[call.number]) + 1)
      requires r.indexOfProcessedSequenceNumber == call.number - First(call.number, a.calls[call.number])
      ensures call.number <= |stream| + 1
      ensures multiset(AllTuples(chunks)) == CallTuples(format.delimiter, stream, call.number, a.calls[call.number])
      ensures Numbered(chunks, call.number, true) && Fit(format, chunks)
      ensures chunks == [] <==> var c := a.calls[call.number];
        c.start.None? && c.end.None? && !HasInner(format.delimiter, stream, call.number)
    {
      hide *;
      OwnInner(format.delimiter, stream, a, call.number, r.buffers);
      DelimiterCallTuples(format.delimiter, stream, a, call.number, r.buffers);
      OwnBuffer(a, call.number, r.buffers);
      chunks := FormatWithDelimiter(format, call.number, r.indexOfProcessedSequenceNumber, r.buffers);
    }

    method FormatPlainCall(call: Call, r: SpanningTupleBuffers, ghost a: Ledger) returns (chunks: seq<FormattedBuffer>)
      requires FormatOk(format) && FromStream(format.delimiter, stream, a) && CallsOk(a)
      requires call.number in a.calls && call.number !in a.delims && call.buffer.buffer.Some?
      requires AreStaged(r.buffers, a, First(call.number, a.calls[call.number]), Last(call.number, a.calls[call.number]) + 1)
      ensures call.number <= |stream| + 1
      ensures multiset(AllTuples(chunks)) == CallTuples(format.delimiter, stream, call.number, a.calls[call.number])
      ensures Numbered(chunks, call.number, true) && Fit(format, chunks)
    {
      hide *;
      PlainCallTuples(format.delimiter, stream, a, call.number, r.buffers);
      chunks := FormatWithoutDelimiter(format, call.number, call.buffer.buffer.value.bytes, r.buffers);
    }

    /** The end of the stream, when every buffer was parsed and the number behind
        the last one is in range: everything emitted is the sequential split. */
    method Flush() returns (ghost flushed: seq<FormattedBuffer>)
      requires Valid() && Quiet(stream, shredder.ledger)
      requires |stream| + 1 < 64 * (shredder.tail + shredder.numberOfBitmaps)
      modifies this`emitted, shredder
      ensures multiset(AllTuples(emitted)) + Missing(format.delimiter, stream, old(shredder.ledger))
           == multiset(Tuples(format.delimiter, Bytes(stream, |stream|)))
      ensures var n := FlushSequence(format.delimiter, stream, old(shredder.ledger));
              && emitted == old(emitted) + flushed && Numbered(flushed, n, true) && Fit(format, flushed)
              && |flushed| == (if Carry(format.delimiter, stream, |stream|) == "" then 0 else 1)
              && (EmittedUnder(old(emitted), n) <==>
                    old(shredder.ledger).lost && Span(old(shredder.ledger), 0, |stream|)
                    && HasInner(format.delimiter, stream, |stream|))
    {
      hide StateOk, FromStream, Emitted, Inv, FormatOk, AreStaged, Delimited, SpanText, Tuples, Missing, Carry, Reachable, Quiet,
           StagedCall, CommitStep, Remaining, IsLargest, First, AllTuples, Bytes, Numbered, Fit, FlushTuple, NumbersOk,
           EmittedUnder, HasInner, Span, LastProduced;
      ghost var a := shredder.ledger;
      StateInv(shredder.tail, shredder.tupleDelimiterBitmaps, shredder.seenAndUsedBitmaps, shredder.stagedBuffers,
               shredder.stagedBufferUses, a, shredder.rings);
      LastInRange(format.delimiter, stream, a, 64 * (shredder.tail + shredder.numberOfBitmaps) - 1);
      var r, sequenceNumber, next := shredder.FlushFinalPartialTuple();
      FlushText(format.delimiter, stream, a, next, r.buffers);
      LastUses(format.delimiter, stream, a);
      FlushNumberRepeats(format.delimiter, stream, a, emitted);
      var chunks := FlushFinalTuple(format, sequenceNumber, r.buffers);
      AllTuplesConcat(emitted, chunks);
      FlushedTuples(Carry(format.delimiter, stream, |stream|), AllTuples(emitted), AllTuples(chunks));
      emitted, flushed := emitted + chunks, chunks;
      QuietResult(format.delimiter, stream, a);
    }
  }

  lemma FlushedTuples(text: string, before: seq<string>, flushed: seq<string>)
    requires flushed == if text == "" then [] else [text]
    ensures multiset(before + flushed) == multiset(before) + FlushTuple(text)
  {
  }

  lemma LastInRange(d: char, w: seq<string>, a: Ledger, last: nat)
    requires FromStream(d, w, a) && Quiet(w, a) && |w| < last
    ensures last !in a.staged
  {
  }

  /** The buffers of the flush hold the text that is still open. */
  lemma FlushText(d: char, w: seq<string>, a: Ledger, next: nat, buffers: seq<StagedBuffer>)
    requires Inv(a) && FromStream(d, w, a) && Quiet(w, a) && IsLargest(a, next - 1)
    requires var a' := StagedCall(a, next, StagedBuffer(None, 0, 0, 0), true);
             next in a'.calls && AreStaged(buffers, a', First(next, a'.calls[next]), next + 1)
    ensures next == |w| + 1 && |buffers| >= 2
    ensures Delimited(d, buffers[0]) && Delimited(d, buffers[|buffers| - 1])
    ensures SpanText(buffers, 0, |buffers| - 1) == Carry(d, w, |w|)
  {
    hide Inv, AreStaged, Delimited, SpanText, Carry, Reachable;
    FlushNumber(d, w, a, next);
    InvShape(a);
    var s := Staged(a, next, StagedBuffer(None, 0, 0, 0), true);
    var a' := StagedCall(a, next, StagedBuffer(None, 0, 0, 0), true);
    FlushStaged(d, w, a, a', next);
    var q := NearestDelimiter(s, next);
    AreStagedLength(buffers, a', q, next + 1);
    SameSpans(s, a');
    SpanTextOfStream(d, w, a', buffers, q, next + 1, q, next);
    assert EndText(d, w, next) == Carry(d, w, |w|);
  }

  lemma FlushNumber(d: char, w: seq<string>, a: Ledger, next: nat)
    requires FromStream(d, w, a) && Quiet(w, a) && IsLargest(a, next - 1)
    ensures next == |w| + 1
  {
    assert |w| in a.staged;
  }

  lemma FlushStaged(d: char, w: seq<string>, a: Ledger, a': Ledger, next: nat)
    requires Shape(a) && FromStream(d, w, a) && Quiet(w, a) && next == |w| + 1
    requires a' == StagedCall(a, next, StagedBuffer(None, 0, 0, 0), true)
    ensures Shape(Staged(a, next, StagedBuffer(None, 0, 0, 0), true))
    ensures FromStream(d, w, a') && forall x | 0 <= x < next :: x in a'.staged
  {
    hide Reachable, Describe;
  }

  /** A call without spanning tuples gets its own buffer only. */
  lemma OwnInner(d: char, w: seq<string>, a: Ledger, m: nat, buffers: seq<StagedBuffer>)
    requires FromStream(d, w, a) && CallsOk(a) && m in a.calls && m in a.delims
    requires AreStaged(buffers, a, First(m, a.calls[m]), Last(m, a.calls[m]) + 1)
    ensures m <= |w| + 1
    ensures |buffers| == 1 <==> a.calls[m].start.None? && a.calls[m].end.None?
    ensures |buffers| == 1 ==>
      (buffers[0].offsetOfFirstDelimiter == buffers[0].offsetOfLastDelimiter <==> !HasInner(d, w, m))
  {
    hide Describe, Delimited;
    assert CallOk(a, m, a.calls[m]);
  }

  lemma OwnBuffer(a: Ledger, m: nat, buffers: seq<StagedBuffer>)
    requires CallsOk(a) && m in a.calls && AreStaged(buffers, a, First(m, a.calls[m]), Last(m, a.calls[m]) + 1)
    ensures m in a.staged && First(m, a.calls[m]) <= m
    ensures m - First(m, a.calls[m]) < |buffers| && buffers[m - First(m, a.calls[m])] == a.staged[m]
  {
    CalledIsStaged(a, m);
  }

  lemma FinishStream(d: char, w: seq<string>, a: Ledger, m: nat)
    requires Inv(a) && FromStream(d, w, a) && m in a.calls && |w| + 1 !in a.staged
    ensures 0 < m <= |w| && m in a.staged && a.staged[m].buffer.Some?
    ensures var a' := CommitStep(a, m);
            && FromStream(d, w, a') && |w| + 1 !in a'.staged
            && Emitted(d, w, a', |w| + 2) == Emitted(d, w, a, |w| + 2) + CallTuples(d, w, m, a.calls[m])
  {
    hide Emitted, CallTuples;
    assert CallOk(a, m, a.calls[m]);
    CommitEmitsAll(d, w, a, m);
  }

  /** The search for the first and the last delimiter of a raw buffer. */
  method InspectRawBuffer(d: char, number: nat, bytes: string) returns (b: StagedBuffer, hasDelimiter: bool)
    ensures b == Describe(d, number, bytes) && hasDelimiter == (d in bytes)
    ensures hasDelimiter ==> Delimited(d, b)
    ensures b.buffer == Some(RawBuffer(number, bytes))
  {
    assert bytes[0..] == bytes;
    var first := FindFrom(d, bytes, 0);
    hasDelimiter := first.Some?;
    if hasDelimiter {
      DescribeDelimited(d, number, bytes);
      b := StagedBuffer(Some(RawBuffer(number, bytes)), |bytes|, first.value, FindLast(d, bytes));
    } else {
      b := StagedBuffer(Some(RawBuffer(number, bytes)), |bytes|, 0, |bytes|);
    }
  }

  lemma StateInv(tail: nat, delims: seq<Word>, seens: seq<Word>, buffers: seq<StagedBuffer>, uses: seq<int>,
                 a: Ledger, rings: map<nat, nat>)
    requires StateOk(tail, delims, seens, buffers, uses, a, rings)
    ensures Inv(a) && CallsOk(a)
  {
  }

  lemma BeginStream(d: char, w: seq<string>, a: Ledger, number: nat, emitted: seq<FormattedBuffer>)
    requires Inv(a) && NumbersOk(d, w, a, emitted) && FromStream(d, w, a) && 0 < number <= |w| && number !in a.staged && |w| + 1 !in a.staged
    ensures var a' := StagedCall(a, number, BufferOf(d, w, number), HasDelimiter(d, w, number));
            && FromStream(d, w, a') && |w| + 1 !in a'.staged
            && Emitted(d, w, a', |w| + 2) == Emitted(d, w, a, |w| + 2)
            && NumbersOk(d, w, a', emitted)
  {
    hide Inv, Emitted, Reachable, BufferOf, HasDelimiter, NumbersOk, Shape, UsedAreComplete;
    InvShape(a);
    var b, h := BufferOf(d, w, number), HasDelimiter(d, w, number);
    StageEmits(d, w, a, number, b, h, Reachable(Staged(a, number, b, h), number), |w| + 2);
    StageNumbers(d, w, a, number, b, h, Reachable(Staged(a, number, b, h), number), emitted);
  }
}
