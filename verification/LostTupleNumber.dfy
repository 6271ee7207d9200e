/** A stream whose first tuple is lost and whose flush repeats the number of an earlier chunk. */
module LostTupleNumber {
  import opened RawBuffers
  import opened RingArithmetic
  import opened Spans
  import opened SequenceShredding
  import Runs = ShredderRuns
  import opened CsvFormatting
  import opened ParallelParse
  import opened ChunkSequence
  import opened ParallelParsing

  /** Sixty-three buffers without a delimiter, then one with two. */
  function Stream(d: char, x: char): (w: seq<string>) {
    seq(63, i => [x]) + [[d, x, d, x]]
  }

  lemma StreamFacts(d: char, x: char)
    requires x != d
    ensures var w := Stream(d, x);
            && |w| == 64 && HasDelimiter(d, w, 64) && HasInner(d, w, 64) && Carry(d, w, 64) != ""
            && forall k | 0 < k < 64 :: !HasDelimiter(d, w, k)
  {
    var w := Stream(d, x);
    var b := BufferOf(d, w, 64);
    assert w[63] == [d, x, d, x];
    DescribeDelimited(d, 64, w[63]);
    assert w[63][0] == d && w[63][2] == d && w[63][3] == x;
    forall k | 0 < k < 64 ensures !HasDelimiter(d, w, k) {
      assert w[k - 1] == [x];
    }
  }

  lemma FillNext(a: Ledger, b: StagedBuffer, k: nat)
    requires Runs.Filling(a, k) && 0 < k < 63
    ensures StagedCall(a, k, b, false) == Staged(a, k, b, false) && Runs.Filling(StagedCall(a, k, b, false), k + 1)
  {
    Runs.NoEndYet(Staged(a, k, b, false), k);
  }

  lemma LastFirst(first: StagedBuffer, b: StagedBuffer)
    ensures var a := StagedCall(Initial(first), 64, b, true);
            64 in a.calls && Runs.Filling(CommitStep(a, 64), 1)
  {
    Runs.EndFirst(first, b);
  }

  /** The parser works on the stream, with room for all of its buffers and the flush. */
  ghost predicate Ready(p: ParallelParser, x: char)
    reads p, p.shredder
  {
    && p.Valid() && x != p.format.delimiter && p.stream == Stream(p.format.delimiter, x)
    && p.shredder.tail + p.shredder.numberOfBitmaps >= 2
  }

  /** The last buffer comes first and emits its own tuple. */
  method ParseLast(p: ParallelParser, x: char)
    requires Ready(p, x) && p.emitted == [] && p.shredder.ledger == Initial(BufferOf(p.format.delimiter, p.stream, 0))
    modifies p`emitted, p.shredder
    ensures Ready(p, x) && Runs.Filling(p.shredder.ledger, 1) && Numbered(p.emitted, 64, true)
  {
    hide ParallelParser.Valid, StagedCall, CommitStep, Initial, Runs.Filling, BufferOf, HasDelimiter, Numbered, Fit, Carry, HasInner, Stream;
    StreamFacts(p.format.delimiter, x);
    StreamLast(p.format.delimiter, x);
    LastFirst(BufferOf(p.format.delimiter, p.stream, 0), BufferOf(p.format.delimiter, p.stream, 64));
    InitialHas(BufferOf(p.format.delimiter, p.stream, 0));
    var outcome := p.Begin(64, [p.format.delimiter, x, p.format.delimiter, x]);
    p.Finish(outcome.call);
    ghost var chunks :| p.emitted == [] + chunks && Numbered(chunks, 64, true);
    assert p.emitted == chunks;
  }

  lemma StreamLast(d: char, x: char)
    ensures |Stream(d, x)| == 64 && Stream(d, x)[63] == [d, x, d, x] && forall k | 0 <= k < 63 :: Stream(d, x)[k] == [x]
  {
  }

  lemma InitialHas(first: StagedBuffer)
    ensures forall x :: x in Initial(first).staged <==> x == 0
  {
  }

  /** The buffers before it follow in order and complete nothing. */
  method ParseOthers(p: ParallelParser, x: char)
    requires Ready(p, x) && Runs.Filling(p.shredder.ledger, 1)
    modifies p.shredder
    ensures Ready(p, x) && Runs.Filling(p.shredder.ledger, 63)
  {
    hide ParallelParser.Valid, StagedCall, BufferOf, HasDelimiter, Carry, HasInner, Stream;
    StreamFacts(p.format.delimiter, x);
    StreamLast(p.format.delimiter, x);
    for k := 1 to 63
      invariant Ready(p, x) && Runs.Filling(p.shredder.ledger, k)
    {
      FillNext(p.shredder.ledger, BufferOf(p.format.delimiter, p.stream, k), k);
      var outcome := p.Begin(k, [x]);
    }
  }

  lemma Overlooked(a: Ledger, b: StagedBuffer)
    requires Runs.Filling(a, 63)
    ensures var a' := StagedCall(a, 63, b, false);
            a'.lost && Span(a', 0, 64) && a'.calls == map[] && forall x: nat :: x in a'.staged <==> x <= 64
  {
    Runs.LastPlain(a, b);
  }

  /** In a ring of two or more bitmaps, the last buffer is parsed first and emits
      under its own number; buffer 63 then completes the first tuple and overlooks
      it; the flush emits under the same number again. */
  method RepeatedNumber(format: Format, x: char, n: nat) returns (p: ParallelParser)
    requires FormatOk(format) && PowerOfTwo(n) && n >= 2 && x != format.delimiter
    ensures p.stream == Stream(format.delimiter, x) && p.format == format
    ensures exists i, j :: 0 <= i < j < |p.emitted| && p.emitted[i].sequenceNumber == p.emitted[j].sequenceNumber == 64
                           && p.emitted[i].chunkNumber == p.emitted[j].chunkNumber == 1
  {
    hide ParallelParser.Valid, StagedCall, BufferOf, HasDelimiter, Carry, HasInner, Stream, Fit, FormatOk, PowerOfTwo, Span, Runs.Filling;
    ghost var w := Stream(format.delimiter, x);
    StreamFacts(format.delimiter, x);
    StreamLast(format.delimiter, x);
    p := new ParallelParser(format, w, n);
    ParseLast(p, x);
    ghost var before := p.emitted;
    ParseOthers(p, x);
    HasRoom(p.shredder.ledger);
    Overlooked(p.shredder.ledger, BufferOf(format.delimiter, w, 63));
    var outcome := p.Begin(63, [x]);
    ghost var chunks := p.Flush();
    assert EmittedUnder(before, 64);
    assert p.emitted[0] == before[0] && p.emitted[|before|] == chunks[0];
  }

  lemma HasRoom(a: Ledger)
    requires Runs.Filling(a, 63)
    ensures 63 !in a.staged
  {
  }
}
