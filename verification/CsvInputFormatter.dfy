/** The text side of the CSV input formatter: finding the tuples of a raw
    buffer, gluing a spanning tuple together, and filling formatted buffers
    chunk by chunk.  A formatted tuple is represented by its raw text. */
module CsvFormatting {
  import opened Options
  import opened RawBuffers
  import opened TupleText

  /** A formatted buffer as it is passed on. */
  datatype FormattedBuffer = FormattedBuffer(
    sequenceNumber: nat, chunkNumber: nat, tuples: seq<string>, numberOfTuples: nat, lastChunk: bool)

  /** `width(t)` is the number of bytes that the fields found in `t` take in a formatted buffer. */
  datatype Format = Format(delimiter: char, tupleSize: nat, bufferSize: nat, width: string -> nat)

  /** A tuple never needs more than its schema's size, and a formatted buffer can hold one. */
  ghost predicate FormatOk(f: Format) {
    f.tupleSize <= f.bufferSize && forall t :: f.width(t) <= f.tupleSize
  }

  // ------------------------------------------------------------ parts of a buffer

  function Text(b: StagedBuffer): (s: string) {
    if b.buffer.Some? then b.buffer.value.bytes else ""
  }

  /** The buffer as the formatter hands it to the shredder. */
  function Describe(d: char, number: nat, bytes: string): (b: StagedBuffer) {
    if d in bytes
    then StagedBuffer(Some(RawBuffer(number, bytes)), |bytes|, FindFrom(d, bytes, 0).value, FindLast(d, bytes))
    else StagedBuffer(Some(RawBuffer(number, bytes)), |bytes|, 0, |bytes|)
  }

  /** The offsets are those of the first and the last delimiter. */
  predicate Delimited(d: char, b: StagedBuffer) {
    if b.buffer.None? then b.offsetOfFirstDelimiter == 0
    else var s := b.buffer.value.bytes;
         && b.sizeInBytes == |s|
         && b.offsetOfFirstDelimiter <= b.offsetOfLastDelimiter < |s|
         && s[b.offsetOfFirstDelimiter] == d && d !in s[..b.offsetOfFirstDelimiter]
         && s[b.offsetOfLastDelimiter] == d && d !in s[b.offsetOfLastDelimiter + 1..]
  }

  /** The text before the first delimiter. */
  function Leading(b: StagedBuffer): (s: string) {
    if b.offsetOfFirstDelimiter <= |Text(b)| then Text(b)[..b.offsetOfFirstDelimiter] else ""
  }

  /** The text behind the last delimiter. */
  function Trailing(b: StagedBuffer): (s: string) {
    if b.offsetOfLastDelimiter < |Text(b)| then Text(b)[b.offsetOfLastDelimiter + 1..] else ""
  }

  /** The tuples that are finished in `s`: all pieces but the last. */
  function Finished(d: char, s: string): (r: seq<string>) {
    Split(d, s)[..|Split(d, s)| - 1]
  }

  /** The tuples that start and end in the buffer. */
  function Inner(d: char, b: StagedBuffer): (r: seq<string>) {
    if b.offsetOfFirstDelimiter < |Text(b)| then Finished(d, Text(b)[b.offsetOfFirstDelimiter + 1..]) else []
  }

  function Concat(buffers: seq<StagedBuffer>): (s: string) {
    if buffers == [] then "" else Concat(buffers[..|buffers| - 1]) + Text(buffers[|buffers| - 1])
  }

  /** The text of the spanning tuple that starts in the first and ends in the last of the buffers. */
  function SpanText(buffers: seq<StagedBuffer>, first: nat, last: nat): (s: string)
    requires first < last < |buffers|
  {
    Trailing(buffers[first]) + Concat(buffers[first + 1..last]) + Leading(buffers[last])
  }

  lemma DescribeDelimited(d: char, number: nat, bytes: string)
    requires d in bytes
    ensures Delimited(d, Describe(d, number, bytes))
  {
    assert bytes[0..] == bytes;
    var r := FindFrom(d, bytes, 0);
    assert bytes[0..r.value] == bytes[..r.value];
    assert bytes[FindLast(d, bytes)] !in bytes[..r.value];
  }

  // ---------------------------------------------------------- what a call emits

  ghost function AllTuples(chunks: seq<FormattedBuffer>): (r: seq<string>) {
    if chunks == [] then [] else AllTuples(chunks[..|chunks| - 1]) + chunks[|chunks| - 1].tuples
  }

  /** Chunk numbers count from one, the stored tuple counts are right, and `closed`
      says whether the last chunk carries the last-chunk flag; no other does. */
  ghost predicate Numbered(chunks: seq<FormattedBuffer>, sequenceNumber: nat, closed: bool) {
    forall i | 0 <= i < |chunks| ::
      && chunks[i].sequenceNumber == sequenceNumber
      && chunks[i].chunkNumber == i + 1
      && chunks[i].numberOfTuples == |chunks[i].tuples|
      && chunks[i].lastChunk == (closed && i == |chunks| - 1)
  }

  ghost function Width(f: Format, tuples: seq<string>): (r: nat) {
    if tuples == [] then 0 else Width(f, tuples[..|tuples| - 1]) + f.width(tuples[|tuples| - 1])
  }

  ghost predicate Fit(f: Format, chunks: seq<FormattedBuffer>) {
    forall i | 0 <= i < |chunks| :: Width(f, chunks[i].tuples) <= f.bufferSize
  }

  lemma WidthExtend(f: Format, tuples: seq<string>, t: string)
    ensures Width(f, tuples + [t]) == Width(f, tuples) + f.width(t)
  {
    assert (tuples + [t])[..|tuples|] == tuples;
  }

  lemma AllTuplesExtend(chunks: seq<FormattedBuffer>, c: FormattedBuffer)
    ensures AllTuples(chunks + [c]) == AllTuples(chunks) + c.tuples
  {
    assert (chunks + [c])[..|chunks|] == chunks;
  }

  class ProgressTracker {
    const format: Format
    const sequenceNumber: nat
    var chunkNumber: nat
    var raw: string
    var currentTupleStart: nat
    var currentTupleEnd: Option<nat>
    var numberOfTuples: nat
    var currentFieldOffset: nat
    var formatted: FormattedBuffer
    var emitted: seq<FormattedBuffer>

    /** Every tuple formatted so far, in order. */
    ghost function Output(): (r: seq<string>)
      reads this
    {
      AllTuples(emitted) + formatted.tuples
    }

    ghost predicate Valid()
      reads this
    {
      && FormatOk(format)
      && chunkNumber == |emitted| + 1
      && formatted.sequenceNumber == sequenceNumber && formatted.chunkNumber == chunkNumber
      && numberOfTuples == |formatted.tuples|
      && currentFieldOffset == Width(format, formatted.tuples) <= format.bufferSize
      && Numbered(emitted, sequenceNumber, false) && Fit(format, emitted)
    }

    /** The current formatted buffer has room for another tuple. */
    predicate HasRoom()
      reads this
    {
      currentFieldOffset + format.tupleSize <= format.bufferSize
    }

    constructor (format: Format, sequenceNumber: nat)
      requires FormatOk(format)
      ensures this.format == format && this.sequenceNumber == sequenceNumber
      ensures Valid() && HasRoom() && Output() == [] && emitted == [] && formatted.numberOfTuples == numberOfTuples == 0
      ensures raw == "" && currentTupleStart == 0 && currentTupleEnd == Some(0)
    {
      this.format, this.sequenceNumber := format, sequenceNumber;
      chunkNumber, raw, currentTupleStart, currentTupleEnd := 1, "", 0, Some(0);
      numberOfTuples, currentFieldOffset, emitted := 0, 0, [];
      formatted := FormattedBuffer(sequenceNumber, 1, [], 0, false);
    }

    method FindIndexOfNextTuple() returns (index: Option<nat>)
      ensures currentTupleStart > |raw| ==> index == None
      ensures currentTupleStart <= |raw| ==> index == FindFrom(format.delimiter, raw, currentTupleStart)
    {
      index := if currentTupleStart <= |raw| then FindFrom(format.delimiter, raw, currentTupleStart) else None;
    }

    method ResetForNewRawTB(newRaw: string, startOffset: nat)
      requires startOffset <= |newRaw|
      modifies this`raw, this`currentTupleStart, this`currentTupleEnd
      ensures old(Valid()) ==> Valid()
      ensures Output() == old(Output()) && HasRoom() == old(HasRoom())
      ensures raw == newRaw && currentTupleStart == startOffset
      ensures currentTupleEnd == FindFrom(format.delimiter, newRaw, startOffset)
    {
      raw := newRaw;
      currentTupleStart := startOffset;
      currentTupleEnd := FindIndexOfNextTuple();
    }

    /** Passes a full buffer on as a chunk that is not the last. */
    method CheckAndHandleFullBuffer()
      requires Valid()
      modifies this`chunkNumber, this`numberOfTuples, this`currentFieldOffset, this`formatted, this`emitted
      ensures Valid() && HasRoom() && Output() == old(Output())
      ensures if old(HasRoom()) then emitted == old(emitted) else |emitted| == |old(emitted)| + 1
    {
      if format.bufferSize - currentFieldOffset < format.tupleSize {
        formatted := formatted.(numberOfTuples := numberOfTuples, lastChunk := false);
        AllTuplesExtend(emitted, formatted);
        emitted := emitted + [formatted];
        chunkNumber := chunkNumber + 1;
        formatted := FormattedBuffer(sequenceNumber, chunkNumber, [], 0, false);
        currentFieldOffset := 0;
        numberOfTuples := 0;
      }
    }

    /** Formats one tuple and moves on: the start wraps to zero if the search had found no end. */
    method FormatTuple(tuple: string)
      requires Valid() && HasRoom()
      modifies this`raw, this`currentTupleStart, this`currentTupleEnd, this`numberOfTuples, this`currentFieldOffset, this`formatted
      ensures Valid() && Output() == old(Output()) + [tuple] && raw == old(raw)
      ensures formatted.numberOfTuples == old(formatted.numberOfTuples) && numberOfTuples == old(numberOfTuples) + 1
      ensures currentTupleStart == if old(currentTupleEnd).Some? then old(currentTupleEnd).value + 1 else 0
      ensures currentTupleEnd == if currentTupleStart <= |raw| then FindFrom(format.delimiter, raw, currentTupleStart) else None
    {
      WidthExtend(format, formatted.tuples, tuple);
      formatted := formatted.(tuples := formatted.tuples + [tuple]);
      currentFieldOffset := currentFieldOffset + format.width(tuple);
      numberOfTuples := numberOfTuples + 1;
      currentTupleStart := if currentTupleEnd.Some? then currentTupleEnd.value + 1 else 0;
      currentTupleEnd := FindIndexOfNextTuple();
    }

    /** Formats every tuple that ends in the raw buffer. */
    method ProcessCurrentBuffer()
      requires Valid() && currentTupleStart <= |raw|
      requires currentTupleEnd == FindFrom(format.delimiter, raw, currentTupleStart)
      modifies this
      ensures Valid()
      ensures Output() == old(Output()) + Finished(format.delimiter, old(raw)[old(currentTupleStart)..])
    {
      hide Finished, Valid, Output;
      while currentTupleEnd.Some?
        invariant Valid() && raw == old(raw) && currentTupleStart <= |raw|
        invariant currentTupleEnd == FindFrom(format.delimiter, raw, currentTupleStart)
        invariant Output() + Finished(format.delimiter, raw[currentTupleStart..])
               == old(Output()) + Finished(format.delimiter, raw[old(currentTupleStart)..])
        decreases |raw| - currentTupleStart
      {
        FinishedStep(format.delimiter, raw, currentTupleStart, currentTupleEnd.value);
        CheckAndHandleFullBuffer();
        FormatTuple(raw[currentTupleStart..currentTupleEnd.value]);
      }
      NothingFinished(format.delimiter, raw[currentTupleStart..]);
    }

    /** Glues the text of a spanning tuple together and formats it. */
    method ProcessPartialTuple(first: nat, last: nat, buffers: seq<StagedBuffer>) returns (isNotEmpty: bool)
      requires Valid() && HasRoom()
      requires first < last < |buffers| && Delimited(format.delimiter, buffers[first]) && Delimited(format.delimiter, buffers[last])
      modifies this`raw, this`currentTupleStart, this`currentTupleEnd, this`numberOfTuples, this`currentFieldOffset, this`formatted
      ensures Valid() && Output() == old(Output()) + [SpanText(buffers, first, last)]
      ensures formatted.numberOfTuples == old(formatted.numberOfTuples) && numberOfTuples == old(numberOfTuples) + 1
      ensures isNotEmpty == (SpanText(buffers, first, last) != "")
    {
      hide *;
      var partialTuple := GluePartialTuple(format.delimiter, first, last, buffers);
      isNotEmpty := partialTuple != "";
      FormatTuple(partialTuple);
    }

    method ProcessLeading(index: nat, buffers: seq<StagedBuffer>)
      requires Valid() && HasRoom() && index < |buffers|
      requires Delimited(format.delimiter, buffers[0]) && Delimited(format.delimiter, buffers[index])
      modifies this`raw, this`currentTupleStart, this`currentTupleEnd, this`numberOfTuples, this`currentFieldOffset, this`formatted
      ensures Valid() && Output() == old(Output()) + LeadingTuple(buffers, index)
    {
      hide Valid, Output, SpanText, Delimited;
      if index != 0 {
        var _ := ProcessPartialTuple(0, index, buffers);
      }
    }

    method ProcessTrailing(index: nat, buffers: seq<StagedBuffer>)
      requires Valid() && index < |buffers|
      requires Delimited(format.delimiter, buffers[index]) && Delimited(format.delimiter, buffers[|buffers| - 1])
      modifies this
      ensures Valid() && Output() == old(Output()) + TrailingTuple(buffers, index)
    {
      hide Valid, Output, SpanText, Delimited;
      if index < |buffers| - 1 {
        CheckAndHandleFullBuffer();
        var _ := ProcessPartialTuple(index, |buffers| - 1, buffers);
      }
    }

    /** Passes the current buffer on as the last chunk. */
    method Close(count: nat) returns (chunks: seq<FormattedBuffer>)
      requires Valid() && count == numberOfTuples
      ensures |chunks| == |emitted| + 1 && Numbered(chunks, sequenceNumber, true) && Fit(format, chunks)
      ensures AllTuples(chunks) == Output()
    {
      var final := formatted.(numberOfTuples := count, lastChunk := true);
      AllTuplesExtend(emitted, final);
      chunks := emitted + [final];
    }
  }

  /** Appends the parts of a spanning tuple. */
  method GluePartialTuple(d: char, first: nat, last: nat, buffers: seq<StagedBuffer>) returns (partialTuple: string)
    requires first < last < |buffers| && Delimited(d, buffers[first]) && Delimited(d, buffers[last])
    ensures partialTuple == SpanText(buffers, first, last)
  {
    hide Concat;
    ConcatNothing(buffers, first + 1);
    var firstBuffer := buffers[first];
    partialTuple := "";
    if firstBuffer.buffer.Some? {
      var sizeOfLeadingPartialTuple := firstBuffer.sizeInBytes - (firstBuffer.offsetOfLastDelimiter + 1);
      partialTuple := firstBuffer.buffer.value.bytes[firstBuffer.offsetOfLastDelimiter + 1..]
                        [..sizeOfLeadingPartialTuple];
    }
    for index := first + 1 to last
      invariant partialTuple == Trailing(firstBuffer) + Concat(buffers[first + 1..index])
    {
      ConcatExtend(buffers, first + 1, index);
      partialTuple := partialTuple + Text(buffers[index]);
    }
    partialTuple := partialTuple + Text(buffers[last])[..buffers[last].offsetOfFirstDelimiter];
  }

  /** Finishing the first tuple of a text leaves the tuples of the rest. */
  lemma FinishedStep(d: char, s: string, i: nat, j: nat)
    requires i <= |s| && FindFrom(d, s, i) == Some(j)
    ensures Finished(d, s[i..]) == [s[i..j]] + Finished(d, s[j + 1..])
  {
    var t := s[i..];
    assert t[..j - i] == s[i..j] && t[j - i + 1..] == s[j + 1..];
    SplitFirst(d, t, j - i);
  }

  lemma NothingFinished(d: char, s: string)
    requires d !in s
    ensures Finished(d, s) == []
  {
    SplitPlain(d, s);
  }

  lemma ConcatNothing(buffers: seq<StagedBuffer>, first: nat)
    requires first <= |buffers|
    ensures Concat(buffers[first..first]) == ""
  {
    assert buffers[first..first] == [];
  }

  lemma ConcatExtend(buffers: seq<StagedBuffer>, first: nat, next: nat)
    requires first <= next < |buffers|
    ensures Concat(buffers[first..next + 1]) == Concat(buffers[first..next]) + Text(buffers[next])
  {
    assert buffers[first..next + 1][..next - first] == buffers[first..next];
  }

  // -------------------------------------------------- formatting what a call got

  /** The spanning tuple that ends in the buffer at `index`, if its first buffer is there. */
  function LeadingTuple(buffers: seq<StagedBuffer>, index: nat): (r: seq<string>)
    requires index < |buffers|
  {
    if index == 0 then [] else [SpanText(buffers, 0, index)]
  }

  /** The spanning tuple that starts in the buffer at `index`, if its last buffer is there. */
  function TrailingTuple(buffers: seq<StagedBuffer>, index: nat): (r: seq<string>)
    requires index < |buffers|
  {
    if index == |buffers| - 1 then [] else [SpanText(buffers, index, |buffers| - 1)]
  }

  /** The tuples of a call whose buffer, the one at `index`, holds a delimiter. */
  function TuplesOf(d: char, buffers: seq<StagedBuffer>, index: nat): (r: seq<string>)
    requires index < |buffers|
  {
    LeadingTuple(buffers, index) + Inner(d, buffers[index]) + TrailingTuple(buffers, index)
  }

  /** A single delimiter leaves no tuple inside the buffer. */
  lemma SingleDelimiter(d: char, b: StagedBuffer)
    requires Delimited(d, b)
    ensures b.buffer.Some? && b.offsetOfFirstDelimiter == b.offsetOfLastDelimiter ==> Inner(d, b) == []
  {
    if b.buffer.Some? && b.offsetOfFirstDelimiter == b.offsetOfLastDelimiter {
      NothingFinished(d, Text(b)[b.offsetOfFirstDelimiter + 1..]);
    }
  }

  /** The leading spanning tuple, the tuples inside the buffer, the trailing
      spanning tuple; nothing if there is none of them. */
  method FormatWithDelimiter(format: Format, sequenceNumber: nat, index: nat, buffers: seq<StagedBuffer>)
    returns (chunks: seq<FormattedBuffer>)
    requires FormatOk(format) && index < |buffers| && buffers[index].buffer.Some?
    requires Delimited(format.delimiter, buffers[0]) && Delimited(format.delimiter, buffers[|buffers| - 1])
    requires Delimited(format.delimiter, buffers[index])
    ensures AllTuples(chunks) == TuplesOf(format.delimiter, buffers, index)
    ensures Numbered(chunks, sequenceNumber, true) && Fit(format, chunks)
    ensures chunks == [] <==> |buffers| == 1 && buffers[0].offsetOfFirstDelimiter == buffers[0].offsetOfLastDelimiter
  {
    hide Inner, SpanText, Numbered, Fit, ProgressTracker.Valid, ProgressTracker.Output, FindFrom, Finished, FormatOk, Delimited,
         AllTuples, LeadingTuple, TrailingTuple;
    if |buffers| == 1 && buffers[0].offsetOfFirstDelimiter == buffers[0].offsetOfLastDelimiter {
      NothingToFormat(format.delimiter, buffers);
      NoChunks(format, sequenceNumber);
      return [];
    }
    var tracker := new ProgressTracker(format, sequenceNumber);
    var buffer := buffers[index];
    InnerOf(format.delimiter, buffer);
    tracker.ResetForNewRawTB(buffer.buffer.value.bytes, 0);
    tracker.ProcessLeading(index, buffers);
    tracker.ResetForNewRawTB(buffer.buffer.value.bytes, buffer.offsetOfFirstDelimiter + 1);
    tracker.ProcessCurrentBuffer();
    tracker.ProcessTrailing(index, buffers);
    chunks := tracker.Close(tracker.numberOfTuples);
  }

  lemma NothingToFormat(d: char, buffers: seq<StagedBuffer>)
    requires |buffers| == 1 && buffers[0].buffer.Some? && Delimited(d, buffers[0])
    requires buffers[0].offsetOfFirstDelimiter == buffers[0].offsetOfLastDelimiter
    ensures TuplesOf(d, buffers, 0) == []
  {
    SingleDelimiter(d, buffers[0]);
  }

  lemma NoChunks(format: Format, sequenceNumber: nat)
    ensures Numbered([], sequenceNumber, true) && Fit(format, []) && AllTuples([]) == []
  {
  }

  lemma InnerOf(d: char, b: StagedBuffer)
    requires Delimited(d, b) && b.buffer.Some?
    ensures b.offsetOfFirstDelimiter < |Text(b)| && Inner(d, b) == Finished(d, Text(b)[b.offsetOfFirstDelimiter + 1..])
  {
  }

  /** A buffer without a delimiter contributes the spanning tuple it completed, if any. */
  method FormatWithoutDelimiter(format: Format, sequenceNumber: nat, raw: string, buffers: seq<StagedBuffer>)
    returns (chunks: seq<FormattedBuffer>)
    requires FormatOk(format)
    requires |buffers| >= 2 ==>
      Delimited(format.delimiter, buffers[0]) && Delimited(format.delimiter, buffers[|buffers| - 1])
    ensures AllTuples(chunks) == if |buffers| < 3 then [] else [SpanText(buffers, 0, |buffers| - 1)]
    ensures Numbered(chunks, sequenceNumber, true) && Fit(format, chunks)
    ensures |chunks| == if |buffers| < 3 then 0 else 1
  {
    if |buffers| < 3 {
      return [];
    }
    var tracker := new ProgressTracker(format, sequenceNumber);
    tracker.ResetForNewRawTB(raw, 0);
    var _ := tracker.ProcessPartialTuple(0, |buffers| - 1, buffers);
    chunks := tracker.Close(tracker.formatted.numberOfTuples + 1);
  }

  /** The flush passes on the last tuple unless its text is empty. */
  method FlushFinalTuple(format: Format, sequenceNumber: nat, buffers: seq<StagedBuffer>)
    returns (chunks: seq<FormattedBuffer>)
    requires FormatOk(format) && |buffers| > 0
    requires Delimited(format.delimiter, buffers[0]) && Delimited(format.delimiter, buffers[|buffers| - 1])
    ensures AllTuples(chunks) == if |buffers| == 1 || SpanText(buffers, 0, |buffers| - 1) == ""
                                 then [] else [SpanText(buffers, 0, |buffers| - 1)]
    ensures Numbered(chunks, sequenceNumber, true) && Fit(format, chunks)
    ensures |chunks| == if |buffers| == 1 || SpanText(buffers, 0, |buffers| - 1) == "" then 0 else 1
  {
    if |buffers| == 1 {
      return [];
    }
    var tracker := new ProgressTracker(format, sequenceNumber);
    var isNotEmpty := tracker.ProcessPartialTuple(0, |buffers| - 1, buffers);
    if !isNotEmpty {
      return [];
    }
    chunks := tracker.Close(tracker.formatted.numberOfTuples + 1);
  }
}
