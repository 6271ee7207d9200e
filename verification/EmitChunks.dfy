/** The emit operator's chunk numbers: workers process the input chunks of one
    sequence number in parallel and number the output chunks of it. */
module EmitChunks {
  import opened Options

  datatype Key = Key(sequenceNumber: nat, originId: nat)

  datatype SequenceState = SequenceState(lastChunkNumber: nat, seenChunks: nat)

  function CountOf(m: map<Key, nat>, key: Key): (n: nat) {
    if key in m then m[key] else 0
  }

  function StateOf(m: map<Key, SequenceState>, key: Key): (s: SequenceState) {
    if key in m then m[key] else SequenceState(0, 0)
  }

  /** The state after one more input chunk was closed. */
  function Seen(s: SequenceState, chunkNumber: nat, isLastChunk: bool): (r: SequenceState) {
    SequenceState(if isLastChunk then chunkNumber else s.lastChunkNumber, s.seenChunks + 1)
  }

  /** Each method is one section under the lock of one map. */
  class EmitOperatorHandler {
    var inputChunks: map<Key, SequenceState>
    var outputChunkNumbers: map<Key, nat>

    constructor ()
      ensures inputChunks == map[] && outputChunkNumbers == map[]
    {
      inputChunks, outputChunkNumbers := map[], map[];
    }

    method GetNextChunkNumber(key: Key) returns (n: nat)
      modifies this`outputChunkNumbers
      ensures n == CountOf(old(outputChunkNumbers), key) + 1
      ensures outputChunkNumbers == old(outputChunkNumbers)[key := n]
    {
      n := CountOf(outputChunkNumbers, key) + 1;
      outputChunkNumbers := outputChunkNumbers[key := CountOf(outputChunkNumbers, key) + 1];
    }

    method ProcessChunkNumber(key: Key, chunkNumber: nat, isLastChunk: bool) returns (isLast: bool)
      modifies this`inputChunks
      ensures inputChunks == old(inputChunks)[key := Seen(StateOf(old(inputChunks), key), chunkNumber, isLastChunk)]
      ensures isLast == (inputChunks[key].seenChunks == inputChunks[key].lastChunkNumber)
    {
      var state := StateOf(inputChunks, key);
      if isLastChunk {
        state := state.(lastChunkNumber := chunkNumber);
      }
      state := state.(seenChunks := state.seenChunks + 1);
      inputChunks := inputChunks[key := state];
      return state.seenChunks == state.lastChunkNumber;
    }

    method RemoveOutputState(key: Key)
      modifies this`outputChunkNumbers
      ensures outputChunkNumbers == old(outputChunkNumbers) - {key}
    {
      outputChunkNumbers := outputChunkNumbers - {key};
    }

    method RemoveInputState(key: Key)
      modifies this`inputChunks
      ensures inputChunks == old(inputChunks) - {key}
    {
      inputChunks := inputChunks - {key};
    }
  }

  // ---------------------------------------------------------- one worker's buffers

  /** An output buffer: its records, its chunk number and the last-chunk flag. */
  datatype Output<R> = Output(records: seq<R>, chunkNumber: nat, lastChunk: bool)

  ghost function AllRecords<R>(outputs: seq<Output<R>>): (r: seq<R>) {
    if outputs == [] then [] else AllRecords(outputs[..|outputs| - 1]) + outputs[|outputs| - 1].records
  }

  lemma AllRecordsExtend<R>(outputs: seq<Output<R>>, o: Output<R>)
    ensures AllRecords(outputs + [o]) == AllRecords(outputs) + o.records
  {
    assert (outputs + [o])[..|outputs|] == outputs;
  }

  lemma SetAndRemove<V>(m: map<Key, V>, key: Key, v: V)
    ensures m[key := v] - {key} == m - {key}
  {
  }

  /** The emit operator while it is open on one input chunk. */
  class EmitPhysicalOperator<R> {
    const handler: EmitOperatorHandler
    const key: Key
    const chunkNumber: nat
    const isLastChunk: bool
    const capacity: nat
    var resultBuffer: seq<R>
    var outputs: seq<Output<R>>
    ghost var records: seq<R>        // everything executed so far

    ghost predicate Valid()
      reads this
    {
      && capacity > 0 && |resultBuffer| <= capacity
      && records == AllRecords(outputs) + resultBuffer
      && forall i | 0 <= i < |outputs| :: |outputs[i].records| == capacity && !outputs[i].lastChunk
    }

    constructor (handler: EmitOperatorHandler, key: Key, chunkNumber: nat, isLastChunk: bool, capacity: nat)
      requires capacity > 0
      ensures Valid() && outputs == [] && records == []
      ensures this.handler == handler && this.key == key && this.chunkNumber == chunkNumber && this.isLastChunk == isLastChunk
      ensures this.capacity == capacity
    {
      this.handler, this.key, this.chunkNumber, this.isLastChunk, this.capacity := handler, key, chunkNumber, isLastChunk, capacity;
      resultBuffer, outputs, records := [], [], [];
    }

    /** Writes a record; a full buffer is emitted first, under the next number and not as the last chunk. */
    method Execute(record: R)
      requires Valid()
      modifies this, handler`outputChunkNumbers
      ensures Valid() && records == old(records) + [record]
      ensures if |old(resultBuffer)| < capacity
              then outputs == old(outputs) && handler.outputChunkNumbers == old(handler.outputChunkNumbers)
              else var n := CountOf(old(handler.outputChunkNumbers), key) + 1;
                   && outputs == old(outputs) + [Output(old(resultBuffer), n, false)]
                   && handler.outputChunkNumbers == old(handler.outputChunkNumbers)[key := n]
    {
      if |resultBuffer| >= capacity {
        EmitFullBuffer();
      }
      resultBuffer := resultBuffer + [record];
      records := records + [record];
    }

    method EmitFullBuffer()
      requires Valid() && |resultBuffer| == capacity
      modifies this`resultBuffer, this`outputs, handler`outputChunkNumbers
      ensures Valid() && resultBuffer == []
      ensures var n := CountOf(old(handler.outputChunkNumbers), key) + 1;
              && outputs == old(outputs) + [Output(old(resultBuffer), n, false)]
              && handler.outputChunkNumbers == old(handler.outputChunkNumbers)[key := n]
    {
      hide AllRecords, CountOf;
      var n := handler.GetNextChunkNumber(key);
      var full := Output(resultBuffer, n, false);
      AllRecordsExtend(outputs, full);
      assert AllRecords(outputs + [full]) + [] == records;
      outputs := outputs + [full];
      resultBuffer := [];
    }

    /** Emits the rest, without interference: takes the next number, counts the
        input chunk, and clears the sequence's state if it was the last one. */
    method Close() returns (all: seq<Output<R>>)
      requires Valid()
      modifies handler
      ensures AllRecords(all) == records && |all| == |outputs| + 1
      ensures all[..|outputs|] == outputs && |all[|outputs|].records| <= capacity
      ensures all[|outputs|].chunkNumber == CountOf(old(handler.outputChunkNumbers), key) + 1
      ensures var s := Seen(StateOf(old(handler.inputChunks), key), chunkNumber, isLastChunk);
              && all[|outputs|].lastChunk == (s.seenChunks == s.lastChunkNumber)
              && (all[|outputs|].lastChunk ==>
                    handler.inputChunks == old(handler.inputChunks) - {key}
                    && handler.outputChunkNumbers == old(handler.outputChunkNumbers) - {key})
              && (!all[|outputs|].lastChunk ==>
                    handler.inputChunks == old(handler.inputChunks)[key := s]
                    && handler.outputChunkNumbers == old(handler.outputChunkNumbers)[key := all[|outputs|].chunkNumber])
    {
      hide AllRecords, CountOf, StateOf;
      var n := handler.GetNextChunkNumber(key);
      var isLast := handler.ProcessChunkNumber(key, chunkNumber, isLastChunk);
      if isLast {
        SetAndRemove(old(handler.outputChunkNumbers), key, n);
        SetAndRemove(old(handler.inputChunks), key, handler.inputChunks[key]);
        handler.RemoveOutputState(key);
        handler.RemoveInputState(key);
      }
      AllRecordsExtend(outputs, Output(resultBuffer, n, isLast));
      all := outputs + [Output(resultBuffer, n, isLast)];
    }
  }

  // ------------------------------------------------------------- interleaved workers

  /** The worker on one input chunk: it emits full buffers, takes a number for its
      closing buffer, counts the chunk; the one that completes the sequence
      clears both maps. */
  datatype Worker = Open | Numbered(n: nat) | Last(n: nat) | Clearing(n: nat) | Done(n: nat, flagged: bool)

  /** One key: its entries in the two maps, the workers on its input chunks, the
      numbers on the full buffers that each of them has emitted, and all numbers
      given out.  Worker `i` processes input chunk `i + 1`. */
  datatype Sequence = Sequence(
    output: Option<nat>, input: Option<SequenceState>, workers: seq<Worker>, emitted: seq<seq<nat>>, given: seq<nat>)

  datatype Action = Emit(i: nat) | Number(i: nat) | Count(i: nat) | ClearOutput(i: nat) | ClearInput(i: nat)

  function Entry(o: Option<nat>): (n: nat) { if o.Some? then o.value else 0 }
  function InputEntry(o: Option<SequenceState>): (s: SequenceState) { if o.Some? then o.value else SequenceState(0, 0) }

  function GiveNumber(q: Sequence): (r: Sequence) {
    q.(output := Some(Entry(q.output) + 1), given := q.given + [Entry(q.output) + 1])
  }

  /** The worker emits a full buffer with this number. */
  function Record(q: Sequence, i: nat, n: nat): (r: Sequence) {
    if i < |q.emitted| then q.(emitted := q.emitted[i := q.emitted[i] + [n]]) else q
  }

  function Move(q: Sequence, i: nat, worker: Worker): (r: Sequence)
    requires i < |q.workers|
  {
    q.(workers := q.workers[i := worker])
  }

  /** One section under a lock; the input chunk with the highest number is flagged as last. */
  function Next(q: Sequence, a: Action): (r: Sequence) {
    var i := a.i;
    if i >= |q.workers| then q
    else match (a, q.workers[i])
      case (Emit(_), Open) => Record(GiveNumber(q), i, Entry(q.output) + 1)
      case (Number(_), Open) => Move(GiveNumber(q), i, Numbered(Entry(q.output) + 1))
      case (Count(_), Numbered(n)) =>
        var s := Seen(InputEntry(q.input), i + 1, i + 1 == |q.workers|);
        Move(q.(input := Some(s)), i, if s.seenChunks == s.lastChunkNumber then Last(n) else Done(n, false))
      case (ClearOutput(_), Last(n)) => Move(q.(output := None), i, Clearing(n))
      case (ClearInput(_), Clearing(n)) => Move(q.(input := None), i, Done(n, true))
      case _ => q
  }

  function Initial(chunks: nat): (q: Sequence) {
    Sequence(None, None, seq(chunks, i => Open), seq(chunks, i => []), [])
  }

  ghost function Run(chunks: nat, actions: seq<Action>): (q: Sequence) {
    if actions == [] then Initial(chunks) else Next(Run(chunks, actions[..|actions| - 1]), actions[|actions| - 1])
  }

  // -------------------------------------------------------------------- invariant

  predicate IsCounted(w: Worker) { !w.Open? && !w.Numbered? }

  /** The worker was told that it completes the sequence. */
  predicate Completes(w: Worker) { w.Last? || w.Clearing? || (w.Done? && w.flagged) }

  function NumberCounted(workers: seq<Worker>): (n: nat)
    ensures n <= |workers|
    ensures n == |workers| <==> forall i | 0 <= i < |workers| :: IsCounted(workers[i])
  {
    if workers == [] then 0
    else NumberCounted(workers[..|workers| - 1]) + (if IsCounted(workers[|workers| - 1]) then 1 else 0)
  }

  lemma {:induction false} CountChange(workers: seq<Worker>, i: nat, w: Worker)
    requires i < |workers|
    ensures NumberCounted(workers[i := w]) == NumberCounted(workers)
              + (if IsCounted(w) then 1 else 0) - (if IsCounted(workers[i]) then 1 else 0)
  {
    var k := |workers| - 1;
    if i < k {
      CountChange(workers[..k], i, w);
      assert workers[i := w][..k] == workers[..k][i := w];
    } else {
      assert workers[i := w][..k] == workers[..k];
    }
  }

  /** The numbers given out are one, two, three and so on. */
  ghost predicate Consecutive(given: seq<nat>) {
    forall i | 0 <= i < |given| :: given[i] == i + 1
  }

  ghost predicate Nobody(workers: seq<Worker>) {
    forall i | 0 <= i < |workers| :: !Completes(workers[i])
  }

  /** One worker completes the sequence, when all chunks are counted and not before. */
  ghost predicate OneCompletes(workers: seq<Worker>) {
    && (forall i, j | 0 <= i < j < |workers| :: !(Completes(workers[i]) && Completes(workers[j])))
    && (NumberCounted(workers) == |workers| || Nobody(workers))
    && (NumberCounted(workers) == |workers| > 0 ==> !Nobody(workers))
  }

  /** The input entry counts the closed chunks and knows the last one. */
  ghost predicate InputOk(q: Sequence) {
    InputEntry(q.input) ==
      SequenceState(if q.workers != [] && IsCounted(q.workers[|q.workers| - 1]) then |q.workers| else 0, NumberCounted(q.workers))
  }

  /** What the maps hold, by whether a worker has begun to clear them. */
  ghost predicate MapsOk(q: Sequence) {
    && (forall i | 0 <= i < |q.workers| && q.workers[i].Done? && q.workers[i].flagged :: q.output == None && q.input == None)
    && (forall i | 0 <= i < |q.workers| && q.workers[i].Clearing? :: q.output == None)
    && (Nobody(q.workers) ==> InputOk(q) && Entry(q.output) == |q.given|)
  }

  ghost predicate Inv(q: Sequence) {
    Consecutive(q.given) && MapsOk(q) && OneCompletes(q.workers)
  }

  lemma NobodyYet(workers: seq<Worker>, i: nat)
    requires OneCompletes(workers) && i < |workers| && !IsCounted(workers[i])
    ensures Nobody(workers) && NumberCounted(workers) < |workers|
  {
  }

  lemma GiveKeepsInv(q: Sequence, i: nat)
    requires Inv(q) && i < |q.workers| && q.workers[i].Open?
    ensures Inv(Next(q, Emit(i))) && Inv(Next(q, Number(i)))
    ensures Entry(q.output) == |q.given|
  {
    hide NumberCounted;
    NobodyYet(q.workers, i);
    var r := Next(q, Number(i));
    CountChange(q.workers, i, r.workers[i]);
    StillNobody(q.workers, i, r.workers[i]);
  }

  lemma StillNobody(workers: seq<Worker>, i: nat, w: Worker)
    requires Nobody(workers) && i < |workers| && !Completes(w)
    ensures Nobody(workers[i := w])
  {
  }

  lemma CountKeepsInv(q: Sequence, i: nat)
    requires Inv(q) && i < |q.workers| && q.workers[i].Numbered?
    ensures Inv(Next(q, Count(i)))
    ensures Completes(Next(q, Count(i)).workers[i]) <==> NumberCounted(Next(q, Count(i)).workers) == |q.workers|
  {
    NobodyYet(q.workers, i);
    var r := Next(q, Count(i));
    var w := r.workers[i];
    CountChange(q.workers, i, w);
    CountMaps(q, i);
    if Completes(w) {
      OnlyOne(q.workers, i, w);
    } else {
      StillNobody(q.workers, i, w);
    }
  }

  lemma CountMaps(q: Sequence, i: nat)
    requires InputOk(q) && i < |q.workers| && q.workers[i].Numbered? && NumberCounted(q.workers) < |q.workers|
    ensures var r := Next(q, Count(i));
            && InputOk(r) && r.output == q.output && r.given == q.given
            && (r.workers[i].Last? || r.workers[i] == Done(q.workers[i].n, false))
            && (r.workers[i].Last? <==> NumberCounted(r.workers) == |q.workers|)
  {
    var r := Next(q, Count(i));
    CountChange(q.workers, i, r.workers[i]);
    LastIsCounted(r.workers);
  }

  lemma LastIsCounted(workers: seq<Worker>)
    ensures workers != [] && NumberCounted(workers) == |workers| ==> IsCounted(workers[|workers| - 1])
  {
  }

  lemma OnlyOne(workers: seq<Worker>, i: nat, w: Worker)
    requires Nobody(workers) && i < |workers| && Completes(w) && NumberCounted(workers[i := w]) == |workers|
    ensures OneCompletes(workers[i := w]) && !Nobody(workers[i := w])
  {
    assert Completes(workers[i := w][i]);
  }

  /** The completing worker moves on. */
  lemma StillOne(workers: seq<Worker>, i: nat, w: Worker)
    requires OneCompletes(workers) && i < |workers| && Completes(workers[i]) && Completes(w)
    ensures OneCompletes(workers[i := w]) && !Nobody(workers[i := w])
  {
    CountChange(workers, i, w);
    assert Completes(workers[i := w][i]);
  }

  lemma ClearKeepsInv(q: Sequence, i: nat)
    requires Inv(q) && i < |q.workers|
    ensures Inv(Next(q, ClearOutput(i))) && Inv(Next(q, ClearInput(i)))
  {
    hide NumberCounted;
    if q.workers[i].Last? {
      StillOne(q.workers, i, Clearing(q.workers[i].n));
      assert forall j | 0 <= j < |q.workers| && j != i :: !Completes(q.workers[j]);
    } else if q.workers[i].Clearing? {
      StillOne(q.workers, i, Done(q.workers[i].n, true));
      assert forall j | 0 <= j < |q.workers| && j != i :: !Completes(q.workers[j]);
    }
  }

  lemma NextKeepsInv(q: Sequence, a: Action)
    requires Inv(q)
    ensures Inv(Next(q, a)) && |Next(q, a).workers| == |q.workers|
  {
    hide Inv;
    if a.i < |q.workers| {
      match a
      case Emit(i) => if q.workers[i].Open? { GiveKeepsInv(q, i); }
      case Number(i) => if q.workers[i].Open? { GiveKeepsInv(q, i); }
      case Count(i) => if q.workers[i].Numbered? { CountKeepsInv(q, i); }
      case ClearOutput(i) => ClearKeepsInv(q, i);
      case ClearInput(i) => ClearKeepsInv(q, i);
    }
  }

  lemma {:induction false} RunKeepsInv(chunks: nat, actions: seq<Action>)
    ensures Inv(Run(chunks, actions)) && |Run(chunks, actions).workers| == chunks
  {
    hide Inv, Next;
    if actions == [] {
      InitialInv(chunks);
    } else {
      RunKeepsInv(chunks, actions[..|actions| - 1]);
      NextKeepsInv(Run(chunks, actions[..|actions| - 1]), actions[|actions| - 1]);
    }
  }

  lemma InitialInv(chunks: nat)
    ensures Inv(Initial(chunks))
  {
    NothingCounted(Initial(chunks).workers);
  }

  lemma {:induction false} NothingCounted(workers: seq<Worker>)
    requires forall i | 0 <= i < |workers| :: workers[i] == Open
    ensures NumberCounted(workers) == 0
  {
    if workers != [] {
      NothingCounted(workers[..|workers| - 1]);
    }
  }

  // ------------------------------------------------------- the numbers on the outputs

  /** The number on the worker's closing buffer, once it has one. */
  function Closing(w: Worker): (r: seq<nat>) {
    if w.Open? then [] else [w.n]
  }

  /** The numbers on all buffers of the first `k` workers. */
  function NumbersOf(q: Sequence, k: nat): (r: multiset<nat>)
    requires k <= |q.workers| == |q.emitted|
  {
    if k == 0 then multiset{} else NumbersOf(q, k - 1) + multiset(q.emitted[k - 1]) + multiset(Closing(q.workers[k - 1]))
  }

  lemma {:induction false} SameNumbers(q: Sequence, r: Sequence, k: nat)
    requires k <= |q.workers| == |q.emitted| == |r.workers| == |r.emitted|
    requires forall j | 0 <= j < k :: r.emitted[j] == q.emitted[j] && Closing(r.workers[j]) == Closing(q.workers[j])
    ensures NumbersOf(r, k) == NumbersOf(q, k)
  {
    if k > 0 {
      SameNumbers(q, r, k - 1);
    }
  }

  /** One worker gets one more number. */
  lemma {:induction false} OneMoreNumber(q: Sequence, r: Sequence, k: nat, i: nat, n: nat)
    requires k <= |q.workers| == |q.emitted| == |r.workers| == |r.emitted| && i < k
    requires forall j | 0 <= j < k && j != i :: r.emitted[j] == q.emitted[j] && Closing(r.workers[j]) == Closing(q.workers[j])
    requires multiset(r.emitted[i]) + multiset(Closing(r.workers[i]))
          == multiset(q.emitted[i]) + multiset(Closing(q.workers[i])) + multiset{n}
    ensures NumbersOf(r, k) == NumbersOf(q, k) + multiset{n}
  {
    hide Closing;
    var e, c := multiset(q.emitted[k - 1]), multiset(Closing(q.workers[k - 1]));
    var e', c' := multiset(r.emitted[k - 1]), multiset(Closing(r.workers[k - 1]));
    if i == k - 1 {
      SameNumbers(q, r, k - 1);
      AddLast(NumbersOf(q, k - 1), e, c, e', c', multiset{n});
    } else {
      OneMoreNumber(q, r, k - 1, i, n);
      AddFirst(NumbersOf(q, k - 1), e, c, multiset{n});
    }
  }

  lemma AddLast(m: multiset<nat>, e: multiset<nat>, c: multiset<nat>, e': multiset<nat>, c': multiset<nat>, n: multiset<nat>)
    requires e' + c' == e + c + n
    ensures m + e' + c' == m + e + c + n
  {
    assert m + e' + c' == m + (e' + c');
    assert m + e + c + n == m + (e + c + n);
  }

  lemma AddFirst(m: multiset<nat>, e: multiset<nat>, c: multiset<nat>, n: multiset<nat>)
    ensures m + n + e + c == m + e + c + n
  {
  }

  /** The buffers carry exactly the numbers that were given out. */
  ghost predicate OutputsOk(q: Sequence) {
    |q.workers| == |q.emitted| && NumbersOf(q, |q.workers|) == multiset(q.given)
  }

  lemma NextKeepsOutputs(q: Sequence, a: Action)
    requires OutputsOk(q)
    ensures OutputsOk(Next(q, a))
  {
    hide Next, NumbersOf, Closing;
    var r, i := Next(q, a), a.i;
    if r != q {
      NextOutputs(q, a);
      if a.Emit? || a.Number? {
        var n := Entry(q.output) + 1;
        GivenMore(q.given, n);
        OneMoreNumber(q, r, |q.workers|, i, n);
      } else {
        SameNumbers(q, r, |q.workers|);
      }
    }
  }

  lemma GivenMore(given: seq<nat>, n: nat)
    ensures multiset(given + [n]) == multiset(given) + multiset{n}
  {
  }

  /** What a step changes on the buffers. */
  lemma NextOutputs(q: Sequence, a: Action)
    requires |q.workers| == |q.emitted| && Next(q, a) != q
    ensures var r, i := Next(q, a), a.i;
            && i < |q.workers| == |q.emitted| == |r.workers| == |r.emitted|
            && (forall j | 0 <= j < |q.workers| && j != i ::
                  r.emitted[j] == q.emitted[j] && Closing(r.workers[j]) == Closing(q.workers[j]))
            && (if a.Emit? || a.Number? then
                  var n: nat := Entry(q.output) + 1;
                  && r.given == q.given + [n]
                  && multiset(r.emitted[i]) + multiset(Closing(r.workers[i]))
                       == multiset(q.emitted[i]) + multiset(Closing(q.workers[i])) + multiset{n}
                else r.given == q.given && r.emitted == q.emitted && Closing(r.workers[i]) == Closing(q.workers[i]))
  {
    if a.Emit? {
      GivenMore(q.emitted[a.i], Entry(q.output) + 1);
    }
  }

  lemma {:induction false} NothingNumbered(q: Sequence, k: nat)
    requires k <= |q.workers| == |q.emitted|
    requires forall j | 0 <= j < k :: q.emitted[j] == [] && q.workers[j].Open?
    ensures NumbersOf(q, k) == multiset{}
  {
    if k > 0 {
      NothingNumbered(q, k - 1);
    }
  }

  lemma {:induction false} RunKeepsOutputs(chunks: nat, actions: seq<Action>)
    ensures OutputsOk(Run(chunks, actions))
  {
    hide Next, OutputsOk;
    if actions == [] {
      NothingNumbered(Initial(chunks), chunks);
      InitialOutputs(chunks);
    } else {
      RunKeepsOutputs(chunks, actions[..|actions| - 1]);
      NextKeepsOutputs(Run(chunks, actions[..|actions| - 1]), actions[|actions| - 1]);
    }
  }

  lemma InitialOutputs(chunks: nat)
    requires NumbersOf(Initial(chunks), chunks) == multiset{}
    ensures OutputsOk(Initial(chunks))
  {
  }

  /** A list that counts up from one has every number up to its length once. */
  lemma {:induction false} CountsUp(given: seq<nat>, n: nat)
    requires Consecutive(given)
    ensures multiset(given)[n] == if 1 <= n <= |given| then 1 else 0
  {
    if given != [] {
      var k := |given| - 1;
      CountsUp(given[..k], n);
      assert given == given[..k] + [given[k]];
    }
  }

  // --------------------------------------------------------------------- theorems

  ghost predicate AllDone(q: Sequence) {
    forall i | 0 <= i < |q.workers| :: q.workers[i].Done?
  }

  predicate Flagged(w: Worker) { w.Done? && w.flagged }

  /** For every interleaving: the buffers of all workers carry exactly the numbers
      1..N, each once; when all workers are done, exactly one output is flagged as
      last and both maps have no entry for the sequence any more. */
  lemma ChunkNumbersAreComplete(chunks: nat, actions: seq<Action>)
    requires chunks > 0
    ensures var q := Run(chunks, actions);
            && |q.workers| == |q.emitted| == chunks && Consecutive(q.given)
            && (forall n: nat :: NumbersOf(q, chunks)[n] == if 1 <= n <= |q.given| then 1 else 0)
            && (AllDone(q) ==>
                  && q.output == None && q.input == None
                  && (exists i :: 0 <= i < |q.workers| && Flagged(q.workers[i]))
                  && (forall i, j | 0 <= i < j < |q.workers| :: !(Flagged(q.workers[i]) && Flagged(q.workers[j]))))
  {
    hide Run, NumbersOf;
    RunKeepsInv(chunks, actions);
    RunKeepsOutputs(chunks, actions);
    var q := Run(chunks, actions);
    forall n: nat ensures NumbersOf(q, chunks)[n] == if 1 <= n <= |q.given| then 1 else 0 {
      CountsUp(q.given, n);
    }
    if AllDone(q) {
      assert forall i | 0 <= i < |q.workers| :: IsCounted(q.workers[i]);
      assert NumberCounted(q.workers) == |q.workers|;
      var i :| 0 <= i < |q.workers| && Completes(q.workers[i]);
      assert Flagged(q.workers[i]);
    }
  }

  ghost function RunFrom(q: Sequence, actions: seq<Action>): (r: Sequence) {
    if actions == [] then q else Next(RunFrom(q, actions[..|actions| - 1]), actions[|actions| - 1])
  }

  ghost predicate AllCounted(q: Sequence) {
    forall i | 0 <= i < |q.workers| :: IsCounted(q.workers[i])
  }

  /** When every worker has counted its chunk, no number is given out any more. */
  lemma {:induction false} NoNumberFollows(q: Sequence, later: seq<Action>, i: nat)
    requires AllCounted(q) && i < |q.workers|
    ensures var r := RunFrom(q, later);
            && AllCounted(r) && r.given == q.given && |r.workers| == |q.workers|
            && r.workers[i].n == q.workers[i].n && Completes(r.workers[i]) == Completes(q.workers[i])
  {
    if later != [] {
      NoNumberFollows(q, later[..|later| - 1], i);
    }
  }

  /** If a close takes its number and counts its chunk in one step, the flagged
      buffer has the highest number in every continuation. */
  lemma AtomicCloseIsLast(chunks: nat, actions: seq<Action>, i: nat, later: seq<Action>)
    requires var q := Run(chunks, actions);
             i < |q.workers| && q.workers[i].Open? && Completes(Next(Next(q, Number(i)), Count(i)).workers[i])
    ensures var q := Next(Next(Run(chunks, actions), Number(i)), Count(i));
            var r := RunFrom(q, later);
            && q.workers[i] == Last(|q.given|)
            && r.given == q.given && i < |r.workers|
            && (AllDone(r) ==> r.workers[i] == Done(|r.given|, true))
  {
    hide Run, RunFrom;
    RunKeepsInv(chunks, actions);
    var q := Run(chunks, actions);
    GiveKeepsInv(q, i);
    var r := Next(q, Number(i));
    CountKeepsInv(r, i);
    NoNumberFollows(Next(r, Count(i)), later, i);
  }

  /** In all runs with that many input chunks the flagged buffer has the highest number. */
  ghost predicate FlagAlwaysHighest(chunks: nat) {
    forall actions, i | AllDone(Run(chunks, actions)) && 0 <= i < |Run(chunks, actions).workers|
                        && Flagged(Run(chunks, actions).workers[i]) ::
      Run(chunks, actions).workers[i].n == |Run(chunks, actions).given|
  }

  /** Exactly when the flag is always on the highest number: there is only one input chunk. */
  lemma FlagIsHighest(chunks: nat)
    ensures FlagAlwaysHighest(chunks) <==> chunks <= 1
  {
    if chunks <= 1 {
      forall actions, i | AllDone(Run(chunks, actions)) && 0 <= i < |Run(chunks, actions).workers|
                          && Flagged(Run(chunks, actions).workers[i])
        ensures Run(chunks, actions).workers[i].n == |Run(chunks, actions).given|
      {
        RunKeepsInv(chunks, actions);
        OneWorker(actions);
      }
    } else {
      var actions := FlagPrecedesLastNumber(chunks);
      var q := Run(chunks, actions);
      assert AllDone(q) && Flagged(q.workers[0]) && q.workers[0].n != |q.given|;
    }
  }

  /** A single worker has the last number from its close on. */
  lemma {:induction false} OneWorker(actions: seq<Action>)
    ensures var q := Run(1, actions);
            |q.workers| == 1 && (q.workers[0].Open? || q.workers[0].n == |q.given|)
  {
    if actions != [] {
      var before := actions[..|actions| - 1];
      OneWorker(before);
      RunKeepsInv(1, before);
      if Run(1, before).workers[0].Open? {
        GiveKeepsInv(Run(1, before), 0);
      }
    }
  }

  lemma Continue(chunks: nat, actions: seq<Action>, a: Action)
    ensures Run(chunks, actions + [a]) == Next(Run(chunks, actions), a)
  {
    assert (actions + [a])[..|actions|] == actions;
  }

  /** Worker 0 has taken number one, the workers below `k` are done after it, the others are open. */
  ghost predicate Overtaken(q: Sequence, k: nat) {
    && 1 <= k <= |q.workers| && q.workers[0] == Numbered(1) && |q.given| >= k
    && (forall j | 1 <= j < k :: q.workers[j].Done? && !q.workers[j].flagged)
    && (forall j | k <= j < |q.workers| :: q.workers[j].Open?)
  }

  /** The other workers close one after the other. */
  lemma {:induction false} CloseOthers(chunks: nat, actions: seq<Action>, k: nat) returns (more: seq<Action>)
    requires Overtaken(Run(chunks, actions), k) && |Run(chunks, actions).workers| == chunks
    ensures Overtaken(Run(chunks, more), chunks) && |Run(chunks, more).workers| == chunks
    decreases chunks - k
  {
    hide Run, Next;
    if k == chunks {
      more := actions;
    } else {
      RunKeepsInv(chunks, actions);
      CloseNext(Run(chunks, actions), k);
      Continue(chunks, actions, Number(k));
      Continue(chunks, actions + [Number(k)], Count(k));
      more := CloseOthers(chunks, actions + [Number(k)] + [Count(k)], k + 1);
    }
  }

  lemma CloseNext(q: Sequence, k: nat)
    requires Inv(q) && Overtaken(q, k) && k < |q.workers|
    ensures var r := Next(Next(q, Number(k)), Count(k));
            Overtaken(r, k + 1) && |r.workers| == |q.workers|
  {
    hide NumberCounted, MapsOk;
    GiveKeepsInv(q, k);
    var r := Next(q, Number(k));
    CountKeepsInv(r, k);
    var t := Next(r, Count(k));
    assert !IsCounted(t.workers[0]);
    assert !Completes(t.workers[k]);
  }

  /** With two or more workers the flag can sit on number one: the first to take a number counts its chunk last. */
  lemma FlagPrecedesLastNumber(chunks: nat) returns (actions: seq<Action>)
    requires chunks >= 2
    ensures var q := Run(chunks, actions);
            |q.workers| == chunks && AllDone(q) && q.workers[0] == Done(1, true) && |q.given| > 1
  {
    hide Run, Next;
    FirstNumber(chunks);
    var others := CloseOthers(chunks, [Number(0)], 1);
    RunKeepsInv(chunks, others);
    CloseLast(Run(chunks, others));
    Continue(chunks, others, Count(0));
    Continue(chunks, others + [Count(0)], ClearOutput(0));
    Continue(chunks, others + [Count(0)] + [ClearOutput(0)], ClearInput(0));
    actions := others + [Count(0)] + [ClearOutput(0)] + [ClearInput(0)];
  }

  lemma FirstNumber(chunks: nat)
    requires chunks > 0
    ensures Overtaken(Run(chunks, [Number(0)]), 1) && |Run(chunks, [Number(0)]).workers| == chunks
  {
    Continue(chunks, [], Number(0));
    assert [] + [Number(0)] == [Number(0)];
    assert Run(chunks, []) == Initial(chunks);
  }

  lemma CloseLast(q: Sequence)
    requires Inv(q) && |q.workers| >= 2 && Overtaken(q, |q.workers|)
    ensures var r := Next(Next(Next(q, Count(0)), ClearOutput(0)), ClearInput(0));
            |r.workers| == |q.workers| && AllDone(r) && r.workers[0] == Done(1, true) && |r.given| > 1
  {
    hide MapsOk;
    CountKeepsInv(q, 0);
    var r := Next(q, Count(0));
    assert forall j | 0 <= j < |r.workers| :: IsCounted(r.workers[j]);
    assert Completes(r.workers[0]);
  }

  // --------------------------------------------------------------------- progress

  /** What worker `i` does next on its way to the end. */
  function Finishing(q: Sequence, i: nat): (a: Action)
    requires i < |q.workers|
  {
    match q.workers[i]
    case Open => Number(i)
    case Numbered(_) => Count(i)
    case Last(_) => ClearOutput(i)
    case _ => ClearInput(i)
  }

  function Remaining(w: Worker): (n: nat) {
    match w
    case Open => 4
    case Numbered(_) => 3
    case Last(_) => 2
    case Clearing(_) => 1
    case Done(_, _) => 0
  }

  function Unfinished(q: Sequence): (r: set<nat>) {
    set i | 0 <= i < |q.workers| && !q.workers[i].Done?
  }

  /** From every reachable state the worker can get to its end. */
  lemma {:induction false} WorkerCanFinish(chunks: nat, actions: seq<Action>, i: nat) returns (more: seq<Action>)
    requires i < |Run(chunks, actions).workers|
    ensures actions <= more && |Run(chunks, more).workers| == |Run(chunks, actions).workers|
    ensures Run(chunks, more).workers == Run(chunks, actions).workers[i := Run(chunks, more).workers[i]]
    ensures Run(chunks, more).workers[i].Done?
    decreases Remaining(Run(chunks, actions).workers[i])
  {
    hide Run;
    var q := Run(chunks, actions);
    if q.workers[i].Done? {
      more := actions;
    } else {
      Continue(chunks, actions, Finishing(q, i));
      more := WorkerCanFinish(chunks, actions + [Finishing(q, i)], i);
    }
  }

  /** From every reachable state some continuation ends with all workers done. */
  lemma {:induction false} EveryRunCanFinish(chunks: nat, actions: seq<Action>) returns (more: seq<Action>)
    ensures actions <= more && AllDone(Run(chunks, more)) && |Run(chunks, more).workers| == |Run(chunks, actions).workers|
    decreases Unfinished(Run(chunks, actions))
  {
    hide Run, Next;
    var q := Run(chunks, actions);
    if i :| i in Unfinished(q) {
      var one := WorkerCanFinish(chunks, actions, i);
      assert i !in Unfinished(Run(chunks, one)) && Unfinished(Run(chunks, one)) <= Unfinished(q);
      more := EveryRunCanFinish(chunks, one);
    } else {
      more := actions;
      forall i | 0 <= i < |q.workers| ensures q.workers[i].Done? {
        assert i !in Unfinished(q);
      }
    }
  }

  /** A full buffer can be emitted as long as the worker is open, and carries the next number. */
  lemma EmittedNumber(chunks: nat, actions: seq<Action>, i: nat)
    requires i < |Run(chunks, actions).workers| && Run(chunks, actions).workers[i].Open?
    ensures var q, r := Run(chunks, actions), Run(chunks, actions + [Emit(i)]);
            && i < |q.emitted| == |r.emitted| && r.workers == q.workers
            && r.emitted == q.emitted[i := q.emitted[i] + [|q.given| + 1]] && r.given == q.given + [|q.given| + 1]
  {
    hide Run;
    RunKeepsInv(chunks, actions);
    RunKeepsOutputs(chunks, actions);
    GiveKeepsInv(Run(chunks, actions), i);
    Continue(chunks, actions, Emit(i));
  }
}
