/** The chunk collector: sequence numbers arrive in chunks, in any order and from
    any thread; exactly the call that makes a number complete returns it.  Each
    atomic access and each section under the list's lock is one step. */
module ChunkCollector {
  import RingArithmetic

  /** One call collects one chunk of one sequence number. */
  datatype Key = Key(sequence: nat, chunk: nat)

  /** `chunks(s)` is the number of chunks of `s`; the chunk with that number is
      the one flagged as last.  `watermark` belongs to a chunk. */
  datatype Workload = Workload(chunks: nat -> nat, watermark: Key -> nat)

  const MODULUS: nat := 0x1_0000_0000_0000_0000

  /** A slot has an unsigned 64-bit counter and the merged watermark. */
  datatype Slot = Slot(counter: nat, value: nat)

  /** A node keeps the slots of `size` consecutive numbers; untouched slots are not listed. */
  datatype Node = Node(missing: int, slots: map<nat, Slot>)

  datatype Phase =
    | Located                       // the node was found or appended
    | Merged                        // the watermark is merged into the slot's value
    | Completed                     // the counter update gave zero
    | Loaded(value: nat)            // the merged value was read
    | Removing(value: nat)          // it was the node's last missing number
    | Returned(result: Result)

  datatype Result = Nothing | Complete(value: nat)

  datatype Collector = Collector(nodes: map<nat, Node>, calls: map<Key, Phase>)

  datatype Action =
    | Locate(key: Key) | Merge(key: Key) | Count(key: Key) | Load(key: Key) | CountNode(key: Key) | Remove(key: Key)

  /** The node of a number, by its position in the list of all nodes. */
  function NodeOf(size: nat, s: nat): (n: nat)
    requires size > 0 && s > 0
  {
    (s - 1) / size
  }

  predicate IsChunk(w: Workload, key: Key) {
    key.sequence > 0 && 1 <= key.chunk <= w.chunks(key.sequence)
  }

  predicate IsLast(w: Workload, key: Key) {
    key.chunk == w.chunks(key.sequence)
  }

  function SlotOf(node: Node, s: nat): (slot: Slot) {
    if s in node.slots then node.slots[s] else Slot(0, 0)
  }

  function Initial(): (x: Collector) {
    Collector(map[], map[])
  }

  function SetPhase(x: Collector, key: Key, phase: Phase): (r: Collector) {
    x.(calls := x.calls[key := phase])
  }

  function SetSlot(x: Collector, n: nat, s: nat, slot: Slot): (r: Collector)
    requires n in x.nodes
  {
    x.(nodes := x.nodes[n := x.nodes[n].(slots := x.nodes[n].slots[s := slot])])
  }

  /** The last chunk adds its number minus one to the counter, every other chunk takes one away. */
  function Updated(w: Workload, key: Key, counter: nat): (r: nat) {
    if IsLast(w, key) then (counter + (key.chunk - 1)) % MODULUS else (counter - 1) % MODULUS
  }

  function Next(size: nat, w: Workload, x: Collector, a: Action): (r: Collector)
    requires size > 0
  {
    var key := a.key;
    if !IsChunk(w, key) then x
    else
      var n := NodeOf(size, key.sequence);
      if a.Locate? then
        if key in x.calls then x
        else SetPhase(if n in x.nodes then x else x.(nodes := x.nodes[n := Node(size, map[])]), key, Located)
      else if key !in x.calls || n !in x.nodes then x
      else
        var slot := SlotOf(x.nodes[n], key.sequence);
        match (a, x.calls[key])
        case (Merge(_), Located) =>
          SetPhase(SetSlot(x, n, key.sequence, slot.(value := Max(slot.value, w.watermark(key)))), key, Merged)
        case (Count(_), Merged) =>
          var counter := Updated(w, key, slot.counter);
          SetPhase(SetSlot(x, n, key.sequence, slot.(counter := counter)), key, if counter == 0 then Completed else Returned(Nothing))
        case (Load(_), Completed) =>
          SetPhase(x, key, Loaded(slot.value))
        case (CountNode(_), Loaded(v)) =>
          SetPhase(x.(nodes := x.nodes[n := x.nodes[n].(missing := x.nodes[n].missing - 1)]), key,
                   if x.nodes[n].missing == 1 then Removing(v) else Returned(Complete(v)))
        case (Remove(_), Removing(v)) =>
          SetPhase(x.(nodes := x.nodes - {n}), key, Returned(Complete(v)))
        case _ => x
  }

  function Max(a: nat, b: nat): (r: nat) {
    if b > a then b else a
  }

  ghost function Run(size: nat, w: Workload, actions: seq<Action>): (x: Collector)
    requires size > 0
  {
    if actions == [] then Initial() else Next(size, w, Run(size, w, actions[..|actions| - 1]), actions[|actions| - 1])
  }

  // ----------------------------------------------------------- what has been counted

  predicate HasMerged(phase: Phase) { phase != Located }
  predicate HasCounted(phase: Phase) { phase != Located && phase != Merged }

  /** The call made its number complete. */
  predicate HasCompleted(phase: Phase) { HasCounted(phase) && phase != Returned(Nothing) }

  /** The call has counted its number off its node. */
  predicate HasLeft(phase: Phase) { phase.Removing? || (phase.Returned? && phase.result.Complete?) }

  /** The call still refers to its node. */
  predicate UsesNode(phase: Phase) { !phase.Returned? }

  function CountedChunks(calls: map<Key, Phase>, s: nat): (r: set<Key>) {
    set key | key in calls && key.sequence == s && HasCounted(calls[key])
  }

  function AllChunks(w: Workload, s: nat, k: nat): (r: set<Key>) {
    if k == 0 then {} else AllChunks(w, s, k - 1) + {Key(s, k)}
  }

  lemma {:induction false} AllChunksAre(w: Workload, s: nat, k: nat)
    ensures |AllChunks(w, s, k)| == k
    ensures forall key :: key in AllChunks(w, s, k) <==> key.sequence == s && 1 <= key.chunk <= k
  {
    if k > 0 {
      AllChunksAre(w, s, k - 1);
    }
  }

  /** The counter without wrap-around: what the counted chunks of `s` have added up to. */
  ghost function Balance(w: Workload, calls: map<Key, Phase>, s: nat): (r: int) {
    var counted := CountedChunks(calls, s);
    if Key(s, w.chunks(s)) in counted then w.chunks(s) - |counted| else -|counted|
  }

  ghost predicate AllCounted(w: Workload, calls: map<Key, Phase>, s: nat) {
    forall key | IsChunk(w, key) && key.sequence == s :: key in calls && HasCounted(calls[key])
  }

  ghost predicate CallsOk(w: Workload, calls: map<Key, Phase>) {
    forall key | key in calls :: IsChunk(w, key)
  }

  /** The balance is zero exactly when the last chunk and all others were
      counted, or nothing was, and never so large that it wraps around to zero. */
  lemma BalanceZero(w: Workload, calls: map<Key, Phase>, s: nat)
    requires CallsOk(w, calls) && 0 < w.chunks(s) < MODULUS && s > 0
    ensures -(MODULUS as int) < Balance(w, calls, s) < MODULUS
    ensures CountedChunks(calls, s) != {} ==> (Balance(w, calls, s) == 0 <==> AllCounted(w, calls, s))
  {
    var counted, all := CountedChunks(calls, s), AllChunks(w, s, w.chunks(s));
    AllChunksAre(w, s, w.chunks(s));
    assert counted <= all;
    SubsetSize(counted, all);
    if AllCounted(w, calls, s) {
      assert counted == all;
    } else {
      var key :| IsChunk(w, key) && key.sequence == s && !(key in calls && HasCounted(calls[key]));
      assert key in all && key !in counted;
    }
  }

  lemma SubsetSize(a: set<Key>, b: set<Key>)
    requires a <= b
    ensures |a| <= |b|
    ensures |a| == |b| ==> a == b
  {
    assert b == a + (b - a);
    if |a| == |b| {
      assert |b - a| == 0;
    }
  }

  // -------------------------------------------------------------------- invariant

  /** `v` is the maximum of the watermarks merged so far, or the initial value. */
  ghost predicate IsMerged(w: Workload, calls: map<Key, Phase>, s: nat, v: nat) {
    && (forall key | key in calls && key.sequence == s && HasMerged(calls[key]) :: w.watermark(key) <= v)
    && (v == 0 || exists key :: key in calls && key.sequence == s && HasMerged(calls[key]) && w.watermark(key) == v)
  }

  /** `v` is the maximum of the watermarks of all chunks of `s`. */
  ghost predicate IsMaximum(w: Workload, s: nat, v: nat) {
    && (forall key | IsChunk(w, key) && key.sequence == s :: w.watermark(key) <= v)
    && (v == 0 || exists key :: IsChunk(w, key) && key.sequence == s && w.watermark(key) == v)
  }

  function ValueOf(phase: Phase): (v: nat)
    requires HasCompleted(phase) && phase != Completed
  {
    match phase
    case Loaded(v) => v
    case Removing(v) => v
    case Returned(r) => r.value
  }

  /** One number: its slot, and the one call that completes it. */
  ghost predicate NumberOk(size: nat, w: Workload, x: Collector, s: nat)
    requires size > 0 && s > 0
  {
    && (NodeOf(size, s) in x.nodes ==>
          var slot := SlotOf(x.nodes[NodeOf(size, s)], s);
          slot.counter == Balance(w, x.calls, s) % MODULUS && IsMerged(w, x.calls, s, slot.value))
    && (forall key | key in x.calls && key.sequence == s && HasCompleted(x.calls[key]) ::
          AllCounted(w, x.calls, s) && (x.calls[key] != Completed ==> IsMaximum(w, s, ValueOf(x.calls[key]))))
    && (forall key, other | key in x.calls && other in x.calls && key.sequence == other.sequence == s
          && HasCompleted(x.calls[key]) && HasCompleted(x.calls[other]) :: key == other)
    && (AllCounted(w, x.calls, s) ==> exists key :: key in x.calls && key.sequence == s && HasCompleted(x.calls[key]))
  }

  ghost predicate NumbersOk(size: nat, w: Workload, x: Collector)
    requires size > 0
  {
    CallsOk(w, x.calls) && forall s: nat | s > 0 :: NumberOk(size, w, x, s)
  }

  ghost predicate WorkloadOk(w: Workload) {
    forall s: nat :: 0 < w.chunks(s) < MODULUS
  }

  // ------------------------------------------------------------ steps and numbers

  /** A call of another number changes nothing for `s`, as long as its node stays. */
  lemma OtherNumber(size: nat, w: Workload, x: Collector, a: Action, s: nat)
    requires size > 0 && s > 0 && NumberOk(size, w, x, s) && a.key.sequence != s
    requires Next(size, w, x, a).nodes.Keys <= x.nodes.Keys
    ensures NumberOk(size, w, Next(size, w, x, a), s)
  {
    hide Balance, AllCounted, IsMerged, IsMaximum;
    var y := Next(size, w, x, a);
    SameCalls(w, x.calls, y.calls, s);
    if NodeOf(size, s) in y.nodes {
      assert SlotOf(x.nodes[NodeOf(size, s)], s) == SlotOf(y.nodes[NodeOf(size, s)], s);
    }
  }

  lemma SameCalls(w: Workload, calls: map<Key, Phase>, calls': map<Key, Phase>, s: nat)
    requires forall key: Key | key.sequence == s :: (key in calls <==> key in calls') && (key in calls ==> calls[key] == calls'[key])
    ensures Balance(w, calls', s) == Balance(w, calls, s)
    ensures AllCounted(w, calls', s) == AllCounted(w, calls, s)
    ensures forall v: nat :: IsMerged(w, calls', s, v) == IsMerged(w, calls, s, v)
  {
    assert CountedChunks(calls', s) == CountedChunks(calls, s);
  }

  /** A call moves on without counting a chunk or merging a watermark. */
  lemma SameProgress(w: Workload, calls: map<Key, Phase>, key: Key, phase: Phase)
    requires key in calls && HasMerged(calls[key]) == HasMerged(phase) && HasCounted(calls[key]) == HasCounted(phase)
    ensures var calls' := calls[key := phase];
            && Balance(w, calls', key.sequence) == Balance(w, calls, key.sequence)
            && AllCounted(w, calls', key.sequence) == AllCounted(w, calls, key.sequence)
            && forall v: nat :: IsMerged(w, calls', key.sequence, v) == IsMerged(w, calls, key.sequence, v)
  {
    var calls' := calls[key := phase];
    assert CountedChunks(calls', key.sequence) == CountedChunks(calls, key.sequence);
    forall v: nat ensures IsMerged(w, calls', key.sequence, v) == IsMerged(w, calls, key.sequence, v) {
    }
  }

  lemma LocateNumber(size: nat, w: Workload, x: Collector, key: Key)
    requires size > 0 && IsChunk(w, key) && NumberOk(size, w, x, key.sequence) && key !in x.calls && CallsOk(w, x.calls)
    requires NodeOf(size, key.sequence) !in x.nodes ==> forall k | k in x.calls :: k.sequence != key.sequence
    ensures NumberOk(size, w, Next(size, w, x, Locate(key)), key.sequence)
  {
    hide IsMaximum;
    var y, s := Next(size, w, x, Locate(key)), key.sequence;
    assert CountedChunks(y.calls, s) == CountedChunks(x.calls, s);
    assert !AllCounted(w, x.calls, s) && !AllCounted(w, y.calls, s);
    forall v: nat ensures IsMerged(w, y.calls, s, v) == IsMerged(w, x.calls, s, v) {
    }
  }

  lemma MergeNumber(size: nat, w: Workload, x: Collector, key: Key)
    requires size > 0 && IsChunk(w, key) && NumberOk(size, w, x, key.sequence)
    ensures NumberOk(size, w, Next(size, w, x, Merge(key)), key.sequence)
  {
    var y, s := Next(size, w, x, Merge(key)), key.sequence;
    if y != x {
      assert CountedChunks(y.calls, s) == CountedChunks(x.calls, s);
      assert AllCounted(w, y.calls, s) == AllCounted(w, x.calls, s);
      MergedMax(w, x.calls, key, SlotOf(x.nodes[NodeOf(size, s)], s).value);
      assert forall k | k in y.calls && k != key :: y.calls[k] == x.calls[k];
    }
  }

  lemma MergedMax(w: Workload, calls: map<Key, Phase>, key: Key, v: nat)
    requires key in calls && IsMerged(w, calls, key.sequence, v)
    ensures IsMerged(w, calls[key := Merged], key.sequence, Max(v, w.watermark(key)))
  {
    var calls' := calls[key := Merged];
    if v >= w.watermark(key) && v != 0 {
      var k :| k in calls && k.sequence == key.sequence && HasMerged(calls[k]) && w.watermark(k) == v;
      assert k in calls' && HasMerged(calls'[k]);
    }
  }

  /** Counting a chunk moves the balance as the code moves the counter. */
  lemma CountBalance(w: Workload, calls: map<Key, Phase>, key: Key, phase: Phase)
    requires key in calls && !HasCounted(calls[key]) && HasCounted(phase)
    ensures var calls' := calls[key := phase];
            && Balance(w, calls', key.sequence)
               == Balance(w, calls, key.sequence) + (if IsLast(w, key) then key.chunk - 1 else -1)
            && CountedChunks(calls', key.sequence) != {}
  {
    var s := key.sequence;
    assert CountedChunks(calls[key := phase], s) == CountedChunks(calls, s) + {key};
  }

  lemma WrappedUpdate(w: Workload, key: Key, balance: int, counter: nat)
    requires counter == balance % MODULUS && IsChunk(w, key)
    ensures Updated(w, key, counter) == (balance + (if IsLast(w, key) then key.chunk - 1 else -1)) % MODULUS
  {
    hide IsLast;
    Wrapped(balance, key.chunk - 1);
    Wrapped(balance, -1);
  }

  lemma Wrapped(balance: int, x: int)
    ensures (balance % MODULUS + x) % MODULUS == (balance + x) % MODULUS
  {
    var q := balance / MODULUS;
    RingArithmetic.AddMultiple(balance % MODULUS + x, q, MODULUS);
    assert balance % MODULUS + x + q * MODULUS == balance + x;
  }

  lemma SmallMultiple(x: int)
    requires -(MODULUS as int) < x < MODULUS
    ensures x % MODULUS == 0 <==> x == 0
  {
  }

  /** The counter reaches zero exactly when every chunk has been counted. */
  lemma CountZero(size: nat, w: Workload, x: Collector, key: Key, counter: nat, phase: Phase)
    requires size > 0 && WorkloadOk(w) && IsChunk(w, key) && CallsOk(w, x.calls) && key in x.calls && x.calls[key] == Merged
    requires HasCounted(phase) && counter == Updated(w, key, Balance(w, x.calls, key.sequence) % MODULUS)
    ensures var calls' := x.calls[key := phase];
            && counter == Balance(w, calls', key.sequence) % MODULUS
            && (counter == 0 <==> AllCounted(w, calls', key.sequence))
  {
    hide AllCounted, Balance, Updated;
    var calls' := x.calls[key := phase];
    CountBalance(w, x.calls, key, phase);
    WrappedUpdate(w, key, Balance(w, x.calls, key.sequence), Balance(w, x.calls, key.sequence) % MODULUS);
    BalanceZero(w, calls', key.sequence);
    SmallMultiple(Balance(w, calls', key.sequence));
  }

  lemma CountNumber(size: nat, w: Workload, x: Collector, key: Key)
    requires size > 0 && WorkloadOk(w) && IsChunk(w, key) && CallsOk(w, x.calls) && NumberOk(size, w, x, key.sequence)
    ensures NumberOk(size, w, Next(size, w, x, Count(key)), key.sequence)
  {
    hide Balance, IsMaximum, Updated;
    var s, n := key.sequence, NodeOf(size, key.sequence);
    if key in x.calls && n in x.nodes && x.calls[key] == Merged {
      var y := Next(size, w, x, Count(key));
      var counter := Updated(w, key, SlotOf(x.nodes[n], s).counter);
      var phase := if counter == 0 then Completed else Returned(Nothing);
      CountZero(size, w, x, key, counter, phase);
      assert y.calls == x.calls[key := phase];
      assert SlotOf(y.nodes[n], s) == SlotOf(x.nodes[n], s).(counter := counter);
      SameMerged(w, x.calls, key, phase);
      assert !AllCounted(w, x.calls, s);
      assert forall k | k in y.calls && k.sequence == s && HasCompleted(y.calls[k]) :: k == key;
    }
  }

  lemma SameMerged(w: Workload, calls: map<Key, Phase>, key: Key, phase: Phase)
    requires key in calls && HasMerged(calls[key]) && HasMerged(phase)
    ensures forall v: nat :: IsMerged(w, calls[key := phase], key.sequence, v) == IsMerged(w, calls, key.sequence, v)
  {
    var calls' := calls[key := phase];
    forall v: nat ensures IsMerged(w, calls', key.sequence, v) == IsMerged(w, calls, key.sequence, v) {
      if v != 0 && IsMerged(w, calls, key.sequence, v) {
        var k :| k in calls && k.sequence == key.sequence && HasMerged(calls[k]) && w.watermark(k) == v;
        assert k in calls' && HasMerged(calls'[k]);
      }
    }
  }

  /** When all chunks are counted, what is merged is the maximum of all. */
  lemma MergedIsMaximum(w: Workload, calls: map<Key, Phase>, s: nat, v: nat)
    requires CallsOk(w, calls) && AllCounted(w, calls, s) && IsMerged(w, calls, s, v)
    ensures IsMaximum(w, s, v)
  {
    forall key | IsChunk(w, key) && key.sequence == s ensures w.watermark(key) <= v {
      assert key in calls && HasCounted(calls[key]) && HasMerged(calls[key]);
    }
  }

  lemma LaterNumber(size: nat, w: Workload, x: Collector, a: Action)
    requires size > 0 && IsChunk(w, a.key) && CallsOk(w, x.calls) && NumberOk(size, w, x, a.key.sequence)
    requires a.Load? || a.CountNode? || a.Remove?
    ensures NumberOk(size, w, Next(size, w, x, a), a.key.sequence)
  {
    hide Balance, IsMaximum, AllCounted, IsMerged;
    var key, y := a.key, Next(size, w, x, a);
    if y != x {
      var n := NodeOf(size, key.sequence);
      SameProgress(w, x.calls, key, y.calls[key]);
      assert n in y.nodes ==> SlotOf(y.nodes[n], key.sequence) == SlotOf(x.nodes[n], key.sequence);
      if a.Load? {
        MergedIsMaximum(w, x.calls, key.sequence, SlotOf(x.nodes[n], key.sequence).value);
      }
      assert forall k | k in y.calls :: HasCompleted(y.calls[k]) == HasCompleted(x.calls[k]);
    }
  }

  // -------------------------------------------------------------- steps and nodes

  predicate InBlock(size: nat, n: nat, s: nat)
    requires size > 0
  {
    s > 0 && NodeOf(size, s) == n
  }

  /** The numbers of a node that have been counted off it. */
  function LeftNumbers(size: nat, calls: map<Key, Phase>, n: nat): (r: set<nat>)
    requires size > 0
  {
    set key | key in calls && InBlock(size, n, key.sequence) && HasLeft(calls[key]) :: key.sequence
  }

  ghost predicate BlockOk(size: nat, w: Workload, x: Collector, n: nat)
    requires size > 0
  {
    && (n in x.nodes ==> x.nodes[n].missing == size - |LeftNumbers(size, x.calls, n)|)
    && (n in x.nodes && x.nodes[n].missing == 0 ==>
          exists key :: key in x.calls && InBlock(size, n, key.sequence) && x.calls[key].Removing?)
    && (forall key | key in x.calls && InBlock(size, n, key.sequence) && n !in x.nodes ::
          x.calls[key].Returned? && forall s: nat | InBlock(size, n, s) :: AllCounted(w, x.calls, s))
    && (forall key | key in x.calls && InBlock(size, n, key.sequence) && x.calls[key].Removing? ::
          forall s: nat | InBlock(size, n, s) :: s in LeftNumbers(size, x.calls, n))
    && (forall key, other | key in x.calls && other in x.calls && InBlock(size, n, key.sequence) && InBlock(size, n, other.sequence)
          && x.calls[key].Removing? && x.calls[other].Removing? :: key == other)
  }

  ghost predicate Inv(size: nat, w: Workload, x: Collector)
    requires size > 0
  {
    NumbersOk(size, w, x) && forall n: nat :: BlockOk(size, w, x, n)
  }

  function Block(size: nat, n: nat, k: nat): (r: set<nat>) {
    if k == 0 then {} else Block(size, n, k - 1) + {n * size + k}
  }

  lemma {:induction false} BlockIs(size: nat, n: nat, k: nat)
    ensures |Block(size, n, k)| == k
    ensures forall s: nat :: s in Block(size, n, k) <==> n * size < s <= n * size + k
  {
    if k > 0 {
      BlockIs(size, n, k - 1);
    }
  }

  lemma InBlockRange(size: nat, n: nat, s: nat)
    requires size > 0
    ensures InBlock(size, n, s) <==> n * size < s <= n * size + size
  {
    if n * size < s <= n * size + size {
      RingArithmetic.DivisionIsUnique(s - 1, size, n, s - 1 - n * size);
    }
  }

  /** All numbers of a node have left it exactly when as many have left as it has. */
  lemma AllLeft(size: nat, calls: map<Key, Phase>, n: nat)
    requires size > 0
    ensures |LeftNumbers(size, calls, n)| <= size
    ensures |LeftNumbers(size, calls, n)| == size ==> forall s: nat | InBlock(size, n, s) :: s in LeftNumbers(size, calls, n)
  {
    var left, block := LeftNumbers(size, calls, n), Block(size, n, size);
    BlockIs(size, n, size);
    forall s: nat ensures InBlock(size, n, s) <==> s in block {
      InBlockRange(size, n, s);
    }
    assert left <= block;
    assert block == left + (block - left);
  }

  lemma OtherBlock(size: nat, w: Workload, x: Collector, a: Action, n: nat)
    requires size > 0 && BlockOk(size, w, x, n) && !InBlock(size, n, a.key.sequence)
    ensures BlockOk(size, w, Next(size, w, x, a), n)
  {
    hide AllCounted, Updated;
    var y := Next(size, w, x, a);
    assert forall key: Key | InBlock(size, n, key.sequence) :: (key in x.calls <==> key in y.calls)
             && (key in x.calls ==> x.calls[key] == y.calls[key]);
    assert LeftNumbers(size, y.calls, n) == LeftNumbers(size, x.calls, n);
    forall s: nat | InBlock(size, n, s) ensures AllCounted(w, y.calls, s) == AllCounted(w, x.calls, s) {
      SameCalls(w, x.calls, y.calls, s);
    }
  }

  lemma NoCallsYet(size: nat, w: Workload, x: Collector, key: Key, n: nat)
    requires size > 0 && BlockOk(size, w, x, n) && InBlock(size, n, key.sequence) && IsChunk(w, key) && key !in x.calls && n !in x.nodes
    ensures forall k | k in x.calls :: !InBlock(size, n, k.sequence)
  {
    forall k | k in x.calls && InBlock(size, n, k.sequence) ensures false {
      NotCounted(w, x.calls, key);
    }
  }

  lemma NotCounted(w: Workload, calls: map<Key, Phase>, key: Key)
    requires IsChunk(w, key) && key !in calls
    ensures !AllCounted(w, calls, key.sequence)
  {
  }

  lemma LocateBlock(size: nat, w: Workload, x: Collector, key: Key, n: nat)
    requires size > 0 && BlockOk(size, w, x, n) && InBlock(size, n, key.sequence) && IsChunk(w, key) && key !in x.calls
    ensures BlockOk(size, w, Next(size, w, x, Locate(key)), n)
  {
    hide AllCounted;
    var y := Next(size, w, x, Locate(key));
    if n !in x.nodes {
      NoCallsYet(size, w, x, key, n);
      assert LeftNumbers(size, y.calls, n) == {};
    } else {
      assert LeftNumbers(size, y.calls, n) == LeftNumbers(size, x.calls, n);
      if x.nodes[n].missing == 0 {
        var k :| k in x.calls && InBlock(size, n, k.sequence) && x.calls[k].Removing?;
        assert k in y.calls && y.calls[k].Removing?;
      }
    }
  }

  /** A call that does not leave the node yet. */
  lemma QuietBlock(size: nat, w: Workload, x: Collector, a: Action, n: nat)
    requires size > 0 && BlockOk(size, w, x, n) && InBlock(size, n, a.key.sequence) && (a.Merge? || a.Count? || a.Load?)
    ensures BlockOk(size, w, Next(size, w, x, a), n)
  {
    hide AllCounted, Updated;
    var y := Next(size, w, x, a);
    if y != x {
      assert LeftNumbers(size, y.calls, n) == LeftNumbers(size, x.calls, n);
      if x.nodes[n].missing == 0 {
        var k :| k in x.calls && InBlock(size, n, k.sequence) && x.calls[k].Removing?;
        assert k in y.calls && y.calls[k].Removing?;
      }
    }
  }

  /** A loaded call's number has not left its node, and no call removes the node. */
  lemma NotLeftYet(size: nat, w: Workload, x: Collector, key: Key, n: nat)
    requires size > 0 && BlockOk(size, w, x, n) && InBlock(size, n, key.sequence) && NumberOk(size, w, x, key.sequence)
    requires key in x.calls && x.calls[key].Loaded?
    ensures key.sequence !in LeftNumbers(size, x.calls, n)
    ensures forall k | k in x.calls && InBlock(size, n, k.sequence) :: !x.calls[k].Removing?
  {
    hide AllCounted, Balance, IsMerged, IsMaximum;
  }

  lemma LeftGrows(size: nat, calls: map<Key, Phase>, key: Key, n: nat, phase: Phase)
    requires size > 0 && InBlock(size, n, key.sequence) && key in calls && HasLeft(phase) && !HasLeft(calls[key])
    ensures LeftNumbers(size, calls[key := phase], n) == LeftNumbers(size, calls, n) + {key.sequence}
  {
    var before, after := LeftNumbers(size, calls, n), LeftNumbers(size, calls[key := phase], n);
    assert key in calls[key := phase];
    forall s | s in before ensures s in after {
      var k :| k in calls && InBlock(size, n, k.sequence) && HasLeft(calls[k]) && k.sequence == s;
      assert k in calls[key := phase] && HasLeft(calls[key := phase][k]);
    }
  }

  lemma CountNodeBlock(size: nat, w: Workload, x: Collector, key: Key, n: nat)
    requires size > 0 && BlockOk(size, w, x, n) && InBlock(size, n, key.sequence) && NumberOk(size, w, x, key.sequence)
    ensures BlockOk(size, w, Next(size, w, x, CountNode(key)), n)
  {
    hide AllCounted, NumberOk, LeftNumbers;
    var y := Next(size, w, x, CountNode(key));
    if y != x {
      NotLeftYet(size, w, x, key, n);
      LeftGrows(size, x.calls, key, n, y.calls[key]);
      AllLeft(size, y.calls, n);
      if x.nodes[n].missing == 1 {
        assert y.calls[key].Removing?;
      }
    }
  }

  lemma RemoveBlock(size: nat, w: Workload, x: Collector, key: Key, n: nat)
    requires size > 0 && BlockOk(size, w, x, n) && InBlock(size, n, key.sequence) && NumbersOk(size, w, x)
    ensures BlockOk(size, w, Next(size, w, x, Remove(key)), n)
  {
    hide Balance, IsMerged, IsMaximum, AllCounted;
    var y := Next(size, w, x, Remove(key));
    if y != x {
      forall s: nat | InBlock(size, n, s) ensures AllCounted(w, x.calls, s) && AllCounted(w, y.calls, s) {
        LeftIsCounted(size, w, x, n, s);
        StaysCounted(w, x.calls, key, y.calls[key], s);
      }
      forall k | k in y.calls && InBlock(size, n, k.sequence) ensures y.calls[k].Returned? {
        if k != key {
          OthersReturned(size, w, x, n, key, k);
        }
      }
    }
  }

  lemma StaysCounted(w: Workload, calls: map<Key, Phase>, key: Key, phase: Phase, s: nat)
    requires AllCounted(w, calls, s) && HasCounted(phase)
    ensures AllCounted(w, calls[key := phase], s)
  {
  }

  lemma LeftIsCounted(size: nat, w: Workload, x: Collector, n: nat, s: nat)
    requires size > 0 && s in LeftNumbers(size, x.calls, n) && NumbersOk(size, w, x)
    ensures AllCounted(w, x.calls, s)
  {
    var key :| key in x.calls && InBlock(size, n, key.sequence) && HasLeft(x.calls[key]) && key.sequence == s;
    assert NumberOk(size, w, x, s) && HasCompleted(x.calls[key]);
  }

  /** While a call removes a node, no other call uses it. */
  lemma OthersReturned(size: nat, w: Workload, x: Collector, n: nat, key: Key, other: Key)
    requires size > 0 && NumbersOk(size, w, x) && BlockOk(size, w, x, n)
    requires key in x.calls && InBlock(size, n, key.sequence) && x.calls[key].Removing?
    requires other in x.calls && InBlock(size, n, other.sequence) && other != key
    ensures x.calls[other].Returned?
  {
    hide Balance, IsMerged, IsMaximum;
    var s := other.sequence;
    LeftIsCounted(size, w, x, n, s);
    assert NumberOk(size, w, x, s);
    var left :| left in x.calls && InBlock(size, n, left.sequence) && HasLeft(x.calls[left]) && left.sequence == s;
    assert HasCounted(x.calls[other]);
  }

  // ------------------------------------------------------------------ over every run

  lemma NextNumber(size: nat, w: Workload, x: Collector, a: Action, s: nat)
    requires size > 0 && WorkloadOk(w) && Inv(size, w, x) && s > 0
    ensures NumberOk(size, w, Next(size, w, x, a), s)
  {
    hide NumberOk, BlockOk, Next;
    var key := a.key;
    assert NumberOk(size, w, x, s) && NumberOk(size, w, x, if key.sequence > 0 then key.sequence else s);
    if IsChunk(w, key) {
      var n := NodeOf(size, key.sequence);
      assert BlockOk(size, w, x, n);
      if a.Locate? {
        LocateAnyNumber(size, w, x, key, s);
      } else if key.sequence != s {
        NodesShrink(size, w, x, a);
        OtherNumber(size, w, x, a, s);
      } else {
        match a
        case Merge(_) => MergeNumber(size, w, x, key);
        case Count(_) => CountNumber(size, w, x, key);
        case _ => LaterNumber(size, w, x, a);
      }
    } else {
      NotAChunk(size, w, x, a);
    }
  }

  lemma NotAChunk(size: nat, w: Workload, x: Collector, a: Action)
    requires size > 0 && !IsChunk(w, a.key)
    ensures Next(size, w, x, a) == x
  {
  }

  lemma NodesShrink(size: nat, w: Workload, x: Collector, a: Action)
    requires size > 0 && !a.Locate?
    ensures Next(size, w, x, a).nodes.Keys <= x.nodes.Keys
  {
    hide Updated;
  }

  lemma LocateAnyNumber(size: nat, w: Workload, x: Collector, key: Key, s: nat)
    requires size > 0 && IsChunk(w, key) && CallsOk(w, x.calls) && s > 0
    requires NumberOk(size, w, x, s) && NumberOk(size, w, x, key.sequence) && BlockOk(size, w, x, NodeOf(size, key.sequence))
    ensures NumberOk(size, w, Next(size, w, x, Locate(key)), s)
  {
    hide IsMaximum;
    var n, y := NodeOf(size, key.sequence), Next(size, w, x, Locate(key));
    if key !in x.calls {
      if n !in x.nodes {
        NoCallsYet(size, w, x, key, n);
      }
      if s == key.sequence {
        LocateNumber(size, w, x, key);
      } else if n in x.nodes || NodeOf(size, s) != n {
        SameCalls(w, x.calls, y.calls, s);
      } else {
        FreshNumber(size, w, x, y, s);
      }
    }
  }

  /** A number without calls in a new node. */
  lemma FreshNumber(size: nat, w: Workload, x: Collector, y: Collector, s: nat)
    requires size > 0 && s > 0 && NumberOk(size, w, x, s)
    requires forall key | key in x.calls || key in y.calls :: key.sequence != s
    requires NodeOf(size, s) in y.nodes && y.nodes[NodeOf(size, s)].slots == map[]
    ensures NumberOk(size, w, y, s)
  {
    assert CountedChunks(y.calls, s) == {} == CountedChunks(x.calls, s);
    assert AllCounted(w, y.calls, s) ==> AllCounted(w, x.calls, s);
  }

  lemma NextBlock(size: nat, w: Workload, x: Collector, a: Action, n: nat)
    requires size > 0 && Inv(size, w, x)
    ensures BlockOk(size, w, Next(size, w, x, a), n)
  {
    hide NumberOk, BlockOk, Next;
    var key := a.key;
    assert BlockOk(size, w, x, n);
    if !InBlock(size, n, key.sequence) {
      OtherBlock(size, w, x, a, n);
    } else if !IsChunk(w, key) {
      NotAChunk(size, w, x, a);
    } else {
      assert NumberOk(size, w, x, key.sequence);
      match a
      case Locate(_) =>
        if key in x.calls {
          LocatedBefore(size, w, x, key);
        } else {
          LocateBlock(size, w, x, key, n);
        }
      case CountNode(_) => CountNodeBlock(size, w, x, key, n);
      case Remove(_) => RemoveBlock(size, w, x, key, n);
      case _ => QuietBlock(size, w, x, a, n);
    }
  }

  lemma LocatedBefore(size: nat, w: Workload, x: Collector, key: Key)
    requires size > 0 && key in x.calls
    ensures Next(size, w, x, Locate(key)) == x
  {
  }

  lemma NextCalls(size: nat, w: Workload, x: Collector, a: Action)
    requires size > 0 && CallsOk(w, x.calls)
    ensures CallsOk(w, Next(size, w, x, a).calls)
  {
    hide Updated;
  }

  lemma NextKeepsInv(size: nat, w: Workload, x: Collector, a: Action)
    requires size > 0 && WorkloadOk(w) && Inv(size, w, x)
    ensures Inv(size, w, Next(size, w, x, a))
  {
    hide NumberOk, BlockOk, Next;
    var y := Next(size, w, x, a);
    NextCalls(size, w, x, a);
    forall s: nat | s > 0 ensures NumberOk(size, w, y, s) {
      NextNumber(size, w, x, a, s);
    }
    forall n: nat ensures BlockOk(size, w, y, n) {
      NextBlock(size, w, x, a, n);
    }
  }

  lemma InitialInv(size: nat, w: Workload)
    requires size > 0 && WorkloadOk(w)
    ensures Inv(size, w, Initial())
  {
    forall s: nat | s > 0 ensures NumberOk(size, w, Initial(), s) {
      NotCounted(w, map[], Key(s, 1));
    }
  }

  lemma {:induction false} RunKeepsInv(size: nat, w: Workload, actions: seq<Action>)
    requires size > 0 && WorkloadOk(w)
    ensures Inv(size, w, Run(size, w, actions))
  {
    hide Inv, Next;
    if actions == [] {
      InitialInv(size, w);
    } else {
      RunKeepsInv(size, w, actions[..|actions| - 1]);
      NextKeepsInv(size, w, Run(size, w, actions[..|actions| - 1]), actions[|actions| - 1]);
    }
  }

  /** For every arrival order and interleaving: at most one call of a number
      returns it, only when all its chunks were counted, with the maximum of all
      watermarks; and when every chunk's call has returned, one call has. */
  lemma CompleteOnce(size: nat, w: Workload, actions: seq<Action>, s: nat)
    requires size > 0 && WorkloadOk(w) && s > 0
    ensures var calls := Run(size, w, actions).calls;
            && (forall key | key in calls && key.sequence == s && calls[key].Returned? && calls[key].result.Complete? ::
                  AllCounted(w, calls, s) && IsMaximum(w, s, calls[key].result.value))
            && (forall key, other | key in calls && other in calls && key.sequence == other.sequence == s
                  && calls[key].Returned? && calls[other].Returned? && calls[key].result.Complete? && calls[other].result.Complete? ::
                  key == other)
            && ((forall key | IsChunk(w, key) && key.sequence == s :: key in calls && calls[key].Returned?) ==>
                  exists key :: key in calls && key.sequence == s && calls[key].Returned? && calls[key].result.Complete?)
  {
    hide Run, Balance, IsMaximum, IsMerged;
    RunKeepsInv(size, w, actions);
    var x := Run(size, w, actions);
    assert NumberOk(size, w, x, s);
    if forall key | IsChunk(w, key) && key.sequence == s :: key in x.calls && x.calls[key].Returned? {
      assert AllCounted(w, x.calls, s);
      var key :| key in x.calls && key.sequence == s && HasCompleted(x.calls[key]);
      assert x.calls[key].Returned? && x.calls[key].result.Complete?;
    }
  }

  /** A node that is not in the list has no call that still uses it, and all its
      numbers are complete if it ever had a call; when no call is running, a node
      with calls is in the list exactly if one of its numbers is incomplete. */
  lemma NodesAreRemovedInTime(size: nat, w: Workload, actions: seq<Action>, n: nat)
    requires size > 0 && WorkloadOk(w)
    ensures var x := Run(size, w, actions);
            && (forall key | key in x.calls && InBlock(size, n, key.sequence) && UsesNode(x.calls[key]) :: n in x.nodes)
            && (forall key | key in x.calls && InBlock(size, n, key.sequence) && (forall k | k in x.calls :: x.calls[k].Returned?) ::
                  n !in x.nodes <==> forall s: nat | InBlock(size, n, s) :: AllCounted(w, x.calls, s))
  {
    hide Run, Balance, IsMaximum, IsMerged;
    RunKeepsInv(size, w, actions);
    var x := Run(size, w, actions);
    assert BlockOk(size, w, x, n);
    if (forall k | k in x.calls :: x.calls[k].Returned?) && (forall s: nat | InBlock(size, n, s) :: AllCounted(w, x.calls, s)) {
      forall s: nat | InBlock(size, n, s) ensures s in LeftNumbers(size, x.calls, n) {
        assert NumberOk(size, w, x, s);
        var key :| key in x.calls && key.sequence == s && HasCompleted(x.calls[key]);
        assert HasLeft(x.calls[key]);
      }
      FullBlock(size, x.calls, n);
    }
  }

  lemma FullBlock(size: nat, calls: map<Key, Phase>, n: nat)
    requires size > 0 && forall s: nat | InBlock(size, n, s) :: s in LeftNumbers(size, calls, n)
    ensures |LeftNumbers(size, calls, n)| == size
  {
    var left, block := LeftNumbers(size, calls, n), Block(size, n, size);
    BlockIs(size, n, size);
    forall s: nat ensures InBlock(size, n, s) <==> s in block {
      InBlockRange(size, n, s);
    }
    assert left == block;
  }

  // --------------------------------------------------------------------- progress

  lemma Continue(size: nat, w: Workload, actions: seq<Action>, a: Action)
    requires size > 0
    ensures Run(size, w, actions + [a]) == Next(size, w, Run(size, w, actions), a)
  {
    assert (actions + [a])[..|actions|] == actions;
  }

  /** What the call for a chunk does next. */
  function Solo(x: Collector, key: Key): (a: Action) {
    if key !in x.calls then Locate(key)
    else match x.calls[key]
      case Located => Merge(key)
      case Merged => Count(key)
      case Completed => Load(key)
      case Loaded(_) => CountNode(key)
      case _ => Remove(key)
  }

  function Rank(x: Collector, key: Key): (n: nat) {
    if key !in x.calls then 6
    else match x.calls[key]
      case Located => 5
      case Merged => 4
      case Completed => 3
      case Loaded(_) => 2
      case Removing(_) => 1
      case Returned(_) => 0
  }

  lemma SoloStep(size: nat, w: Workload, x: Collector, key: Key)
    requires size > 0 && IsChunk(w, key) && Inv(size, w, x) && Rank(x, key) > 0
    ensures var y := Next(size, w, x, Solo(x, key));
            && Rank(y, key) < Rank(x, key)
            && forall other | other != key :: (other in y.calls <==> other in x.calls) && (other in x.calls ==> y.calls[other] == x.calls[other])
  {
    hide NumberOk, Updated;
    assert BlockOk(size, w, x, NodeOf(size, key.sequence));
  }

  /** From every reachable state the call for a chunk can return. */
  lemma {:induction false} CallCanReturn(size: nat, w: Workload, actions: seq<Action>, key: Key) returns (more: seq<Action>)
    requires size > 0 && WorkloadOk(w) && IsChunk(w, key)
    ensures actions <= more
    ensures var x, y := Run(size, w, actions), Run(size, w, more);
            && key in y.calls && y.calls[key].Returned?
            && forall other | other != key :: (other in y.calls <==> other in x.calls) && (other in x.calls ==> y.calls[other] == x.calls[other])
    decreases Rank(Run(size, w, actions), key)
  {
    hide Run, Next, Inv, Solo;
    var x := Run(size, w, actions);
    if Rank(x, key) == 0 {
      more := actions;
    } else {
      RunKeepsInv(size, w, actions);
      SoloStep(size, w, x, key);
      Continue(size, w, actions, Solo(x, key));
      more := CallCanReturn(size, w, actions + [Solo(x, key)], key);
    }
  }

  lemma {:induction false} CallsCanReturn(size: nat, w: Workload, actions: seq<Action>, s: nat, k: nat) returns (more: seq<Action>)
    requires size > 0 && WorkloadOk(w) && s > 0 && k <= w.chunks(s)
    ensures actions <= more
    ensures forall c | 1 <= c <= k :: Key(s, c) in Run(size, w, more).calls && Run(size, w, more).calls[Key(s, c)].Returned?
  {
    hide Run;
    if k == 0 {
      more := actions;
    } else {
      var before := CallsCanReturn(size, w, actions, s, k - 1);
      more := CallCanReturn(size, w, before, Key(s, k));
    }
  }

  /** From every reachable state some continuation completes a number: one call
      returns it with the maximum of its chunks' watermarks. */
  lemma EveryNumberCanComplete(size: nat, w: Workload, actions: seq<Action>, s: nat) returns (more: seq<Action>, key: Key)
    requires size > 0 && WorkloadOk(w) && s > 0
    ensures actions <= more && key.sequence == s
    ensures var calls := Run(size, w, more).calls;
            key in calls && calls[key].Returned? && calls[key].result.Complete? && IsMaximum(w, s, calls[key].result.value)
  {
    hide Run, IsMaximum;
    more := CallsCanReturn(size, w, actions, s, w.chunks(s));
    CompleteOnce(size, w, more, s);
    var calls := Run(size, w, more).calls;
    forall k | IsChunk(w, k) && k.sequence == s ensures k in calls && calls[k].Returned? {
      assert k == Key(s, k.chunk);
    }
    key :| key in calls && key.sequence == s && calls[key].Returned? && calls[key].result.Complete?;
  }
}
