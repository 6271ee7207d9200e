/** The non-blocking monotonic sequence queue: every thread that emplaces a value
    walks the block list, stores its slot and then shifts the current sequence
    number.  Each atomic access is one step; a weak compare-and-exchange may
    fail spuriously. */
module MonotonicQueue {
  import opened RingArithmetic

  /** Where a thread stands that emplaces one number. */
  datatype Phase =
    | Walk(block: nat)            // looking for its block
    | StoreValue                  // the slot's number is stored, its value is not
    | ShiftStart                  // at the top of the shift loop
    | LoadedHead(head: nat)
    | LoadedCurrent(head: nat, c: nat)
    | Exchange(c: nat)            // saw the number behind `c`, will exchange `c` for it
    | MoveHead(c: nat)            // exchanged, and the number behind `c` starts a block
    | Returned

  datatype Thread<T> = Thread(value: T, phase: Phase)

  /** The blocks `0..blocks` are linked; slot `s` lies in block `s / size`.  `seqs`
      holds the numbers stored in their slots, `values` the values. */
  datatype Queue<T> = Queue(
    blocks: nat, head: nat, currentSeq: nat, seqs: set<nat>, values: map<nat, T>, threads: map<nat, Thread<T>>)

  datatype Action<T> =
    | Emplace(s: nat, value: T)
    | WalkOn(s: nat)
    | AppendBlock(s: nat, spurious: bool)
    | StoreSlot(s: nat)
    | StoreSlotValue(s: nat)
    | LoadHead(s: nat)
    | LoadCurrent(s: nat)
    | Check(s: nat)
    | ExchangeCurrent(s: nat, spurious: bool)
    | ExchangeHead(s: nat, spurious: bool)

  function Initial<T>(): (q: Queue<T>) {
    Queue(1, 0, 0, {}, map[], map[])
  }

  function Move<T>(q: Queue<T>, s: nat, phase: Phase): (r: Queue<T>)
    requires s in q.threads
  {
    q.(threads := q.threads[s := q.threads[s].(phase := phase)])
  }

  predicate IsIn<T>(q: Queue<T>, s: nat, phase: Phase) {
    s in q.threads && q.threads[s].phase == phase
  }

  /** One atomic access.  A number is emplaced at most once; an action whose
      thread is not at that point does nothing. */
  function Next<T>(size: nat, q: Queue<T>, a: Action<T>): (r: Queue<T>)
    requires size > 0
  {
    match a
    case Emplace(s, value) =>
      if s == 0 || s in q.threads then q else q.(threads := q.threads[s := Thread(value, Walk(q.head))])
    case WalkOn(s) =>
      if s in q.threads && q.threads[s].phase.Walk? && q.threads[s].phase.block < s / size && q.threads[s].phase.block + 1 < q.blocks
      then Move(q, s, Walk(q.threads[s].phase.block + 1)) else q
    case AppendBlock(s, spurious) =>
      if s in q.threads && q.threads[s].phase.Walk? && q.threads[s].phase.block < s / size && q.threads[s].phase.block + 1 == q.blocks
         && !spurious
      then q.(blocks := q.blocks + 1) else q
    case StoreSlot(s) =>
      if s in q.threads && q.threads[s].phase.Walk? && q.threads[s].phase.block >= s / size
      then Move(q.(seqs := q.seqs + {s}), s, StoreValue) else q
    case StoreSlotValue(s) =>
      if IsIn(q, s, StoreValue) then Move(q.(values := q.values[s := q.threads[s].value]), s, ShiftStart) else q
    case LoadHead(s) =>
      if IsIn(q, s, ShiftStart) then Move(q, s, LoadedHead(q.head)) else q
    case LoadCurrent(s) =>
      if s in q.threads && q.threads[s].phase.LoadedHead?
      then Move(q, s, LoadedCurrent(q.threads[s].phase.head, q.currentSeq)) else q
    case Check(s) =>
      if s in q.threads && q.threads[s].phase.LoadedCurrent?
      then var c := q.threads[s].phase.c; Move(q, s, if c + 1 in q.seqs then Exchange(c) else Returned) else q
    case ExchangeCurrent(s, spurious) =>
      if s in q.threads && q.threads[s].phase.Exchange? then
        var c := q.threads[s].phase.c;
        if q.currentSeq == c && !spurious
        then Move(q.(currentSeq := c + 1), s, if (c + 1) % size == 0 then MoveHead(c) else ShiftStart)
        else Move(q, s, ShiftStart)
      else q
    case ExchangeHead(s, spurious) =>
      if s in q.threads && q.threads[s].phase.MoveHead? then
        var c := q.threads[s].phase.c;
        Move(q.(head := if q.head == c / size && !spurious then c / size + 1 else q.head), s, ShiftStart)
      else q
  }

  ghost function Run<T>(size: nat, actions: seq<Action<T>>): (q: Queue<T>)
    requires size > 0
  {
    if actions == [] then Initial() else Next(size, Run(size, actions[..|actions| - 1]), actions[|actions| - 1])
  }

  // -------------------------------------------------------------------- invariant

  /** What a thread's local copies say about the queue. */
  ghost predicate ThreadOk<T>(size: nat, q: Queue<T>, s: nat, t: Thread<T>)
    requires size > 0
  {
    && s > 0
    && (s in q.seqs <==> !t.phase.Walk?)
    && (s in q.values <==> !t.phase.Walk? && t.phase != StoreValue)
    && (s in q.values ==> q.values[s] == t.value)
    && match t.phase
       case Walk(b) => b < q.blocks && b <= s / size
       case LoadedHead(h) => h * size <= q.currentSeq
       case LoadedCurrent(h, c) => h * size <= c <= q.currentSeq
       case Exchange(c) => c <= q.currentSeq && c + 1 in q.seqs
       case MoveHead(c) => c + 1 <= q.currentSeq && (c + 1) % size == 0
       case _ => true
  }

  ghost predicate ThreadsOk<T>(size: nat, q: Queue<T>)
    requires size > 0
  {
    && q.seqs <= q.threads.Keys && q.values.Keys <= q.seqs
    && forall s | s in q.threads :: ThreadOk(size, q, s, q.threads[s])
  }

  /** All numbers up to the current one are stored, in blocks that exist, and the head is not ahead. */
  ghost predicate PrefixOk<T>(size: nat, q: Queue<T>)
    requires size > 0
  {
    && q.blocks > 0
    && (forall s: nat | 1 <= s <= q.currentSeq :: s in q.seqs)
    && (forall s | s in q.seqs :: s / size < q.blocks)
    && q.head * size <= q.currentSeq
  }

  /** The thread will look behind the current number again before it returns. */
  predicate WillCheck(phase: Phase) {
    !phase.Walk? && phase != Returned
  }

  /** If the next number is stored, some thread will shift over it. */
  ghost predicate ShiftPending<T>(q: Queue<T>) {
    q.currentSeq + 1 in q.seqs ==> exists s :: s in q.threads && WillCheck(q.threads[s].phase)
  }

  ghost predicate Inv<T>(size: nat, q: Queue<T>)
    requires size > 0
  {
    PrefixOk(size, q) && ThreadsOk(size, q) && ShiftPending(q)
  }

  lemma InitialInv<T>(size: nat)
    requires size > 0
    ensures Inv<T>(size, Initial())
  {
  }

  /** A thread that is not concerned by a step keeps what it knows. */
  lemma ThreadStable<T>(size: nat, q: Queue<T>, r: Queue<T>, s: nat, t: Thread<T>)
    requires size > 0 && ThreadOk(size, q, s, t)
    requires q.blocks <= r.blocks && q.currentSeq <= r.currentSeq && q.seqs <= r.seqs
    requires (s in r.seqs ==> s in q.seqs) && (s in r.values <==> s in q.values) && (s in q.values ==> r.values[s] == q.values[s])
    ensures ThreadOk(size, r, s, t)
  {
  }

  /** One thread moves; the shared state grows. */
  lemma MoveKeepsThreads<T>(size: nat, q: Queue<T>, r: Queue<T>, s: nat)
    requires size > 0 && ThreadsOk(size, q) && s in r.threads && ThreadOk(size, r, s, r.threads[s])
    requires r.threads == q.threads[s := r.threads[s]]
    requires q.blocks <= r.blocks && q.currentSeq <= r.currentSeq && q.seqs <= r.seqs <= q.seqs + {s}
    requires r.values.Keys <= r.seqs && forall k | k != s :: (k in r.values <==> k in q.values) && (k in q.values ==> r.values[k] == q.values[k])
    ensures ThreadsOk(size, r)
  {
    forall k | k in r.threads ensures ThreadOk(size, r, k, r.threads[k]) {
      if k != s {
        ThreadStable(size, q, r, k, q.threads[k]);
      }
    }
  }

  lemma HeadBelow<T>(size: nat, q: Queue<T>, s: nat)
    requires size > 0 && PrefixOk(size, q) && s > q.currentSeq
    ensures q.head <= s / size
    ensures q.head < q.blocks
  {
    BlockBound(q.head, size, s);
    if q.head > 0 {
      BlockBound(q.head, size, q.currentSeq);
      assert q.currentSeq in q.seqs;
    }
  }

  lemma BlockBound(h: nat, size: nat, x: nat)
    requires size > 0 && h * size <= x
    ensures h <= x / size
  {
    if h > x / size {
      Products(x / size + 1, h, size);
    }
  }

  lemma Products(a: nat, b: nat, n: nat)
    requires a <= b
    ensures a * n <= b * n
  {
  }

  lemma BlockRange(s: nat, size: nat)
    requires size > 0
    ensures s / size * size <= s < s / size * size + size
  {
  }

  lemma EmplaceKeepsInv<T>(size: nat, q: Queue<T>, s: nat, value: T)
    requires size > 0 && Inv(size, q)
    ensures Inv(size, Next(size, q, Emplace(s, value)))
    ensures s > 0 && s !in q.threads ==> s > q.currentSeq
  {
    if s > 0 && s !in q.threads {
      HeadBelow(size, q, s);
      var r := Next(size, q, Emplace(s, value));
      MoveKeepsThreads(size, q, r, s);
      StillPending(q, r, s);
    }
  }

  lemma StillPending<T>(q: Queue<T>, r: Queue<T>, s: nat)
    requires ShiftPending(q) && r.currentSeq == q.currentSeq && (q.currentSeq + 1 in r.seqs ==> q.currentSeq + 1 in q.seqs)
    requires s in r.threads && r.threads == q.threads[s := r.threads[s]]
    requires s in q.threads && WillCheck(q.threads[s].phase) ==> WillCheck(r.threads[s].phase) || q.currentSeq + 1 !in q.seqs
    ensures ShiftPending(r)
  {
    if r.currentSeq + 1 in r.seqs {
      var k :| k in q.threads && WillCheck(q.threads[k].phase);
      assert k in r.threads && WillCheck(r.threads[k].phase);
    }
  }

  lemma WalkKeepsInv<T>(size: nat, q: Queue<T>, s: nat, spurious: bool)
    requires size > 0 && Inv(size, q)
    ensures Inv(size, Next(size, q, WalkOn(s))) && Inv(size, Next(size, q, AppendBlock(s, spurious)))
  {
    var r := Next(size, q, WalkOn(s));
    if s in q.threads {
      assert ThreadOk(size, q, s, q.threads[s]);
      if r != q {
        MoveKeepsThreads(size, q, r, s);
        StillPending(q, r, s);
      }
      var a := Next(size, q, AppendBlock(s, spurious));
      forall k | k in q.threads ensures ThreadOk(size, a, k, q.threads[k]) {
        ThreadStable(size, q, a, k, q.threads[k]);
      }
    }
  }

  lemma StoreKeepsInv<T>(size: nat, q: Queue<T>, s: nat)
    requires size > 0 && Inv(size, q)
    ensures Inv(size, Next(size, q, StoreSlot(s))) && Inv(size, Next(size, q, StoreSlotValue(s)))
  {
    if s in q.threads {
      assert ThreadOk(size, q, s, q.threads[s]);
      var r := Next(size, q, StoreSlot(s));
      if r != q {
        MoveKeepsThreads(size, q, r, s);
        assert s in r.threads && WillCheck(r.threads[s].phase);
      }
      var v := Next(size, q, StoreSlotValue(s));
      if v != q {
        MoveKeepsThreads(size, q, v, s);
        StillPending(q, v, s);
      }
    }
  }

  lemma LoadKeepsInv<T>(size: nat, q: Queue<T>, s: nat)
    requires size > 0 && Inv(size, q)
    ensures Inv(size, Next(size, q, LoadHead(s))) && Inv(size, Next(size, q, LoadCurrent(s)))
  {
    if s in q.threads {
      assert ThreadOk(size, q, s, q.threads[s]);
      var r := Next(size, q, LoadHead(s));
      if r != q {
        MoveKeepsThreads(size, q, r, s);
        StillPending(q, r, s);
      }
      var c := Next(size, q, LoadCurrent(s));
      if c != q {
        MoveKeepsThreads(size, q, c, s);
        StillPending(q, c, s);
      }
    }
  }

  lemma CheckKeepsInv<T>(size: nat, q: Queue<T>, s: nat)
    requires size > 0 && Inv(size, q)
    ensures Inv(size, Next(size, q, Check(s)))
  {
    if s in q.threads && q.threads[s].phase.LoadedCurrent? {
      assert ThreadOk(size, q, s, q.threads[s]);
      var c, r := q.threads[s].phase.c, Next(size, q, Check(s));
      MoveKeepsThreads(size, q, r, s);
      assert c < q.currentSeq ==> c + 1 in q.seqs;
      StillPending(q, r, s);
    }
  }

  lemma ExchangeKeepsInv<T>(size: nat, q: Queue<T>, s: nat, spurious: bool)
    requires size > 0 && Inv(size, q)
    ensures Inv(size, Next(size, q, ExchangeCurrent(s, spurious)))
  {
    if s in q.threads && q.threads[s].phase.Exchange? {
      assert ThreadOk(size, q, s, q.threads[s]);
      var r := Next(size, q, ExchangeCurrent(s, spurious));
      MoveKeepsThreads(size, q, r, s);
      assert s in r.threads && WillCheck(r.threads[s].phase);
    }
  }

  lemma NextBlock(c: nat, size: nat)
    requires size > 0 && (c + 1) % size == 0
    ensures (c / size + 1) * size == c + 1
  {
    var b := (c + 1) / size;
    assert c + 1 == b * size;
    assert c == (b - 1) * size + (size - 1);
    DivisionIsUnique(c, size, b - 1, size - 1);
  }

  lemma HeadKeepsInv<T>(size: nat, q: Queue<T>, s: nat, spurious: bool)
    requires size > 0 && Inv(size, q)
    ensures Inv(size, Next(size, q, ExchangeHead(s, spurious)))
  {
    if s in q.threads && q.threads[s].phase.MoveHead? {
      assert ThreadOk(size, q, s, q.threads[s]);
      NextBlock(q.threads[s].phase.c, size);
      var r := Next(size, q, ExchangeHead(s, spurious));
      MoveKeepsThreads(size, q, r, s);
      StillPending(q, r, s);
    }
  }

  lemma NextKeepsInv<T>(size: nat, q: Queue<T>, a: Action<T>)
    requires size > 0 && Inv(size, q)
    ensures Inv(size, Next(size, q, a))
    ensures Next(size, q, a).currentSeq >= q.currentSeq && Next(size, q, a).head >= q.head
  {
    hide Inv;
    match a
    case Emplace(s, value) => EmplaceKeepsInv(size, q, s, value);
    case WalkOn(s) => WalkKeepsInv(size, q, s, true);
    case AppendBlock(s, spurious) => WalkKeepsInv(size, q, s, spurious);
    case StoreSlot(s) => StoreKeepsInv(size, q, s);
    case StoreSlotValue(s) => StoreKeepsInv(size, q, s);
    case LoadHead(s) => LoadKeepsInv(size, q, s);
    case LoadCurrent(s) => LoadKeepsInv(size, q, s);
    case Check(s) => CheckKeepsInv(size, q, s);
    case ExchangeCurrent(s, spurious) => ExchangeKeepsInv(size, q, s, spurious);
    case ExchangeHead(s, spurious) => HeadKeepsInv(size, q, s, spurious);
  }

  lemma {:induction false} RunKeepsInv<T>(size: nat, actions: seq<Action<T>>)
    requires size > 0
    ensures Inv(size, Run(size, actions))
  {
    hide Inv, Next;
    if actions == [] {
      InitialInv<T>(size);
    } else {
      RunKeepsInv(size, actions[..|actions| - 1]);
      NextKeepsInv(size, Run(size, actions[..|actions| - 1]), actions[|actions| - 1]);
    }
  }

  // --------------------------------------------------------------------- theorems

  /** The current sequence number never decreases along a run. */
  lemma {:induction false} CurrentNeverDecreases<T>(size: nat, actions: seq<Action<T>>, more: seq<Action<T>>)
    requires size > 0
    ensures Run(size, actions).currentSeq <= Run(size, actions + more).currentSeq
  {
    hide Next;
    if more == [] {
      assert actions + more == actions;
    } else {
      var rest := more[..|more| - 1];
      CurrentNeverDecreases(size, actions, rest);
      assert (actions + more)[..|actions + more| - 1] == actions + rest;
      RunKeepsInv(size, actions + rest);
      NextKeepsInv(size, Run(size, actions + rest), more[|more| - 1]);
    }
  }

  /** In every reachable state all numbers up to the current one were emplaced,
      and a number that arrives is above it. */
  lemma CurrentIsEmplaced<T>(size: nat, actions: seq<Action<T>>, s: nat)
    requires size > 0 && s > 0
    ensures var q := Run(size, actions);
            s <= q.currentSeq ==> s in q.threads
  {
    hide Run, ThreadOk;
    RunKeepsInv(size, actions);
  }

  /** A thread that has found its block is in the block of its number. */
  lemma BlockOfNumber<T>(size: nat, actions: seq<Action<T>>, s: nat)
    requires size > 0
    ensures var q := Run(size, actions);
            s in q.threads && q.threads[s].phase.Walk? && q.threads[s].phase.block >= s / size ==>
              q.threads[s].phase.block * size <= s < q.threads[s].phase.block * size + size
  {
    hide Run;
    RunKeepsInv(size, actions);
    var q := Run(size, actions);
    BlockRange(s, size);
    if s in q.threads {
      assert ThreadOk(size, q, s, q.threads[s]);
    }
  }

  /** The block of a loaded current number exists and is not before the loaded head. */
  lemma BlockOfCurrent<T>(size: nat, actions: seq<Action<T>>, s: nat)
    requires size > 0
    ensures var q := Run(size, actions);
            s in q.threads && q.threads[s].phase.LoadedCurrent? ==>
              q.threads[s].phase.head <= q.threads[s].phase.c / size < q.blocks
  {
    hide Run;
    RunKeepsInv(size, actions);
    var q := Run(size, actions);
    if s in q.threads && q.threads[s].phase.LoadedCurrent? {
      assert ThreadOk(size, q, s, q.threads[s]);
      var c := q.threads[s].phase.c;
      BlockBound(q.threads[s].phase.head, size, c);
      FirstBlock(size);
      if c > 0 {
        assert c in q.seqs;
      }
    }
  }

  lemma FirstBlock(size: nat)
    requires size > 0
    ensures 0 / size == 0
  {
  }

  ghost predicate AllReturned<T>(q: Queue<T>) {
    forall s | s in q.threads :: q.threads[s].phase == Returned
  }

  // ----------------------------------------------------------- what was emplaced

  /** Some call emplaces number `s`. */
  ghost predicate IsEmplaced<T>(actions: seq<Action<T>>, s: nat) {
    exists i: nat :: i < |actions| && actions[i].Emplace? && actions[i].s == s
  }

  /** The first call that emplaces `s` brings value `v`. */
  ghost predicate FirstEmplaced<T>(actions: seq<Action<T>>, s: nat, v: T) {
    exists i: nat :: i < |actions| && actions[i] == Emplace(s, v) && !IsEmplaced(actions[..i], s)
  }

  lemma EmplacedBefore<T>(actions: seq<Action<T>>, s: nat)
    requires actions != []
    ensures var k := |actions| - 1;
            IsEmplaced(actions, s) <==> IsEmplaced(actions[..k], s) || (actions[k].Emplace? && actions[k].s == s)
    ensures forall v :: FirstEmplaced(actions[..|actions| - 1], s, v) ==> FirstEmplaced(actions, s, v)
  {
    var k := |actions| - 1;
    if i: nat :| i < k && actions[..k][i].Emplace? && actions[..k][i].s == s {
      assert actions[i].Emplace?;
    }
    if i: nat :| i < |actions| && actions[i].Emplace? && actions[i].s == s {
      assert i < k ==> actions[..k][i].Emplace?;
    }
    forall v | FirstEmplaced(actions[..k], s, v) ensures FirstEmplaced(actions, s, v) {
      var i: nat :| i < k && actions[..k][i] == Emplace(s, v) && !IsEmplaced(actions[..k][..i], s);
      assert actions[..k][..i] == actions[..i];
    }
  }

  /** The threads are those of the calls, and each has the value of its number's first call. */
  lemma {:induction false} ThreadsAreEmplaced<T>(size: nat, actions: seq<Action<T>>, s: nat)
    requires size > 0
    ensures var q := Run(size, actions);
            && (s in q.threads <==> s > 0 && IsEmplaced(actions, s))
            && (s in q.threads ==> FirstEmplaced(actions, s, q.threads[s].value))
  {
    hide IsEmplaced, FirstEmplaced, Next;
    if actions == [] {
      NothingEmplaced<T>(s);
    } else {
      var k := |actions| - 1;
      ThreadsAreEmplaced(size, actions[..k], s);
      EmplacedBefore(actions, s);
      var q, a := Run(size, actions[..k]), actions[k];
      ThreadStays(size, q, a, s);
      if a.Emplace? && a.s == s && s > 0 && s !in q.threads {
        EmplacedNow(actions, s, a.value);
      }
      var r := Run(size, actions);
      assert r == Next(size, q, a);
      assert s in r.threads <==> s > 0 && IsEmplaced(actions, s);
      assert s in r.threads && s in q.threads ==> FirstEmplaced(actions, s, r.threads[s].value);
    }
  }

  lemma ThreadStays<T>(size: nat, q: Queue<T>, a: Action<T>, s: nat)
    requires size > 0
    ensures var r := Next(size, q, a);
            && (s in q.threads ==> s in r.threads && r.threads[s].value == q.threads[s].value)
            && (s !in q.threads ==> (s in r.threads <==> a.Emplace? && a.s == s && s > 0))
            && (s !in q.threads && s in r.threads ==> r.threads[s].value == a.value)
  {
  }

  lemma NothingEmplaced<T>(s: nat)
    ensures !IsEmplaced<T>([], s)
  {
  }

  lemma EmplacedNow<T>(actions: seq<Action<T>>, s: nat, v: T)
    requires actions != [] && actions[|actions| - 1] == Emplace(s, v) && !IsEmplaced(actions[..|actions| - 1], s)
    ensures FirstEmplaced(actions, s, v)
  {
  }

  /** In every run a slot's value is the one its number was first emplaced with. */
  lemma StoredValues<T>(size: nat, actions: seq<Action<T>>, s: nat)
    requires size > 0
    ensures var q := Run(size, actions);
            && (s in q.values ==> FirstEmplaced(actions, s, q.values[s]))
            && (0 < s <= q.currentSeq ==> IsEmplaced(actions, s))
  {
    hide Run, IsEmplaced, FirstEmplaced;
    RunKeepsInv(size, actions);
    ThreadsAreEmplaced(size, actions, s);
    var q := Run(size, actions);
    if s in q.threads {
      assert ThreadOk(size, q, s, q.threads[s]);
    }
  }

  lemma ReturnedIsStored<T>(size: nat, q: Queue<T>, s: nat)
    requires size > 0 && ThreadsOk(size, q)
    ensures s in q.threads && q.threads[s].phase == Returned ==> s in q.seqs && s in q.values
  {
    if s in q.threads {
      assert ThreadOk(size, q, s, q.threads[s]);
    }
  }

  lemma QuietNumbers<T>(size: nat, q: Queue<T>)
    requires size > 0 && Inv(size, q) && AllReturned(q)
    ensures q.currentSeq + 1 !in q.threads && (q.currentSeq > 0 ==> q.currentSeq in q.values)
  {
    hide ThreadOk;
    ReturnedIsStored(size, q, q.currentSeq + 1);
    ReturnedIsStored(size, q, q.currentSeq);
  }

  /** When every emplace has returned, the current number is the largest one with
      all numbers up to it emplaced, and its slot holds the value of its first emplace. */
  lemma QuiescentQueue<T>(size: nat, actions: seq<Action<T>>)
    requires size > 0 && AllReturned(Run(size, actions))
    ensures var q := Run(size, actions);
            && (forall s: nat | 1 <= s <= q.currentSeq :: IsEmplaced(actions, s))
            && !IsEmplaced(actions, q.currentSeq + 1)
            && (q.currentSeq > 0 ==> q.currentSeq in q.values && FirstEmplaced(actions, q.currentSeq, q.values[q.currentSeq]))
  {
    hide Run, IsEmplaced, FirstEmplaced, Inv;
    RunKeepsInv(size, actions);
    var q := Run(size, actions);
    QuietNumbers(size, q);
    forall s: nat | 1 <= s <= q.currentSeq ensures IsEmplaced(actions, s) {
      StoredValues(size, actions, s);
    }
    ThreadsAreEmplaced(size, actions, q.currentSeq + 1);
    StoredValues(size, actions, q.currentSeq);
  }

  // --------------------------------------------------------------------- progress

  lemma Continue<T>(size: nat, actions: seq<Action<T>>, a: Action<T>)
    requires size > 0
    ensures Run(size, actions + [a]) == Next(size, Run(size, actions), a)
  {
    assert (actions + [a])[..|actions|] == actions;
  }

  /** What the thread of `s` does next if it runs alone. */
  function Solo<T>(size: nat, q: Queue<T>, s: nat): (a: Action<T>)
    requires size > 0 && s in q.threads
  {
    match q.threads[s].phase
    case Walk(b) => if b >= s / size then StoreSlot(s) else if b + 1 < q.blocks then WalkOn(s) else AppendBlock(s, false)
    case StoreValue => StoreSlotValue(s)
    case ShiftStart => LoadHead(s)
    case LoadedHead(_) => LoadCurrent(s)
    case LoadedCurrent(_, _) => Check(s)
    case Exchange(_) => ExchangeCurrent(s, false)
    case MoveHead(_) => ExchangeHead(s, false)
    case Returned => LoadHead(s)
  }

  function Stage(phase: Phase): (n: nat) {
    match phase
    case Walk(_) => 3
    case StoreValue => 2
    case Returned => 0
    case _ => 1
  }

  /** How far the thread still has to walk. */
  function Distance<T>(size: nat, q: Queue<T>, s: nat, phase: Phase): (n: nat)
    requires size > 0
  {
    if phase.Walk? && phase.block < s / size
    then 2 * (s / size - phase.block) + (if phase.block + 1 < q.blocks then 0 else 1) else 0
  }

  /** The stored numbers that are not shifted over yet. */
  function Ahead<T>(q: Queue<T>): (r: set<nat>) {
    set x | x in q.seqs && x > q.currentSeq
  }

  /** The steps to the next exchange, which fails only with an old copy of the current number. */
  function Rank(currentSeq: nat, phase: Phase): (n: nat) {
    match phase
    case LoadedCurrent(_, c) => if c < currentSeq then 7 else 3
    case Exchange(c) => if c < currentSeq then 6 else 2
    case MoveHead(_) => 6
    case ShiftStart => 5
    case LoadedHead(_) => 4
    case _ => 0
  }

  lemma SoloStep<T>(size: nat, q: Queue<T>, s: nat)
    requires size > 0 && Inv(size, q) && s in q.threads && q.threads[s].phase != Returned
    ensures var r := Next(size, q, Solo(size, q, s));
            && s in r.threads && r.threads == q.threads[s := r.threads[s]]
            && var p, p' := q.threads[s].phase, r.threads[s].phase;
               (|| Stage(p') < Stage(p)
                || (Stage(p') == Stage(p) && Distance(size, r, s, p') < Distance(size, q, s, p))
                || (Stage(p') == Stage(p) && Distance(size, r, s, p') == Distance(size, q, s, p) && Ahead(r) < Ahead(q))
                || (Stage(p') == Stage(p) && Distance(size, r, s, p') == Distance(size, q, s, p) && Ahead(r) == Ahead(q)
                      && Rank(r.currentSeq, p') < Rank(q.currentSeq, p)))
  {
    assert ThreadOk(size, q, s, q.threads[s]);
    var r := Next(size, q, Solo(size, q, s));
    if q.threads[s].phase.Exchange? && q.threads[s].phase.c == q.currentSeq {
      assert q.currentSeq + 1 in Ahead(q) && q.currentSeq + 1 !in Ahead(r);
      assert Ahead(r) <= Ahead(q);
    }
  }

  /** From every reachable state a thread that runs alone returns. */
  lemma {:induction false} ThreadCanReturn<T>(size: nat, actions: seq<Action<T>>, s: nat) returns (more: seq<Action<T>>)
    requires size > 0 && s in Run(size, actions).threads
    ensures actions <= more && s in Run(size, more).threads && Run(size, more).threads[s].phase == Returned
    ensures Run(size, more).threads == Run(size, actions).threads[s := Run(size, more).threads[s]]
    decreases Stage(Run(size, actions).threads[s].phase),
              Distance(size, Run(size, actions), s, Run(size, actions).threads[s].phase),
              Ahead(Run(size, actions)), Rank(Run(size, actions).currentSeq, Run(size, actions).threads[s].phase)
  {
    hide Run, Next, Inv, Solo, Stage, Distance, Ahead, Rank;
    var q := Run(size, actions);
    if q.threads[s].phase == Returned {
      more := actions;
    } else {
      RunKeepsInv(size, actions);
      SoloStep(size, q, s);
      Continue(size, actions, Solo(size, q, s));
      more := ThreadCanReturn(size, actions + [Solo(size, q, s)], s);
    }
  }

  function Running<T>(q: Queue<T>): (r: set<nat>) {
    set s | s in q.threads && q.threads[s].phase != Returned
  }

  /** From every reachable state some continuation lets every call return. */
  lemma {:induction false} EveryCallCanReturn<T>(size: nat, actions: seq<Action<T>>) returns (more: seq<Action<T>>)
    requires size > 0
    ensures actions <= more && AllReturned(Run(size, more)) && Run(size, more).threads.Keys == Run(size, actions).threads.Keys
    decreases Running(Run(size, actions))
  {
    hide Run, Next;
    var q := Run(size, actions);
    if s :| s in Running(q) {
      var one := ThreadCanReturn(size, actions, s);
      assert s !in Running(Run(size, one)) && Running(Run(size, one)) <= Running(q);
      more := EveryCallCanReturn(size, one);
    } else {
      more := actions;
      forall s | s in q.threads ensures q.threads[s].phase == Returned {
        assert s !in Running(q);
      }
    }
  }

  // ------------------------------------------------------------------- the head

  ghost predicate NobodyMoves<T>(q: Queue<T>) {
    forall s | s in q.threads :: !q.threads[s].phase.MoveHead?
  }

  /** The head is in the block of the current number, or one thread is about to move it there. */
  ghost predicate HeadOk<T>(size: nat, q: Queue<T>)
    requires size > 0
  {
    && (NobodyMoves(q) ==> q.head == q.currentSeq / size)
    && (forall s | s in q.threads && q.threads[s].phase.MoveHead? ::
          q.head == q.threads[s].phase.c / size && q.currentSeq / size == q.head + 1)
    && (forall s, k | s in q.threads && k in q.threads && q.threads[s].phase.MoveHead? && q.threads[k].phase.MoveHead? :: s == k)
  }

  /** The exchange takes the current number into a new block. */
  predicate Crosses<T>(size: nat, q: Queue<T>, a: Action<T>)
    requires size > 0
  {
    && a.ExchangeCurrent? && a.s in q.threads && q.threads[a.s].phase.Exchange? && !a.spurious
    && q.currentSeq == q.threads[a.s].phase.c && (q.currentSeq + 1) % size == 0
  }

  /** No head exchange fails for no reason, and no thread enters a new block while another is still to move the head. */
  ghost predicate Orderly<T>(size: nat, actions: seq<Action<T>>)
    requires size > 0
  {
    forall i | 0 <= i < |actions| ::
      && !(actions[i].ExchangeHead? && actions[i].spurious)
      && (Crosses(size, Run(size, actions[..i]), actions[i]) ==> NobodyMoves(Run(size, actions[..i])))
  }

  lemma SameBlock(c: nat, size: nat)
    requires size > 0
    ensures (c + 1) / size == if (c + 1) % size == 0 then c / size + 1 else c / size
  {
    if (c + 1) % size == 0 {
      NextBlock(c, size);
      DivisionIsUnique(c + 1, size, c / size + 1, 0);
    } else {
      var b, r := (c + 1) / size, (c + 1) % size;
      assert c == b * size + (r - 1);
      DivisionIsUnique(c, size, b, r - 1);
    }
  }

  /** A step that moves neither the head nor the current number, and whose thread does not move the head. */
  lemma OtherStepKeepsHead<T>(size: nat, q: Queue<T>, r: Queue<T>, k: nat)
    requires size > 0 && HeadOk(size, q) && r.head == q.head && r.currentSeq / size == q.currentSeq / size
    requires k in r.threads && r.threads == q.threads[k := r.threads[k]] && !r.threads[k].phase.MoveHead?
    requires k in q.threads ==> !q.threads[k].phase.MoveHead?
    ensures HeadOk(size, r)
  {
    if NobodyMoves(r) {
      forall s | s in q.threads ensures !q.threads[s].phase.MoveHead? {
        assert s in r.threads;
      }
    }
  }

  lemma CrossingKeepsHead<T>(size: nat, q: Queue<T>, s: nat)
    requires size > 0 && HeadOk(size, q) && NobodyMoves(q) && Crosses(size, q, ExchangeCurrent(s, false))
    ensures HeadOk(size, Next(size, q, ExchangeCurrent(s, false)))
  {
    SameBlock(q.currentSeq, size);
    var r := Next(size, q, ExchangeCurrent(s, false));
    assert s in r.threads && r.threads[s].phase == MoveHead(q.currentSeq);
  }

  lemma MovingKeepsHead<T>(size: nat, q: Queue<T>, s: nat)
    requires size > 0 && HeadOk(size, q) && s in q.threads && q.threads[s].phase.MoveHead?
    ensures HeadOk(size, Next(size, q, ExchangeHead(s, false)))
  {
    var r := Next(size, q, ExchangeHead(s, false));
    assert forall k | k in r.threads :: k in q.threads && (k != s ==> r.threads[k] == q.threads[k]);
  }

  lemma SameHeadState<T>(size: nat, q: Queue<T>, r: Queue<T>)
    requires size > 0 && HeadOk(size, q) && r.head == q.head && r.currentSeq == q.currentSeq && r.threads == q.threads
    ensures HeadOk(size, r)
  {
  }

  lemma NextKeepsHead<T>(size: nat, q: Queue<T>, a: Action<T>)
    requires size > 0 && HeadOk(size, q) && !(a.ExchangeHead? && a.spurious)
    requires Crosses(size, q, a) ==> NobodyMoves(q)
    ensures HeadOk(size, Next(size, q, a))
  {
    hide HeadOk, NobodyMoves;
    var r := Next(size, q, a);
    if Crosses(size, q, a) {
      CrossingKeepsHead(size, q, a.s);
    } else if a.ExchangeHead? && a.s in q.threads && q.threads[a.s].phase.MoveHead? {
      MovingKeepsHead(size, q, a.s);
    } else if r.threads == q.threads {
      SameHeadState(size, q, r);
    } else {
      SameBlock(q.currentSeq, size);
      OtherStepKeepsHead(size, q, r, a.s);
    }
  }

  /** In an orderly run the head follows the current number. */
  lemma {:induction false} HeadFollows<T>(size: nat, actions: seq<Action<T>>)
    requires size > 0 && Orderly(size, actions)
    ensures HeadOk(size, Run(size, actions))
    ensures AllReturned(Run(size, actions)) ==> Run(size, actions).head == Run(size, actions).currentSeq / size
  {
    hide Next, Inv, Crosses;
    if actions != [] {
      var k := |actions| - 1;
      assert Orderly(size, actions[..k]) by {
        forall i | 0 <= i < k ensures actions[..k][i] == actions[i] && actions[..k][..i] == actions[..i] {
        }
      }
      HeadFollows(size, actions[..k]);
      NextKeepsHead(size, Run(size, actions[..k]), actions[k]);
    } else {
      FirstBlock(size);
    }
  }

  /** One more step of a run with blocks of one number. */
  lemma Push<T>(actions: seq<Action<T>>, q: Queue<T>, a: Action<T>) returns (more: seq<Action<T>>, r: Queue<T>)
    requires Run(1, actions) == q
    ensures r == Next(1, q, a) == Run(1, more)
  {
    Continue(1, actions, a);
    more, r := actions + [a], Next(1, q, a);
  }

  function TwoThreads<T>(head: nat, currentSeq: nat, v: T, first: Phase, second: Phase): (q: Queue<T>) {
    Queue(3, head, currentSeq, {1, 2}, map[1 := v, 2 := v], map[1 := Thread(v, first), 2 := Thread(v, second)])
  }

  lemma FirstStores<T>(v: T) returns (actions: seq<Action<T>>)
    ensures Run(1, actions) == Queue(2, 0, 0, {1}, map[1 := v], map[1 := Thread(v, ShiftStart)])
  {
    hide Run;
    var q: Queue<T>;
    actions := [];
    q := Start(actions);
    actions, q := Push(actions, q, Emplace(1, v));
    actions, q := Push(actions, q, AppendBlock(1, false));
    actions, q := Push(actions, q, WalkOn(1));
    actions, q := Push(actions, q, StoreSlot(1));
    actions, q := Push(actions, q, StoreSlotValue(1));
  }

  lemma SecondStores<T>(before: seq<Action<T>>, v: T) returns (actions: seq<Action<T>>)
    requires Run(1, before) == Queue(2, 0, 0, {1}, map[1 := v], map[1 := Thread(v, ShiftStart)])
    ensures Run(1, actions) == TwoThreads(0, 0, v, ShiftStart, ShiftStart)
  {
    hide Run;
    var q := Queue(2, 0, 0, {1}, map[1 := v], map[1 := Thread(v, ShiftStart)]);
    actions := before;
    actions, q := Push(actions, q, Emplace(2, v));
    actions, q := Push(actions, q, WalkOn(2));
    actions, q := Push(actions, q, AppendBlock(2, false));
    actions, q := Push(actions, q, WalkOn(2));
    actions, q := Push(actions, q, StoreSlot(2));
    actions, q := Push(actions, q, StoreSlotValue(2));
  }

  lemma Start<T>(actions: seq<Action<T>>) returns (q: Queue<T>)
    requires actions == []
    ensures q == Initial() == Run(1, actions)
  {
    q := Initial();
  }

  lemma FirstShifts<T>(before: seq<Action<T>>, v: T) returns (actions: seq<Action<T>>)
    requires Run(1, before) == TwoThreads(0, 0, v, ShiftStart, ShiftStart)
    ensures Run(1, actions) == TwoThreads(0, 1, v, MoveHead(0), ShiftStart)
  {
    hide Run;
    var q := TwoThreads(0, 0, v, ShiftStart, ShiftStart);
    actions := before;
    actions, q := Push(actions, q, LoadHead(1));
    actions, q := Push(actions, q, LoadCurrent(1));
    actions, q := Push(actions, q, Check(1));
    actions, q := Push(actions, q, ExchangeCurrent(1, false));
  }

  lemma SecondShifts<T>(before: seq<Action<T>>, v: T) returns (actions: seq<Action<T>>)
    requires Run(1, before) == TwoThreads(0, 1, v, MoveHead(0), ShiftStart)
    ensures Run(1, actions) == TwoThreads(0, 2, v, MoveHead(0), MoveHead(1))
  {
    hide Run;
    var q := TwoThreads(0, 1, v, MoveHead(0), ShiftStart);
    actions := before;
    actions, q := Push(actions, q, LoadHead(2));
    actions, q := Push(actions, q, LoadCurrent(2));
    actions, q := Push(actions, q, Check(2));
    actions, q := Push(actions, q, ExchangeCurrent(2, false));
  }

  lemma HeadMovesOnce<T>(before: seq<Action<T>>, v: T) returns (actions: seq<Action<T>>)
    requires Run(1, before) == TwoThreads(0, 2, v, MoveHead(0), MoveHead(1))
    ensures Run(1, actions) == TwoThreads(1, 2, v, ShiftStart, ShiftStart)
  {
    hide Run;
    var q := TwoThreads(0, 2, v, MoveHead(0), MoveHead(1));
    actions := before;
    actions, q := Push(actions, q, ExchangeHead(2, false));
    actions, q := Push(actions, q, ExchangeHead(1, false));
  }

  lemma FirstReturns<T>(before: seq<Action<T>>, v: T) returns (actions: seq<Action<T>>)
    requires Run(1, before) == TwoThreads(1, 2, v, ShiftStart, ShiftStart)
    ensures Run(1, actions) == TwoThreads(1, 2, v, Returned, ShiftStart)
  {
    hide Run;
    var q := TwoThreads(1, 2, v, ShiftStart, ShiftStart);
    actions := before;
    actions, q := Push(actions, q, LoadHead(1));
    actions, q := Push(actions, q, LoadCurrent(1));
    actions, q := Push(actions, q, Check(1));
  }

  lemma SecondReturns<T>(before: seq<Action<T>>, v: T) returns (actions: seq<Action<T>>)
    requires Run(1, before) == TwoThreads(1, 2, v, Returned, ShiftStart)
    ensures Run(1, actions) == TwoThreads(1, 2, v, Returned, Returned)
  {
    hide Run;
    var q := TwoThreads(1, 2, v, Returned, ShiftStart);
    actions := before;
    actions, q := Push(actions, q, LoadHead(2));
    actions, q := Push(actions, q, LoadCurrent(2));
    actions, q := Push(actions, q, Check(2));
  }

  /** Blocks of one number, two calls: the second enters its block before the first
      has moved the head.  The head then stays behind. */
  lemma HeadCanLag<T>(v: T) returns (actions: seq<Action<T>>)
    ensures var q := Run(1, actions);
            AllReturned(q) && q.currentSeq == 2 && q.head == 1 != q.currentSeq / 1
  {
    hide Run;
    actions := FirstStores(v);
    actions := SecondStores(actions, v);
    actions := FirstShifts(actions, v);
    actions := SecondShifts(actions, v);
    actions := HeadMovesOnce(actions, v);
    actions := FirstReturns(actions, v);
    actions := SecondReturns(actions, v);
  }

  // -------------------------------------------------------------- released blocks

  /** The first block that a thread has a reference to. */
  function Holds(phase: Phase): (r: set<nat>) {
    match phase
    case Walk(b) => {b}
    case LoadedHead(h) => {h}
    case LoadedCurrent(h, _) => {h}
    case _ => {}
  }

  /** The block is kept by the queue's head, or by a thread at it or before it. */
  ghost predicate IsKept<T>(q: Queue<T>, b: nat) {
    b < q.blocks && (q.head <= b || exists s, h :: s in q.threads && h in Holds(q.threads[s].phase) && h <= b)
  }

  lemma KeptByThread<T>(q: Queue<T>, s: nat, h: nat, b: nat)
    requires s in q.threads && h in Holds(q.threads[s].phase) && h <= b < q.blocks
    ensures IsKept(q, b)
  {
  }

  /** Every reference that a step makes is to a block that is still kept: no thread uses a released block. */
  lemma ReferencesAreKept<T>(size: nat, actions: seq<Action<T>>, a: Action<T>, s: nat, b: nat)
    requires size > 0
    requires var r := Next(size, Run(size, actions), a);
             s in r.threads && b in Holds(r.threads[s].phase)
    ensures IsKept(Run(size, actions), b)
  {
    hide Run, IsKept;
    RunKeepsInv(size, actions);
    var q := Run(size, actions);
    if s in q.threads {
      assert ThreadOk(size, q, s, q.threads[s]);
    }
    if s in q.threads && q.threads[s].phase == Next(size, q, a).threads[s].phase {
      KeptHolds(size, q, s, b);
    } else if s in q.threads && q.threads[s].phase.Walk? {
      KeptByThread(q, s, q.threads[s].phase.block, b);
    } else if s in q.threads && q.threads[s].phase.LoadedHead? {
      KeptHolds(size, q, s, b);
    } else {
      HeadIsKept(size, q);
    }
  }

  lemma KeptHolds<T>(size: nat, q: Queue<T>, s: nat, b: nat)
    requires size > 0 && Inv(size, q) && s in q.threads && b in Holds(q.threads[s].phase)
    ensures IsKept(q, b)
  {
    assert ThreadOk(size, q, s, q.threads[s]);
    if !q.threads[s].phase.Walk? {
      BlockBound(b, size, q.currentSeq);
      HeadBelow(size, q, q.currentSeq + 1);
      if q.currentSeq > 0 {
        assert q.currentSeq in q.seqs;
      } else {
        FirstBlock(size);
      }
    }
    KeptByThread(q, s, b, b);
  }

  lemma HeadIsKept<T>(size: nat, q: Queue<T>)
    requires size > 0 && Inv(size, q)
    ensures IsKept(q, q.head)
  {
    HeadBelow(size, q, q.currentSeq + 1);
  }
}
