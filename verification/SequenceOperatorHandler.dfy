/** The sequence operator's handler: workers bring items in any order, and one
    worker at a time processes them in their order through one buffer variable
    that no lock protects.

    A worker asks the sequencer under its lock; if it is granted the item it
    stores it in the variable, processes what the variable holds, loads the
    sequence data from it, and advances the sequencer under its lock, which may
    grant it the following item.  These five steps of any number of workers
    interleave freely. */
module SequenceOperator {
  import opened Options
  import opened Sequencing

  /** What a worker is about to do: store the granted item, process the current
      buffer, load its sequence data, advance with them. */
  datatype Phase<T> = Granted(item: Item<T>) | Holding | Processed | Loaded(sequence: SequenceData)

  /** The sequencer's state, the variable, the workers that are not idle, the
      stream's items that have arrived, and those processed, in order; `refused`
      if the sequencer's precondition ever failed. */
  datatype Handler<T> = Handler(
    next: (nat, nat),
    queue: seq<Item<T>>,
    currentBuffer: Option<Item<T>>,
    busy: map<nat, Phase<T>>,
    arrived: set<nat>,
    advanced: nat,
    log: seq<Item<T>>,
    refused: bool)

  datatype Action = Ask(w: nat, i: nat) | Store(w: nat) | Process(w: nat) | Load(w: nat) | Advance(w: nat)

  function Initial<T>(): (s: Handler<T>) {
    Handler((1, 1), [], None, map[], {}, 0, [], false)
  }

  /** The worker can take this step now. */
  predicate Enabled<T>(stream: seq<Item<T>>, s: Handler<T>, a: Action) {
    match a
    case Ask(w, i) => w !in s.busy && i < |stream| && i !in s.arrived
    case Store(w) => w in s.busy && s.busy[w].Granted?
    case Process(w) => w in s.busy && s.busy[w].Holding? && s.currentBuffer.Some?
    case Load(w) => w in s.busy && s.busy[w].Processed? && s.currentBuffer.Some?
    case Advance(w) => w in s.busy && s.busy[w].Loaded?
  }

  /** The step reads or writes the unprotected variable. */
  predicate UsesBuffer(a: Action) {
    a.Store? || a.Process? || a.Load?
  }

  function Next<T(==)>(stream: seq<Item<T>>, s: Handler<T>, a: Action): (r: Handler<T>) {
    if !Enabled(stream, s, a) then s
    else match a
      case Ask(w, i) => AskStep(s, w, i, stream[i])
      case Store(w) => s.(currentBuffer := Some(s.busy[w].item), busy := s.busy[w := Holding])
      case Process(w) => s.(log := s.log + [s.currentBuffer.value], busy := s.busy[w := Processed])
      case Load(w) => s.(busy := s.busy[w := Loaded(s.currentBuffer.value.sequence)])
      case Advance(w) => AdvanceStep(s, w, s.busy[w].sequence)
  }

  function AskStep<T(==)>(s: Handler<T>, w: nat, i: nat, item: Item<T>): (r: Handler<T>) {
    if Position(item.sequence) == s.next
    then s.(arrived := s.arrived + {i}, busy := s.busy[w := Granted(item)])
    else s.(arrived := s.arrived + {i}, queue := Insert(s.queue, item))
  }

  function AdvanceStep<T(==)>(s: Handler<T>, w: nat, done: SequenceData): (r: Handler<T>) {
    if Position(done) != s.next then s.(refused := true)
    else
      var next := Successor(done);
      var t := s.(next := next, advanced := s.advanced + 1);
      if s.queue != [] && Position(s.queue[0].sequence) == next
      then t.(queue := s.queue[1..], busy := s.busy[w := Granted(s.queue[0])])
      else t.(busy := s.busy - {w})
  }

  ghost function Run<T>(stream: seq<Item<T>>, actions: seq<Action>): (s: Handler<T>) {
    if actions == [] then Initial() else Next(stream, Run(stream, actions[..|actions| - 1]), actions[|actions| - 1])
  }

  // -------------------------------------------------------------------- invariant

  /** The sequencer is at item `advanced` and keeps the later items that have arrived. */
  ghost predicate QueueOk<T>(stream: seq<Item<T>>, s: Handler<T>) {
    && IsPosition(stream, s.advanced, s.next)
    && Sorted(s.queue) && Once(s.queue)
    && (forall i | 0 <= i < s.advanced :: i in s.arrived)
    && (forall i | i in s.arrived :: i < |stream|)
    && QueueHolds(stream, s.queue, Waiting(s.arrived, s.advanced))
  }

  /** The worker that has the turn works on item `advanced`. */
  ghost predicate PhaseOk<T>(stream: seq<Item<T>>, s: Handler<T>, phase: Phase<T>) {
    && s.advanced < |stream|
    && match phase
       case Granted(item) => item == stream[s.advanced] && s.log == stream[..s.advanced]
       case Holding => s.currentBuffer == Some(stream[s.advanced]) && s.log == stream[..s.advanced]
       case Processed => s.currentBuffer == Some(stream[s.advanced]) && s.log == stream[..s.advanced + 1]
       case Loaded(data) => data == stream[s.advanced].sequence && s.log == stream[..s.advanced + 1]
  }

  /** One worker at most has the turn, exactly while item `advanced` has arrived. */
  ghost predicate TurnOk<T>(stream: seq<Item<T>>, s: Handler<T>) {
    && (forall v, w | v in s.busy && w in s.busy :: v == w)
    && (s.busy != map[] <==> s.advanced in s.arrived)
    && (forall w | w in s.busy :: PhaseOk(stream, s, s.busy[w]))
    && (s.busy == map[] ==> s.advanced <= |stream| && s.log == stream[..s.advanced])
  }

  ghost predicate Inv<T>(stream: seq<Item<T>>, s: Handler<T>) {
    InOrder(stream) && QueueOk(stream, s) && TurnOk(stream, s) && !s.refused
  }

  lemma AskKeepsInv<T>(stream: seq<Item<T>>, s: Handler<T>, w: nat, i: nat)
    requires Inv(stream, s) && Enabled(stream, s, Ask(w, i))
    ensures Inv(stream, Next(stream, s, Ask(w, i)))
  {
    hide InOrder, Sorted, Once, Position, QueueHolds, Insert;
    var waiting := Waiting(s.arrived, s.advanced);
    var r := Next(stream, s, Ask(w, i));
    assert i >= s.advanced;
    PositionOf(stream, s.advanced, s.next, i);
    if i == s.advanced {
      assert Waiting(r.arrived, r.advanced) == waiting;
      assert w in r.busy;
    } else {
      InsertKeeps(s.queue, stream[i]);
      QueueGrows(stream, s.queue, waiting, i, r.queue);
      assert Waiting(r.arrived, r.advanced) == waiting + {i};
    }
  }

  /** The steps outside the lock concern the worker with the turn only. */
  lemma WorkKeepsInv<T>(stream: seq<Item<T>>, s: Handler<T>, a: Action)
    requires Inv(stream, s) && Enabled(stream, s, a) && UsesBuffer(a)
    ensures Inv(stream, Next(stream, s, a))
  {
    hide InOrder, QueueOk;
    var r := Next(stream, s, a);
    assert a.w in s.busy && a.w in r.busy;
    assert PhaseOk(stream, s, s.busy[a.w]);
    SameQueue(stream, s, r);
  }

  lemma SameQueue<T>(stream: seq<Item<T>>, s: Handler<T>, r: Handler<T>)
    requires QueueOk(stream, s) && r.next == s.next && r.queue == s.queue && r.arrived == s.arrived && r.advanced == s.advanced
    ensures QueueOk(stream, r)
  {
  }

  lemma AdvanceKeepsInv<T>(stream: seq<Item<T>>, s: Handler<T>, w: nat)
    requires Inv(stream, s) && Enabled(stream, s, Advance(w))
    ensures Inv(stream, Next(stream, s, Advance(w)))
  {
    hide InOrder, Once, QueueHolds, Sorted, Position, Successor;
    var waiting := Waiting(s.arrived, s.advanced);
    var r := Next(stream, s, Advance(w));
    assert PhaseOk(stream, s, s.busy[w]);
    PositionOf(stream, s.advanced, s.next, s.advanced);
    if s.queue != [] && Position(s.queue[0].sequence) == r.next {
      var k := FirstOfQueue(stream, s.queue, waiting);
      PositionOf(stream, r.advanced, r.next, k);
      assert s.queue == [s.queue[0]] + r.queue;
      QueueShrinks(stream, s.queue, waiting, k, r.queue);
      assert Waiting(r.arrived, r.advanced) == waiting - {k};
      TailSorted(s.queue);
      assert r.busy == map[w := Granted(stream[k])];
    } else {
      NextNotWaiting(stream, s.queue, waiting, r.advanced, r.next);
      assert Waiting(r.arrived, r.advanced) == waiting;
      assert r.busy == map[];
    }
  }

  lemma FirstOfQueue<T>(stream: seq<Item<T>>, queue: seq<Item<T>>, waiting: set<nat>) returns (k: nat)
    requires QueueHolds(stream, queue, waiting) && queue != []
    ensures k in waiting && k < |stream| && stream[k] == queue[0]
  {
    assert queue[0] in queue;
    k :| k in waiting && stream[k] == queue[0];
  }

  lemma TailSorted<T>(queue: seq<Item<T>>)
    requires Sorted(queue) && queue != []
    ensures Sorted(queue[1..])
  {
  }

  lemma NextKeepsInv<T>(stream: seq<Item<T>>, s: Handler<T>, a: Action)
    requires Inv(stream, s)
    ensures Inv(stream, Next(stream, s, a))
  {
    hide Inv, Enabled;
    if Enabled(stream, s, a) {
      match a
      case Ask(w, i) => AskKeepsInv(stream, s, w, i);
      case Advance(w) => AdvanceKeepsInv(stream, s, w);
      case _ => WorkKeepsInv(stream, s, a);
    }
  }

  lemma InitialInv<T>(stream: seq<Item<T>>)
    requires InOrder(stream)
    ensures Inv(stream, Initial())
  {
  }

  lemma {:induction false} RunKeepsInv<T>(stream: seq<Item<T>>, actions: seq<Action>)
    requires InOrder(stream)
    ensures Inv(stream, Run(stream, actions))
  {
    hide Inv, Next, InOrder;
    if actions == [] {
      InitialInv(stream);
    } else {
      RunKeepsInv(stream, actions[..|actions| - 1]);
      NextKeepsInv(stream, Run(stream, actions[..|actions| - 1]), actions[|actions| - 1]);
    }
  }

  // --------------------------------------------------------------------- theorems

  /** In every run one worker at most is between its grant and its advance, and
      no other worker can take a step that uses the variable. */
  lemma OneWorkerHasTheTurn<T>(stream: seq<Item<T>>, actions: seq<Action>, w: nat, a: Action)
    requires InOrder(stream) && w in Run(stream, actions).busy
    ensures var s := Run(stream, actions);
            && s.busy.Keys == {w}
            && (Enabled(stream, s, a) && UsesBuffer(a) ==> a.w == w)
            && (a.w != w ==> Next(stream, s, a).currentBuffer == s.currentBuffer)
  {
    hide Run;
    RunKeepsInv(stream, actions);
  }

  /** In every run the items are processed once each and in order, each of them
      as it was brought, and the sequencer's precondition never fails. */
  lemma ProcessedInOrder<T>(stream: seq<Item<T>>, actions: seq<Action>)
    requires InOrder(stream)
    ensures var s := Run(stream, actions);
            && |s.log| <= |stream| && s.log == stream[..|s.log|]
            && !s.refused
            && forall i | 0 <= i < |s.log| :: i in s.arrived
  {
    hide Run, InOrder;
    RunKeepsInv(stream, actions);
    var s := Run(stream, actions);
    if w :| w in s.busy {
      assert PhaseOk(stream, s, s.busy[w]);
      assert s.busy != map[];
    } else {
      assert s.busy == map[];
    }
  }

  /** When all workers are idle, every item that has arrived behind the processed
      ones still waits for an earlier one; if all have arrived, all are processed. */
  lemma NothingIsForgotten<T>(stream: seq<Item<T>>, actions: seq<Action>)
    requires InOrder(stream) && Run(stream, actions).busy == map[]
    ensures var s := Run(stream, actions);
            && |s.log| !in s.arrived
            && (forall i | i in s.arrived && i >= |s.log| :: i < |stream| && stream[i] in s.queue)
            && ((forall i | 0 <= i < |stream| :: i in s.arrived) ==> s.log == stream)
  {
    hide Run, InOrder;
    RunKeepsInv(stream, actions);
    var s := Run(stream, actions);
    forall i | i in s.arrived && i >= |s.log| ensures i < |stream| && stream[i] in s.queue {
      assert i in Waiting(s.arrived, s.advanced);
    }
  }

  // --------------------------------------------------------------------- progress

  lemma Continue<T>(stream: seq<Item<T>>, actions: seq<Action>, a: Action)
    ensures Run(stream, actions + [a]) == Next(stream, Run(stream, actions), a)
  {
    assert (actions + [a])[..|actions|] == actions;
  }

  /** What the worker with the turn does next. */
  function Work<T>(phase: Phase<T>, w: nat): (a: Action) {
    match phase
    case Granted(_) => Store(w)
    case Holding => Process(w)
    case Processed => Load(w)
    case Loaded(_) => Advance(w)
  }

  function Rank<T>(phase: Phase<T>): (n: nat) {
    match phase
    case Granted(_) => 4
    case Holding => 3
    case Processed => 2
    case Loaded(_) => 1
  }

  function RankOf<T>(s: Handler<T>, w: nat): (n: nat) {
    if w in s.busy then Rank(s.busy[w]) else 0
  }

  lemma WorkMoves<T>(stream: seq<Item<T>>, s: Handler<T>, w: nat)
    requires Inv(stream, s) && w in s.busy
    ensures var r := Next(stream, s, Work(s.busy[w], w));
            && r.arrived == s.arrived && r.advanced <= |stream| && r.busy.Keys <= {w}
            && (r.advanced == s.advanced + 1 || (r.advanced == s.advanced && w in r.busy && RankOf(r, w) < RankOf(s, w)))
  {
    hide InOrder, QueueHolds, Sorted, Once;
    assert PhaseOk(stream, s, s.busy[w]);
    PositionOf(stream, s.advanced, s.next, s.advanced);
  }

  lemma {:induction false} WorkerCanFinish<T>(stream: seq<Item<T>>, actions: seq<Action>, w: nat) returns (more: seq<Action>)
    requires InOrder(stream) && Run(stream, actions).busy.Keys <= {w}
    ensures actions <= more && Run(stream, more).busy == map[] && Run(stream, more).arrived == Run(stream, actions).arrived
    decreases |stream| - Run(stream, actions).advanced, RankOf(Run(stream, actions), w)
  {
    hide Run, Next, InOrder, Work;
    RunKeepsInv(stream, actions);
    var s := Run(stream, actions);
    if w in s.busy {
      AdvancedInStream(stream, s, w);
      WorkMoves(stream, s, w);
      Continue(stream, actions, Work(s.busy[w], w));
      more := WorkerCanFinish(stream, actions + [Work(s.busy[w], w)], w);
    } else {
      assert s.busy == map[];
      more := actions;
    }
  }

  /** From every reachable state some continuation leaves all workers idle. */
  lemma WorkersCanFinish<T>(stream: seq<Item<T>>, actions: seq<Action>) returns (more: seq<Action>)
    requires InOrder(stream)
    ensures actions <= more && Run(stream, more).busy == map[] && Run(stream, more).arrived == Run(stream, actions).arrived
  {
    hide Run, InOrder;
    RunKeepsInv(stream, actions);
    var s := Run(stream, actions);
    if w :| w in s.busy {
      more := WorkerCanFinish(stream, actions, w);
    } else {
      more := WorkerCanFinish(stream, actions, 0);
    }
  }

  lemma AdvancedInStream<T>(stream: seq<Item<T>>, s: Handler<T>, w: nat)
    requires Inv(stream, s) && w in s.busy
    ensures s.advanced < |stream|
  {
    assert PhaseOk(stream, s, s.busy[w]);
  }

  /** From every reachable state some continuation processes the whole stream. */
  lemma {:induction false} EveryItemCanBeProcessed<T>(stream: seq<Item<T>>, actions: seq<Action>, w: nat) returns (more: seq<Action>)
    requires InOrder(stream)
    ensures actions <= more && Run(stream, more).log == stream && Run(stream, more).busy == map[]
    decreases Missing(stream, Run(stream, actions).arrived)
  {
    hide Run, InOrder, Next;
    var idle := WorkersCanFinish(stream, actions);
    var s := Run(stream, idle);
    if i :| i in Missing(stream, s.arrived) {
      Continue(stream, idle, Ask(w, i));
      AskArrives(stream, s, w, i);
      more := EveryItemCanBeProcessed(stream, idle + [Ask(w, i)], w);
    } else {
      more := idle;
      NothingIsForgotten(stream, idle);
      forall i | 0 <= i < |stream| ensures i in s.arrived {
        assert i !in Missing(stream, s.arrived);
      }
    }
  }

  function Missing<T>(stream: seq<Item<T>>, arrived: set<nat>): (r: set<nat>) {
    set i | 0 <= i < |stream| && i !in arrived
  }

  lemma AskArrives<T>(stream: seq<Item<T>>, s: Handler<T>, w: nat, i: nat)
    requires s.busy == map[] && i in Missing(stream, s.arrived)
    ensures Missing(stream, Next(stream, s, Ask(w, i)).arrived) < Missing(stream, s.arrived)
  {
    assert i !in Missing(stream, Next(stream, s, Ask(w, i)).arrived);
  }

  // ------------------------------------------------------------------ the handler

  /** The two calls of the handler and the operator's work between them, cut where
      they take or leave the lock and where they use the variable. */
  class SequenceOperatorHandler<T(==)> {
    const sequencer: Sequencer<T>
    var currentBuffer: Option<Item<T>>
    ghost const stream: seq<Item<T>>
    ghost var busy: map<nat, Phase<T>>
    ghost var arrived: set<nat>
    ghost var advanced: nat
    ghost var log: seq<Item<T>>

    ghost function View(): (s: Handler<T>)
      reads this, sequencer
    {
      Handler((sequencer.nextSequence, sequencer.nextChunkNumber), sequencer.queue, currentBuffer, busy, arrived, advanced, log, false)
    }

    ghost predicate Valid()
      reads this, sequencer
    {
      Inv(stream, View())
    }

    constructor (ghost stream: seq<Item<T>>)
      requires InOrder(stream)
      ensures Valid() && this.stream == stream && View() == Initial() && fresh(sequencer)
    {
      sequencer := new Sequencer<T>();
      currentBuffer := None;
      this.stream := stream;
      busy, arrived, advanced, log := map[], {}, 0, [];
      new;
      InitialInv(stream);
    }

    /** Worker `w` brings item `i` of the stream; the item is granted to it if it is the next one. */
    method AskSequencer(item: Item<T>, ghost w: nat, ghost i: nat) returns (optBuffer: Option<Item<T>>)
      requires Valid() && Enabled(stream, View(), Ask(w, i)) && item == stream[i]
      modifies this, sequencer
      ensures Valid() && View() == Next(stream, old(View()), Ask(w, i))
      ensures optBuffer.Some? <==> w in busy
      ensures optBuffer.Some? ==> busy[w] == Granted(optBuffer.value)
    {
      hide InOrder, Once, QueueHolds, Insert;
      AskKeepsInv(stream, View(), w, i);
      optBuffer := sequencer.IsNext(item);
      arrived := arrived + {i};
      if optBuffer.Some? {
        busy := busy[w := Granted(item)];
      }
    }

    /** The granted item goes into the variable, outside the lock. */
    method StoreBuffer(item: Item<T>, ghost w: nat)
      requires Valid() && w in busy && busy[w] == Granted(item)
      modifies this
      ensures Valid() && View() == Next(stream, old(View()), Store(w))
    {
      hide InOrder, QueueOk;
      WorkKeepsInv(stream, View(), Store(w));
      currentBuffer := Some(item);
      busy := busy[w := Holding];
    }

    /** The operator works on the variable's buffer, the next item of the stream. */
    method ProcessBuffer(ghost w: nat) returns (item: Item<T>)
      requires Valid() && w in busy && busy[w] == Holding
      modifies this
      ensures Valid() && View() == Next(stream, old(View()), Process(w))
      ensures advanced < |stream| && item == stream[advanced]
    {
      hide InOrder, QueueOk;
      assert PhaseOk(stream, View(), busy[w]);
      WorkKeepsInv(stream, View(), Process(w));
      item := currentBuffer.value;
      log := log + [item];
      busy := busy[w := Processed];
    }

    /** The sequence data are read from the variable, outside the lock. */
    method LoadSequence(ghost w: nat) returns (sequence: SequenceData)
      requires Valid() && w in busy && busy[w] == Processed
      modifies this
      ensures Valid() && View() == Next(stream, old(View()), Load(w))
      ensures w in busy && busy[w] == Loaded(sequence)
    {
      hide InOrder, QueueOk;
      assert PhaseOk(stream, View(), busy[w]);
      WorkKeepsInv(stream, View(), Load(w));
      sequence := currentBuffer.value.sequence;
      busy := busy[w := Loaded(sequence)];
    }

    /** The sequencer moves on and grants the following item if it is waiting. */
    method AdvanceSequencer(sequence: SequenceData, ghost w: nat) returns (optNextBuffer: Option<Item<T>>)
      requires Valid() && w in busy && busy[w] == Loaded(sequence)
      modifies this, sequencer
      ensures Valid() && View() == Next(stream, old(View()), Advance(w))
      ensures optNextBuffer.Some? <==> w in busy
      ensures optNextBuffer.Some? ==> busy[w] == Granted(optNextBuffer.value)
    {
      hide InOrder, Once, QueueHolds, Successor;
      assert PhaseOk(stream, View(), busy[w]);
      PositionOf(stream, advanced, View().next, advanced);
      AdvanceKeepsInv(stream, View(), w);
      optNextBuffer := sequencer.AdvanceAndGetNext(sequence);
      advanced := advanced + 1;
      busy := if optNextBuffer.Some? then busy[w := Granted(optNextBuffer.value)] else busy - {w};
    }
  }
}
