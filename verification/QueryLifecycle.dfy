/** The lifecycle of a running query plan: pipelines that keep their successors
    alive by reference counts, one task queue, pending-task counters, and the
    callbacks for setup, stop and failure.

    The protocol is a state machine; every task execution is cut where it
    acquires or releases a reference.  A step whose guard does not hold changes
    nothing, so every sequence of actions is a run. */
module QueryLifecycle {

  /** The pipelines, numbered in the order of their creation: successors are
      created first.  `sources` lists the successors of each source. */
  datatype Plan = Plan(successors: seq<seq<nat>>, sources: seq<seq<nat>>)

  function Size(plan: Plan): (n: nat) { |plan.successors| }

  predicate Edge(plan: Plan, u: nat, v: nat) {
    u < Size(plan) && v in plan.successors[u]
  }

  predicate Feeds(plan: Plan, k: nat, v: nat) {
    k < |plan.sources| && v in plan.sources[k]
  }

  /** Every pipeline is created as a successor of a source or of another pipeline. */
  ghost predicate PlanOk(plan: Plan) {
    && (forall u: nat, v: nat | Edge(plan, u, v) :: v < u)
    && (forall k: nat, v: nat | Feeds(plan, k, v) :: v < Size(plan))
    && (forall v: nat | v < Size(plan) :: IsReached(plan, v))
  }

  ghost predicate IsReached(plan: Plan, v: nat) {
    (exists k: nat :: Feeds(plan, k, v)) || (exists u: nat :: Edge(plan, u, v))
  }

  // ------------------------------------------------------------------- the state

  /** A node is shared, then owned by its stop task, then destroyed. */
  datatype Phase = Alive | StopQueued | StopRunning | Gone

  datatype StartPhase = StartQueued | StartRunning | StartReturned(ok: bool) | StartDone

  /** A pipeline, and what has happened to it: `started` if its start has completed
      and the callback has reached the node, how often its stop was called, and
      whether that has completed. */
  datatype Node = Node(phase: Phase, requiresTermination: bool, pendingTasks: int, start: StartPhase,
                       started: bool, stops: nat, stopped: bool)

  /** A source waits in the setup callback, runs, has a stop task queued, is closed. */
  datatype SourcePhase = Waiting | Active | Ended | Closed

  datatype WorkPhase = Queued | Executing | Returned(ok: bool)

  /** A work task has a weak reference to its pipeline; `keeps` is the strong
      one in the completion callback of a task emitted by a stopping pipeline. */
  datatype Work = Work(target: nat, phase: WorkPhase, keeps: bool)

  datatype QueryPhase = Starting | Running | Stopping | Failed | Stopped

  /** The query: whether the setup callback is still registered (`armed`) or has
      `fired`, and whether the query was ever stopped or failed, and then
      whether that `interrupted` its setup. */
  datatype Query = Query(phase: QueryPhase, armed: bool, fired: bool, interrupted: bool, stopRequested: bool, failed: bool)

  /** Every work task ever emitted, with its pipeline; those that were executed;
      those that found their pipeline gone. */
  datatype Log = Log(emitted: map<nat, nat>, executed: set<nat>, expired: set<nat>)

  datatype State = State(
    nodes: seq<Node>,
    sources: seq<SourcePhase>,
    works: map<nat, Work>,
    pendingStops: multiset<nat>,
    query: Query,
    log: Log)

  function Initial(plan: Plan): (s: State) {
    State(seq(Size(plan), v => Node(Alive, false, 0, StartQueued, false, 0, false)),
          seq(|plan.sources|, k => Waiting), map[], multiset{},
          Query(Starting, true, false, false, false, false), Log(map[], {}, {}))
  }

  // ------------------------------------------------------------------ references

  ghost predicate HeldByNode(plan: Plan, s: State, v: nat) {
    exists u: nat :: u < |s.nodes| && Edge(plan, u, v) && s.nodes[u].phase != Gone
  }

  ghost predicate HeldBySource(plan: Plan, s: State, v: nat) {
    exists k: nat :: k < |s.sources| && Feeds(plan, k, v) && s.sources[k] != Closed
  }

  predicate Holds(w: Work) {
    w.phase == Executing || w.keeps
  }

  ghost predicate HeldByWork(s: State, v: nat) {
    exists id :: id in s.works && s.works[id].target == v && Holds(s.works[id])
  }

  /** A predecessor, a source or a pending stop keeps the node: nothing but a stop of theirs ends that. */
  ghost predicate Guarded(plan: Plan, s: State, v: nat) {
    HeldByNode(plan, s, v) || HeldBySource(plan, s, v) || v in s.pendingStops
  }

  /** The node's reference count is not zero. */
  ghost predicate Held(plan: Plan, s: State, v: nat) {
    Guarded(plan, s, v) || HeldByWork(s, v) || (v < |s.nodes| && s.nodes[v].start == StartRunning)
  }

  /** A weak reference to the node can be locked. */
  ghost predicate Live(plan: Plan, s: State, v: nat) {
    v < |s.nodes| && s.nodes[v].phase == Alive && Held(plan, s, v)
  }

  // --------------------------------------------------------- starting, and failing

  /** A start task locks its pipeline or is dropped. */
  ghost function BeginStart(plan: Plan, s: State, v: nat): (r: State) {
    if v < |s.nodes| && s.nodes[v].start == StartQueued
    then s.(nodes := s.nodes[v := s.nodes[v].(start := if Live(plan, s, v) then StartRunning else StartDone)])
    else s
  }

  /** The stage's start returns or throws; the lock is released. */
  function ReturnStart(s: State, v: nat, ok: bool): (r: State) {
    if v < |s.nodes| && s.nodes[v].start == StartRunning
    then s.(nodes := s.nodes[v := s.nodes[v].(start := StartReturned(ok))])
    else s
  }

  /** The completion callback marks the node as requiring termination if it can
      lock it; a failed start fails the query if the node can be locked. */
  ghost function CompleteStart(plan: Plan, s: State, v: nat): (r: State) {
    if v < |s.nodes| && s.nodes[v].start.StartReturned? then
      var t := if Live(plan, s, v) && !s.nodes[v].start.ok then FailQuery(plan, s) else s;
      var reached := Live(plan, s, v) && s.nodes[v].start.ok;
      t.(nodes := t.nodes[v := t.nodes[v].(start := StartDone,
                                          requiresTermination := t.nodes[v].requiresTermination || reached,
                                          started := t.nodes[v].started || reached)])
    else s
  }

  ghost function Unflag(plan: Plan, s: State, v: nat): (r: Node)
    requires v < |s.nodes|
  {
    if Live(plan, s, v) then s.nodes[v].(requiresTermination := false) else s.nodes[v]
  }

  /** A plan that is starting or running is disposed of.  Its destructor takes
      back the termination flags of all nodes it can lock, closes the sources
      and clears the setup callback. */
  ghost function FailQuery(plan: Plan, s: State): (r: State)
    ensures |r.nodes| == |s.nodes| && r.works == s.works && r.pendingStops == s.pendingStops && r.log == s.log
  {
    if s.query.phase == Starting || s.query.phase == Running then
      s.(nodes := seq(|s.nodes|, v requires 0 <= v < |s.nodes| => Unflag(plan, s, v)),
         sources := seq(|s.sources|, k => Closed),
         query := s.query.(phase := Failed, failed := true, armed := false,
                           interrupted := s.query.interrupted || s.query.armed))
    else s.(query := s.query.(phase := Failed, failed := true))
  }

  /** All starts are done: the setup callback starts the sources. */
  ghost function FireSetup(s: State): (r: State) {
    if s.query.armed && forall v | 0 <= v < |s.nodes| :: s.nodes[v].start == StartDone
    then s.(sources := seq(|s.sources|, k => Active), query := s.query.(phase := Running, armed := false, fired := true))
    else s
  }

  // -------------------------------------------------------------------- sources

  /** Counts a work task on its node, then queues it. */
  function EmitWork(s: State, w: nat, id: nat, keeps: bool): (r: State)
    requires w < |s.nodes|
  {
    s.(nodes := s.nodes[w := s.nodes[w].(pendingTasks := s.nodes[w].pendingTasks + 1)],
       works := s.works[id := Work(w, Queued, keeps)],
       log := s.log.(emitted := s.log.emitted[id := w]))
  }

  function EmitFromSource(plan: Plan, s: State, k: nat, w: nat, id: nat): (r: State) {
    if k < |s.sources| && s.sources[k] == Active && Feeds(plan, k, w) && w < |s.nodes| && id !in s.log.emitted
    then EmitWork(s, w, id, false) else s
  }

  function EndSource(s: State, k: nat): (r: State) {
    if k < |s.sources| && s.sources[k] == Active then s.(sources := s.sources[k := Ended]) else s
  }

  /** The source is unregistered; its successors become pending stops. */
  function StopSource(plan: Plan, s: State, k: nat): (r: State) {
    if k < |s.sources| && k < |plan.sources| && s.sources[k] == Ended
    then s.(sources := s.sources[k := Closed], pendingStops := s.pendingStops + multiset(plan.sources[k]))
    else s
  }

  ghost function FailSource(plan: Plan, s: State, k: nat): (r: State) {
    if k < |s.sources| && s.sources[k] == Active then FailQuery(plan, s) else s
  }

  // ----------------------------------------------------------------- work tasks

  /** A work task locks its pipeline, or it has expired. */
  ghost function BeginWork(plan: Plan, s: State, id: nat): (r: State) {
    if id !in s.works || s.works[id].phase != Queued then s
    else if Live(plan, s, s.works[id].target)
    then s.(works := s.works[id := s.works[id].(phase := Executing)], log := s.log.(executed := s.log.executed + {id}))
    else s.(works := s.works - {id}, log := s.log.(expired := s.log.expired + {id}))
  }

  /** An executing stage passes a buffer to a successor, or repeats its own task. */
  function EmitFromWork(plan: Plan, s: State, id: nat, w: nat, newId: nat): (r: State) {
    if id in s.works && s.works[id].phase == Executing && (w == s.works[id].target || Edge(plan, s.works[id].target, w))
       && w < |s.nodes| && newId !in s.log.emitted
    then EmitWork(s, w, newId, false) else s
  }

  function ReturnWork(s: State, id: nat, ok: bool): (r: State) {
    if id in s.works && s.works[id].phase == Executing
    then s.(works := s.works[id := s.works[id].(phase := Returned(ok))]) else s
  }

  function Countdown(s: State, v: nat): (r: State)
    requires v < |s.nodes|
  {
    s.(nodes := s.nodes[v := s.nodes[v].(pendingTasks := s.nodes[v].pendingTasks - 1)])
  }

  /** The callbacks take a work task from the node's counter if they can lock it, a
      failure then fails the query; last the work task goes, and the reference it keeps. */
  ghost function CompleteWork(plan: Plan, s: State, id: nat): (r: State) {
    if id in s.works && s.works[id].phase.Returned? then
      var v := s.works[id].target;
      var t := if Live(plan, s, v) then Countdown(s, v) else s;
      var u := if Live(plan, s, v) && !s.works[id].phase.ok then FailQuery(plan, t) else t;
      u.(works := s.works - {id})
    else s
  }

  // ------------------------------------------------------------- stopping pipelines

  /** A pending stop waits for the work tasks of its pipeline, then lets go of it. */
  function CheckPendingStop(s: State, v: nat): (r: State) {
    if v < |s.nodes| && v in s.pendingStops && !(s.nodes[v].requiresTermination && s.nodes[v].pendingTasks > 0)
    then s.(pendingStops := s.pendingStops - multiset{v}) else s
  }

  /** The last reference is gone: the node is handed to a stop task, or destroyed if none is required. */
  ghost function Expire(plan: Plan, s: State, v: nat): (r: State) {
    if v < |s.nodes| && s.nodes[v].phase == Alive && !Held(plan, s, v)
    then s.(nodes := s.nodes[v := s.nodes[v].(phase := if s.nodes[v].requiresTermination then StopQueued else Gone)])
    else s
  }

  function BeginStop(s: State, v: nat): (r: State) {
    if v < |s.nodes| && s.nodes[v].phase == StopQueued
    then s.(nodes := s.nodes[v := s.nodes[v].(phase := StopRunning, stops := s.nodes[v].stops + 1)]) else s
  }

  /** A stopping stage passes a buffer on; its work task keeps the successor alive. */
  function EmitFromStop(plan: Plan, s: State, v: nat, w: nat, id: nat): (r: State) {
    if v < |s.nodes| && s.nodes[v].phase == StopRunning && Edge(plan, v, w) && w < |s.nodes| && id !in s.log.emitted
    then EmitWork(s, w, id, true) else s
  }

  /** A successful stop passes the successors on as pending stops; a failed one
      fails the query.  Either way the node is destroyed. */
  ghost function EndStop(plan: Plan, s: State, v: nat, ok: bool): (r: State) {
    if v < |s.nodes| && v < Size(plan) && s.nodes[v].phase == StopRunning then
      var t := if ok then s.(pendingStops := s.pendingStops + multiset(plan.successors[v])) else FailQuery(plan, s);
      t.(nodes := t.nodes[v := t.nodes[v].(phase := Gone, requiresTermination := false, stopped := ok)])
    else s
  }

  // ------------------------------------------------------------------- the query

  predicate IsActive(q: Query) {
    q.phase == Starting || q.phase == Running
  }

  /** Stopping clears the setup callback and drops the sources. */
  function StopQuery(s: State): (r: State) {
    if IsActive(s.query)
    then s.(sources := seq(|s.sources|, k => Closed),
            query := s.query.(phase := Stopping, stopRequested := true, armed := false,
                              interrupted := s.query.interrupted || s.query.armed))
    else s
  }

  /** The termination callback: every node is destroyed. */
  ghost function Terminate(s: State): (r: State) {
    if (IsActive(s.query) || s.query.phase == Stopping) && forall v | 0 <= v < |s.nodes| :: s.nodes[v].phase == Gone
    then s.(sources := seq(|s.sources|, k => Closed),
            query := s.query.(phase := Stopped, armed := false, interrupted := s.query.interrupted || s.query.armed))
    else s
  }

  datatype Action =
    | ABeginStart(v: nat) | AReturnStart(v: nat, ok: bool) | ACompleteStart(v: nat) | AFireSetup
    | AEmitFromSource(k: nat, w: nat, id: nat) | AEndSource(k: nat) | AStopSource(k: nat) | AFailSource(k: nat)
    | ABeginWork(id: nat) | AEmitFromWork(id: nat, w: nat, newId: nat) | AReturnWork(id: nat, ok: bool) | ACompleteWork(id: nat)
    | ACheckPendingStop(v: nat) | AExpire(v: nat)
    | ABeginStop(v: nat) | AEmitFromStop(v: nat, w: nat, id: nat) | AEndStop(v: nat, ok: bool)
    | AStopQuery | ATerminate

  ghost function Next(plan: Plan, s: State, a: Action): (r: State) {
    match a
    case ABeginStart(v) => BeginStart(plan, s, v)
    case AReturnStart(v, ok) => ReturnStart(s, v, ok)
    case ACompleteStart(v) => CompleteStart(plan, s, v)
    case AFireSetup => FireSetup(s)
    case AEmitFromSource(k, w, id) => EmitFromSource(plan, s, k, w, id)
    case AEndSource(k) => EndSource(s, k)
    case AStopSource(k) => StopSource(plan, s, k)
    case AFailSource(k) => FailSource(plan, s, k)
    case ABeginWork(id) => BeginWork(plan, s, id)
    case AEmitFromWork(id, w, newId) => EmitFromWork(plan, s, id, w, newId)
    case AReturnWork(id, ok) => ReturnWork(s, id, ok)
    case ACompleteWork(id) => CompleteWork(plan, s, id)
    case ACheckPendingStop(v) => CheckPendingStop(s, v)
    case AExpire(v) => Expire(plan, s, v)
    case ABeginStop(v) => BeginStop(s, v)
    case AEmitFromStop(v, w, id) => EmitFromStop(plan, s, v, w, id)
    case AEndStop(v, ok) => EndStop(plan, s, v, ok)
    case AStopQuery => StopQuery(s)
    case ATerminate => Terminate(s)
  }

  ghost function Run(plan: Plan, actions: seq<Action>): (s: State) {
    if actions == [] then Initial(plan) else Next(plan, Run(plan, actions[..|actions| - 1]), actions[|actions| - 1])
  }
}
