/** Lifecycle safety: when a stage is executed, when it is stopped, how often. */
module LifecycleSafety {
  import opened QueryLifecycle
  import opened LifecycleReferences

  // ------------------------------------------------------------- each node by itself

  /** What the phase, the flag and the past of a node say about each other;
      `failed` tells whether the query has failed. */
  predicate NodeOk(failed: bool, n: Node) {
    && (n.requiresTermination ==> n.started && n.phase != Gone)
    && (n.phase == StopQueued || n.phase == StopRunning ==> n.requiresTermination)
    && (n.started ==> n.start == StartDone)
    && (n.stopped ==> n.phase == Gone && n.stops == 1)
    && n.stops <= 1 && (n.stops == 1 ==> n.started)
    && (n.phase == Alive || n.phase == StopQueued ==> n.stops == 0)
    && (n.phase == StopRunning ==> n.stops == 1)
    && (!failed && n.started && !n.requiresTermination ==> n.stopped)
  }

  ghost predicate NodesOk(s: State) {
    forall v | 0 <= v < |s.nodes| :: NodeOk(s.query.failed, s.nodes[v])
  }

  /** No step forgets that a pipeline was started. */
  ghost predicate StartedStay(s: State, t: State) {
    && |s.nodes| == |t.nodes|
    && forall v | 0 <= v < |s.nodes| && s.nodes[v].started :: t.nodes[v].started
  }

  lemma FailKeepsNodes(plan: Plan, s: State)
    requires NodesOk(s) && HeldAreAlive(plan, s)
    ensures NodesOk(FailQuery(plan, s)) && StartedStay(s, FailQuery(plan, s))
  {
    hide Held;
    var t := FailQuery(plan, s);
    forall v: nat | v < |s.nodes| ensures NodeOk(t.query.failed, t.nodes[v]) {
      assert NodeOk(s.query.failed, s.nodes[v]);
    }
  }

  lemma StartKeepsNodes(plan: Plan, s: State, v: nat, ok: bool)
    requires NodesOk(s)
    ensures NodesOk(BeginStart(plan, s, v)) && StartedStay(s, BeginStart(plan, s, v))
    ensures NodesOk(ReturnStart(s, v, ok)) && StartedStay(s, ReturnStart(s, v, ok))
  {
    hide Live;
  }

  lemma CompleteStartKeepsNodes(plan: Plan, s: State, v: nat)
    requires NodesOk(s) && HeldAreAlive(plan, s)
    ensures NodesOk(CompleteStart(plan, s, v)) && StartedStay(s, CompleteStart(plan, s, v))
  {
    hide Held;
    FailKeepsNodes(plan, s);
    if v < |s.nodes| {
      assert NodeOk(s.query.failed, s.nodes[v]);
    }
  }

  lemma StopKeepsNodes(plan: Plan, s: State, v: nat)
    requires NodesOk(s)
    ensures NodesOk(Expire(plan, s, v)) && StartedStay(s, Expire(plan, s, v))
    ensures NodesOk(BeginStop(s, v)) && StartedStay(s, BeginStop(s, v))
  {
    hide Held;
    if v < |s.nodes| {
      assert NodeOk(s.query.failed, s.nodes[v]);
    }
  }

  lemma EndStopKeepsNodes(plan: Plan, s: State, v: nat, ok: bool)
    requires NodesOk(s) && HeldAreAlive(plan, s)
    ensures NodesOk(EndStop(plan, s, v, ok)) && StartedStay(s, EndStop(plan, s, v, ok))
  {
    hide Held;
    FailKeepsNodes(plan, s);
    if v < |s.nodes| && s.nodes[v].phase == StopRunning && v < Size(plan) {
      var t := if ok then s.(pendingStops := s.pendingStops + multiset(plan.successors[v])) else FailQuery(plan, s);
      assert NodeOk(s.query.failed, s.nodes[v]);
      assert t.nodes[v] == s.nodes[v];
    }
  }

  lemma WorkKeepsNodes(plan: Plan, s: State, w: nat, id: nat, keeps: bool)
    requires NodesOk(s) && w < |s.nodes|
    ensures NodesOk(EmitWork(s, w, id, keeps)) && StartedStay(s, EmitWork(s, w, id, keeps))
    ensures NodesOk(Countdown(s, w)) && StartedStay(s, Countdown(s, w))
  {
    assert NodeOk(s.query.failed, s.nodes[w]);
  }

  lemma CompleteWorkKeepsNodes(plan: Plan, s: State, id: nat)
    requires NodesOk(s) && HeldAreAlive(plan, s) && Sized(plan, s)
    ensures NodesOk(CompleteWork(plan, s, id)) && StartedStay(s, CompleteWork(plan, s, id))
  {
    hide Held, FailQuery, NodesOk, HeldAreAlive, StartedStay, Countdown;
    NothingStarts(s);
    if id in s.works && s.works[id].phase.Returned? {
      var v := s.works[id].target;
      WorkKeepsNodes(plan, s, v, id, false);
      CountdownAlive(plan, s, v);
      var t := if Live(plan, s, v) then Countdown(s, v) else s;
      FailKeepsNodes(plan, t);
      var u := if Live(plan, s, v) && !s.works[id].phase.ok then FailQuery(plan, t) else t;
      SameNodes(s, t, u, CompleteWork(plan, s, id));
    }
  }

  lemma NothingStarts(s: State)
    ensures StartedStay(s, s)
  {
  }

  lemma CountdownAlive(plan: Plan, s: State, v: nat)
    requires HeldAreAlive(plan, s) && v < |s.nodes|
    ensures HeldAreAlive(plan, Countdown(s, v))
  {
    SameHolders(plan, s, Countdown(s, v));
  }

  lemma SameNodes(s: State, t: State, u: State, r: State)
    requires StartedStay(s, t) && (u == t || StartedStay(t, u)) && NodesOk(u)
    requires r.nodes == u.nodes && r.query == u.query
    ensures NodesOk(r) && StartedStay(s, r)
  {
  }

  lemma NextKeepsNodes(plan: Plan, s: State, a: Action)
    requires Sized(plan, s) && NodesOk(s) && HeldAreAlive(plan, s)
    ensures NodesOk(Next(plan, s, a)) && StartedStay(s, Next(plan, s, a))
  {
    hide Held, Guarded, HeldAreAlive, Sized, BeginStart, ReturnStart, CompleteStart, FailQuery, BeginStop, EndStop, Expire,
         EmitWork, CompleteWork, Edge, Feeds;
    match a
    case ABeginStart(v) => StartKeepsNodes(plan, s, v, true);
    case AReturnStart(v, ok) => StartKeepsNodes(plan, s, v, ok);
    case ACompleteStart(v) => CompleteStartKeepsNodes(plan, s, v);
    case AEmitFromSource(k, w, id) => if w < |s.nodes| { WorkKeepsNodes(plan, s, w, id, false); }
    case AFailSource(k) => FailKeepsNodes(plan, s);
    case AEmitFromWork(id, w, newId) => if w < |s.nodes| { WorkKeepsNodes(plan, s, w, newId, false); }
    case ACompleteWork(id) => CompleteWorkKeepsNodes(plan, s, id);
    case AExpire(v) => StopKeepsNodes(plan, s, v);
    case ABeginStop(v) => StopKeepsNodes(plan, s, v);
    case AEmitFromStop(v, w, id) => if w < |s.nodes| { WorkKeepsNodes(plan, s, w, id, true); }
    case AEndStop(v, ok) => EndStopKeepsNodes(plan, s, v, ok);
    case _ =>
  }

  // --------------------------------------------------------------------- the setup

  /** While the setup callback is registered, nothing but starts goes on, and
      every start that is done has reached its node. */
  ghost predicate InSetup(s: State) {
    && s.query == Query(Starting, true, false, false, false, false)
    && s.works == map[] && s.pendingStops == multiset{} && s.log == Log(map[], {}, {})
    && (forall k | 0 <= k < |s.sources| :: s.sources[k] == Waiting)
    && (forall v | 0 <= v < |s.nodes| :: s.nodes[v].phase == Alive && (s.nodes[v].start == StartDone ==> s.nodes[v].started))
  }

  /** After the setup: it was completed or interrupted, never both. */
  ghost predicate AfterSetup(s: State) {
    && !s.query.armed && s.query.phase != Starting
    && s.query.fired != s.query.interrupted
    && (s.query.interrupted ==> s.query.failed || s.query.stopRequested || |s.nodes| == 0)
    && (s.query.fired ==> forall v | 0 <= v < |s.nodes| :: s.nodes[v].started)
    && (!s.query.fired ==> forall k | 0 <= k < |s.sources| :: s.sources[k] == Closed)
  }

  ghost predicate SetupOk(s: State) {
    InSetup(s) || AfterSetup(s)
  }

  /** During the setup every node is held, directly or through its predecessors. */
  lemma HeldInSetup(plan: Plan, s: State, v: nat)
    requires PlanOk(plan) && Sized(plan, s) && InSetup(s) && v < |s.nodes|
    ensures Held(plan, s, v) && Live(plan, s, v)
  {
    assert IsReached(plan, v);
    if k: nat :| Feeds(plan, k, v) {
      assert HeldBySource(plan, s, v);
    } else {
      var u: nat :| Edge(plan, u, v);
      assert HeldByNode(plan, s, v);
    }
  }

  /** During the setup only start tasks and the query itself can move. */
  predicate MovesSetup(a: Action) {
    a.ABeginStart? || a.AReturnStart? || a.ACompleteStart? || a.AFireSetup? || a.AStopQuery? || a.ATerminate?
  }

  lemma SetupIdle(plan: Plan, s: State, a: Action)
    requires PlanOk(plan) && Sized(plan, s) && InSetup(s) && !MovesSetup(a)
    ensures Next(plan, s, a) == s
  {
    hide Held;
    if a.AExpire? && a.v < |s.nodes| {
      HeldInSetup(plan, s, a.v);
    }
  }

  lemma SetupStart(plan: Plan, s: State, v: nat, ok: bool)
    requires PlanOk(plan) && Sized(plan, s) && InSetup(s) && NodesOk(s)
    ensures InSetup(BeginStart(plan, s, v)) && InSetup(ReturnStart(s, v, ok)) && SetupOk(CompleteStart(plan, s, v))
  {
    hide Held;
    if v < |s.nodes| {
      HeldInSetup(plan, s, v);
    }
  }

  lemma SetupEnds(s: State)
    requires InSetup(s)
    ensures SetupOk(FireSetup(s)) && SetupOk(StopQuery(s)) && SetupOk(Terminate(s))
  {
    if |s.nodes| > 0 {
      assert s.nodes[0].phase == Alive;
    }
  }

  /** The setup is over and stays so. */
  predicate QueryMoves(q: Query, r: Query) {
    && !r.armed && r.phase != Starting && r.fired == q.fired && r.interrupted == q.interrupted
    && (q.failed ==> r.failed) && (q.stopRequested ==> r.stopRequested)
  }

  lemma FailAfterSetup(plan: Plan, s: State)
    requires !s.query.armed && s.query.phase != Starting
    ensures QueryMoves(s.query, FailQuery(plan, s).query)
  {
    hide Live;
  }

  lemma CompleteAfterSetup(plan: Plan, s: State, v: nat, id: nat)
    requires !s.query.armed && s.query.phase != Starting && Sized(plan, s)
    ensures QueryMoves(s.query, CompleteStart(plan, s, v).query)
    ensures QueryMoves(s.query, CompleteWork(plan, s, id).query)
  {
    hide Live, FailQuery;
    FailAfterSetup(plan, s);
    if id in s.works {
      FailAfterSetup(plan, Countdown(s, s.works[id].target));
    }
  }

  lemma AfterSetupQuery(plan: Plan, s: State, a: Action)
    requires !s.query.armed && s.query.phase != Starting && Sized(plan, s)
    ensures QueryMoves(s.query, Next(plan, s, a).query)
  {
    hide Live, Held, FailQuery, CompleteStart, CompleteWork, Edge, Feeds;
    FailAfterSetup(plan, s);
    match a
    case ACompleteStart(v) => CompleteAfterSetup(plan, s, v, 0);
    case ACompleteWork(id) => CompleteAfterSetup(plan, s, 0, id);
    case _ =>
  }

  lemma NextKeepsSetup(plan: Plan, s: State, a: Action)
    requires PlanOk(plan) && Sized(plan, s) && SetupOk(s) && NodesOk(s)
    requires StartedStay(s, Next(plan, s, a)) && References(plan, s, Next(plan, s, a))
    ensures SetupOk(Next(plan, s, a))
  {
    hide PlanOk, NodesOk, Held, Guarded, Live, NodeStep, BeginStart, ReturnStart, CompleteStart, FailQuery, FireSetup, EndSource,
         StopSource, FailSource, BeginWork, ReturnWork, CompleteWork, CheckPendingStop, Expire, BeginStop, EmitFromStop, EndStop, StopQuery,
         Terminate, EmitFromSource, EmitFromWork, InSetup;
    if InSetup(s) {
      SetupEnds(s);
      match a
      case ABeginStart(v) => SetupStart(plan, s, v, true);
      case AReturnStart(v, ok) => SetupStart(plan, s, v, ok);
      case ACompleteStart(v) => SetupStart(plan, s, v, true);
      case AFireSetup =>
      case AStopQuery =>
      case ATerminate =>
      case _ => SetupIdle(plan, s, a);
    } else {
      AfterSetupQuery(plan, s, a);
    }
  }
}
