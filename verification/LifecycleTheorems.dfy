/** Safety of the query lifecycle over every run. */
module LifecycleTheorems {
  import opened QueryLifecycle
  import opened LifecycleReferences
  import opened LifecycleSafety

  ghost predicate Safe(plan: Plan, s: State) {
    Sized(plan, s) && HeldAreAlive(plan, s) && NodesOk(s) && SetupOk(s)
  }

  lemma InitialIsSafe(plan: Plan)
    requires PlanOk(plan)
    ensures Safe(plan, Initial(plan)) && InSetup(Initial(plan))
  {
    hide Held;
  }

  lemma NextIsSafe(plan: Plan, s: State, a: Action)
    requires PlanOk(plan) && Safe(plan, s)
    ensures Safe(plan, Next(plan, s, a)) && References(plan, s, Next(plan, s, a))
  {
    hide PlanOk, HeldAreAlive, NodesOk, Next, Held, NodeStep, Guarded;
    NextReferences(plan, s, a);
    AliveKept(plan, s, Next(plan, s, a));
    NextKeepsNodes(plan, s, a);
    NextKeepsSetup(plan, s, a);
  }

  lemma {:induction false} RunIsSafe(plan: Plan, actions: seq<Action>)
    requires PlanOk(plan)
    ensures Safe(plan, Run(plan, actions))
  {
    hide Safe, Next, Initial;
    if actions == [] {
      InitialIsSafe(plan);
    } else {
      RunIsSafe(plan, actions[..|actions| - 1]);
      NextIsSafe(plan, Run(plan, actions[..|actions| - 1]), actions[|actions| - 1]);
    }
  }

  // -------------------------------------------------------------- execution and stop

  ghost predicate Executes(s: State, id: nat) {
    id in s.works && s.works[id].phase == Executing
  }

  /** A stage is never executed during or after its own stop, and is stopped at
      most once; a destroyed node requires no termination. */
  lemma StopsOnceAfterExecution(plan: Plan, actions: seq<Action>, id: nat, v: nat)
    requires PlanOk(plan) && v < Size(plan)
    ensures var s := Run(plan, actions);
            && |s.nodes| == Size(plan)
            && s.nodes[v].stops <= 1
            && (s.nodes[v].phase == Gone ==> !s.nodes[v].requiresTermination)
            && (Executes(s, id) && s.works[id].target == v ==> s.nodes[v].phase == Alive && s.nodes[v].stops == 0)
  {
    hide Run, PlanOk;
    RunIsSafe(plan, actions);
    var s := Run(plan, actions);
    assert NodeOk(s.query.failed, s.nodes[v]);
    if Executes(s, id) && s.works[id].target == v {
      assert HeldByWork(s, v);
    }
  }

  /** A pipeline is handed to its stop only after its predecessors are destroyed;
      without failures each predecessor that was started has been stopped. */
  lemma StopsAfterPredecessors(plan: Plan, actions: seq<Action>, u: nat, v: nat)
    requires PlanOk(plan) && Edge(plan, u, v)
    ensures var s := Run(plan, actions);
            && |s.nodes| == Size(plan) && v < Size(plan)
            && (s.nodes[v].phase != Alive ==> s.nodes[u].phase == Gone)
            && (s.nodes[v].phase != Alive && s.nodes[u].started && !s.query.failed ==> s.nodes[u].stopped)
  {
    hide Run;
    RunIsSafe(plan, actions);
    var s := Run(plan, actions);
    assert NodeOk(s.query.failed, s.nodes[u]);
    if s.nodes[u].phase != Gone {
      assert HeldByNode(plan, s, v);
    }
  }

  /** Without failures a destroyed node was stopped exactly if the callback of its
      start had reached it, and in every case if the setup was not interrupted. */
  lemma StoppedExactlyIfReached(plan: Plan, actions: seq<Action>, v: nat)
    requires PlanOk(plan) && v < Size(plan)
    ensures var s := Run(plan, actions);
            && |s.nodes| == Size(plan)
            && (s.nodes[v].phase == Gone && !s.query.failed ==>
                  && (s.nodes[v].stops == 1 <==> s.nodes[v].started)
                  && (s.nodes[v].stopped <==> s.nodes[v].started)
                  && (!s.query.interrupted ==> s.nodes[v].started))
  {
    hide Run, PlanOk;
    RunIsSafe(plan, actions);
    var s := Run(plan, actions);
    assert NodeOk(s.query.failed, s.nodes[v]);
  }

  // ---------------------------------------------------------- execution and setup

  ghost predicate AllStarted(s: State) {
    forall v | 0 <= v < |s.nodes| :: s.nodes[v].started
  }

  /** A stage is executed only when every pipeline of the plan has been started,
      unless the query was stopped or failed while it was being set up. */
  lemma ExecutesAfterSetup(plan: Plan, actions: seq<Action>, id: nat)
    requires PlanOk(plan) && Executes(Run(plan, actions), id)
    ensures AllStarted(Run(plan, actions)) || Run(plan, actions).query.interrupted
  {
    hide Run, PlanOk;
    RunIsSafe(plan, actions);
  }

  predicate HasEdge(plan: Plan) {
    exists u | 0 <= u < Size(plan) :: plan.successors[u] != []
  }

  /** Without edges, an interrupted setup leaves nothing that could emit work. */
  ghost predicate NoEarlyWork(s: State) {
    s.query.interrupted ==> s.works == map[]
  }

  lemma NextNoEarlyWork(plan: Plan, s: State, a: Action)
    requires PlanOk(plan) && Safe(plan, s) && !HasEdge(plan) && NoEarlyWork(s)
    ensures NoEarlyWork(Next(plan, s, a))
  {
    hide Held, Live, HeldAreAlive, NodesOk;
    if InSetup(s) {
      if !MovesSetup(a) {
        SetupIdle(plan, s, a);
      }
    } else {
      AfterSetupQuery(plan, s, a);
      IdleWithoutWork(plan, s, a);
    }
  }

  lemma IdleWithoutWork(plan: Plan, s: State, a: Action)
    requires Sized(plan, s) && AfterSetup(s) && !HasEdge(plan) && (s.query.interrupted ==> s.works == map[])
    ensures s.query.interrupted ==> Next(plan, s, a).works == map[]
  {
    hide Live, Held;
  }

  lemma {:induction false} RunNoEarlyWork(plan: Plan, actions: seq<Action>)
    requires PlanOk(plan) && !HasEdge(plan)
    ensures NoEarlyWork(Run(plan, actions))
  {
    hide Next, PlanOk, HasEdge, Safe;
    if actions != [] {
      RunNoEarlyWork(plan, actions[..|actions| - 1]);
      RunIsSafe(plan, actions[..|actions| - 1]);
      NextNoEarlyWork(plan, Run(plan, actions[..|actions| - 1]), actions[|actions| - 1]);
    }
  }

  /** The top of an edge that no other edge leads to. */
  lemma TopEdge(plan: Plan) returns (u: nat)
    requires PlanOk(plan) && HasEdge(plan)
    ensures u < Size(plan) && plan.successors[u] != [] && forall x: nat :: !Edge(plan, x, u)
  {
    u := Size(plan) - 1;
    while plan.successors[u] == []
      invariant u < Size(plan) && exists x :: 0 <= x <= u && plan.successors[x] != []
      invariant forall x | u < x < Size(plan) :: plan.successors[x] == []
      decreases u
    {
      u := u - 1;
    }
  }

  ghost predicate IsReachable(plan: Plan, s: State) {
    exists actions :: Run(plan, actions) == s
  }

  lemma InitialIsReachable(plan: Plan)
    ensures IsReachable(plan, Initial(plan))
  {
    assert Run(plan, []) == Initial(plan);
  }

  lemma NextIsReachable(plan: Plan, s: State, a: Action)
    requires IsReachable(plan, s)
    ensures IsReachable(plan, Next(plan, s, a))
  {
    var actions :| Run(plan, actions) == s;
    assert (actions + [a])[..|actions|] == actions;
    assert Run(plan, actions + [a]) == Next(plan, s, a);
  }

  /** The pipeline `u` has been started, the others have not. */
  ghost function OneStarted(plan: Plan, u: nat): (s: State)
    requires u < Size(plan)
  {
    Initial(plan).(nodes := Initial(plan).nodes[u := Node(Alive, true, 0, StartDone, true, 0, false)])
  }

  lemma OneStartedReachable(plan: Plan, u: nat)
    requires PlanOk(plan) && u < Size(plan)
    ensures IsReachable(plan, OneStarted(plan, u))
  {
    hide Held, IsReachable;
    var s := Initial(plan);
    InitialIsSafe(plan);
    InitialIsReachable(plan);
    HeldInSetup(plan, s, u);
    SetupStart(plan, s, u, true);
    NextIsReachable(plan, s, ABeginStart(u));
    var s1 := BeginStart(plan, s, u);
    SetupStart(plan, s1, u, true);
    NextIsReachable(plan, s1, AReturnStart(u, true));
    var s2 := ReturnStart(s1, u, true);
    HeldInSetup(plan, s2, u);
    NextIsReachable(plan, s2, ACompleteStart(u));
    assert CompleteStart(plan, s2, u).nodes == OneStarted(plan, u).nodes;
  }

  /** Then the query is stopped, and the pipeline's own stop has begun. */
  ghost function OneStopping(plan: Plan, u: nat): (s: State)
    requires u < Size(plan)
  {
    State(Initial(plan).nodes[u := Node(StopRunning, true, 0, StartDone, true, 1, false)],
          seq(|plan.sources|, k => Closed), map[], multiset{}, Query(Stopping, false, false, true, true, false), Log(map[], {}, {}))
  }

  lemma OneStoppingReachable(plan: Plan, u: nat)
    requires PlanOk(plan) && u < Size(plan) && forall x: nat :: !Edge(plan, x, u)
    ensures IsReachable(plan, OneStopping(plan, u))
  {
    hide IsReachable, PlanOk;
    OneStartedReachable(plan, u);
    var s := OneStarted(plan, u);
    NextIsReachable(plan, s, AStopQuery);
    var s1 := StopQuery(s);
    assert !Held(plan, s1, u);
    NextIsReachable(plan, s1, AExpire(u));
    var s2 := Expire(plan, s1, u);
    NextIsReachable(plan, s2, ABeginStop(u));
    assert BeginStop(s2, u).nodes == OneStopping(plan, u).nodes;
  }

  /** A stopping stage's last buffer can be executed by a successor that was never started. */
  lemma EarlyExecution(plan: Plan, u: nat, v: nat) returns (s: State)
    requires PlanOk(plan) && Edge(plan, u, v) && forall x: nat :: !Edge(plan, x, u)
    ensures IsReachable(plan, s) && Executes(s, 0) && s.works[0].target == v && v < |s.nodes| && !s.nodes[v].started
  {
    hide IsReachable;
    OneStoppingReachable(plan, u);
    var s0 := OneStopping(plan, u);
    NextIsReachable(plan, s0, AEmitFromStop(u, v, 0));
    var s1 := EmitFromStop(plan, s0, u, v, 0);
    assert s1.works[0] == Work(v, Queued, true) && HeldByWork(s1, v);
    NextIsReachable(plan, s1, ABeginWork(0));
    s := BeginWork(plan, s1, 0);
  }

  /** Exactly the plans without edges never execute a stage before every
      pipeline is started, whenever the query is stopped or fails. */
  lemma SetupBeforeExecution(plan: Plan)
    requires PlanOk(plan)
    ensures (forall s, id | IsReachable(plan, s) && Executes(s, id) :: AllStarted(s)) <==> !HasEdge(plan)
  {
    if HasEdge(plan) {
      var u := TopEdge(plan);
      var v := plan.successors[u][0];
      var s := EarlyExecution(plan, u, v);
      assert Executes(s, 0) && !AllStarted(s);
    } else {
      forall s, id | IsReachable(plan, s) && Executes(s, id) ensures AllStarted(s) {
        var actions :| Run(plan, actions) == s;
        ExecutesAfterSetup(plan, actions, id);
        RunNoEarlyWork(plan, actions);
      }
    }
  }

  /** If the query is stopped while a start is running, the stage can be
      destroyed although its start succeeded, and is never stopped. */
  lemma StartedNeverStopped(plan: Plan, u: nat) returns (s: State)
    requires PlanOk(plan) && u < Size(plan) && forall x: nat :: !Edge(plan, x, u)
    ensures IsReachable(plan, s) && u < |s.nodes|
    ensures s.nodes[u].start == StartReturned(true) && s.nodes[u].phase == Gone && s.nodes[u].stops == 0
  {
    hide IsReachable;
    var s0 := Initial(plan);
    InitialIsSafe(plan);
    InitialIsReachable(plan);
    HeldInSetup(plan, s0, u);
    NextIsReachable(plan, s0, ABeginStart(u));
    var s1 := BeginStart(plan, s0, u);
    NextIsReachable(plan, s1, AStopQuery);
    var s2 := StopQuery(s1);
    NextIsReachable(plan, s2, AReturnStart(u, true));
    var s3 := ReturnStart(s2, u, true);
    assert !Held(plan, s3, u);
    NextIsReachable(plan, s3, AExpire(u));
    s := Expire(plan, s3, u);
  }

  // --------------------------------------------------------------------- termination

  /** No task is queued or running, no source is open. */
  ghost predicate AtRest(s: State) {
    && s.works == map[] && s.pendingStops == multiset{} && !s.query.armed
    && (forall k | 0 <= k < |s.sources| :: s.sources[k] == Closed)
    && (forall v | 0 <= v < |s.nodes| ::
          s.nodes[v].start == StartDone && s.nodes[v].phase != StopQueued && s.nodes[v].phase != StopRunning)
  }

  /** Nodes above `v` are gone: then so is `v`, or its last reference has just been dropped. */
  lemma {:induction false} RestedAreGone(plan: Plan, s: State, v: nat)
    requires PlanOk(plan) && Sized(plan, s) && AtRest(s) && v < |s.nodes|
    requires forall x: nat :: Expire(plan, s, x) == s
    ensures s.nodes[v].phase == Gone
    decreases |s.nodes| - v
  {
    if s.nodes[v].phase == Alive {
      forall u: nat | u < |s.nodes| && Edge(plan, u, v) ensures s.nodes[u].phase == Gone {
        RestedAreGone(plan, s, u);
      }
      assert !Held(plan, s, v);
      var _ := Expire(plan, s, v);
    }
  }

  /** A query whose work is done is torn down completely: the termination callback is due. */
  lemma RestedQueryTerminates(plan: Plan, s: State)
    requires PlanOk(plan) && Sized(plan, s) && AtRest(s) && IsActive(s.query)
    requires forall x: nat :: Expire(plan, s, x) == s
    ensures Terminate(s).query.phase == Stopped
  {
    forall v: nat | v < |s.nodes| ensures s.nodes[v].phase == Gone {
      RestedAreGone(plan, s, v);
    }
  }
}
