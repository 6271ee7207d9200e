/** Progress of a query: a pending stop lets go as soon as its pipeline's work is
    done, and from every reachable state the query can be brought to its end. */
module LifecycleProgress {
  import opened QueryLifecycle
  import opened LifecycleReferences
  import opened LifecycleSafety
  import opened LifecycleTheorems
  import opened LifecycleDrain

  // -------------------------------------------------------- more facts about every run

  ghost predicate AllClosed(s: State) {
    forall k | 0 <= k < |s.sources| :: s.sources[k] == Closed
  }

  /** Sources are open only while the query is starting or running, and wait only
      during the setup; pending stops are of pipelines of the plan. */
  ghost predicate Tidy(s: State) {
    && (IsActive(s.query) || AllClosed(s))
    && (s.query.armed || forall k | 0 <= k < |s.sources| :: s.sources[k] != Waiting)
    && (forall v | v in s.pendingStops :: v < |s.nodes|)
    && (s.query.phase == Failed ==> s.query.failed)
  }

  lemma FailTidy(plan: Plan, s: State)
    requires Tidy(s)
    ensures Tidy(FailQuery(plan, s))
  {
    hide Live;
  }

  lemma StartTidy(plan: Plan, s: State, v: nat, ok: bool)
    requires Tidy(s)
    ensures Tidy(BeginStart(plan, s, v)) && Tidy(ReturnStart(s, v, ok)) && Tidy(CompleteStart(plan, s, v))
  {
    hide Live, FailQuery;
    FailTidy(plan, s);
  }

  lemma WorkTidy(plan: Plan, s: State, id: nat, ok: bool)
    requires Tidy(s) && Sized(plan, s)
    ensures Tidy(BeginWork(plan, s, id)) && Tidy(ReturnWork(s, id, ok)) && Tidy(CompleteWork(plan, s, id))
  {
    hide Live, FailQuery;
    FailTidy(plan, s);
    if id in s.works {
      FailTidy(plan, Countdown(s, s.works[id].target));
    }
  }

  lemma ExpireTidy(plan: Plan, s: State, v: nat)
    requires Tidy(s)
    ensures Tidy(BeginStop(s, v)) && Tidy(Expire(plan, s, v)) && Tidy(CheckPendingStop(s, v))
  {
    hide Held;
  }

  lemma EndStopTidy(plan: Plan, s: State, v: nat, ok: bool)
    requires Tidy(s) && Sized(plan, s) && PlanOk(plan)
    ensures Tidy(EndStop(plan, s, v, ok))
  {
    hide FailQuery;
    FailTidy(plan, s);
    if v < Size(plan) {
      forall w | w in multiset(plan.successors[v]) ensures w < Size(plan) {
        assert w in plan.successors[v] && Edge(plan, v, w);
      }
    }
  }

  lemma SetupTidy(plan: Plan, s: State, k: nat)
    requires Tidy(s)
    ensures Tidy(EndSource(s, k)) && Tidy(FailSource(plan, s, k)) && Tidy(FireSetup(s))
  {
    hide FailQuery;
    FailTidy(plan, s);
  }

  lemma SourceTidy(plan: Plan, s: State, k: nat)
    requires Tidy(s) && Sized(plan, s) && PlanOk(plan)
    ensures Tidy(StopSource(plan, s, k))
  {
    if k < |plan.sources| {
      forall w | w in multiset(plan.sources[k]) ensures w < Size(plan) {
        assert w in plan.sources[k] && Feeds(plan, k, w);
      }
    }
  }

  lemma NextTidy(plan: Plan, s: State, a: Action)
    requires Tidy(s) && Sized(plan, s) && PlanOk(plan)
    ensures Tidy(Next(plan, s, a))
  {
    hide PlanOk, Tidy, Held, Live, BeginStart, ReturnStart, CompleteStart, FailQuery, FireSetup, EndSource, StopSource, FailSource,
         BeginWork, ReturnWork, CompleteWork, CheckPendingStop, Expire, BeginStop, EndStop;
    match a
    case ABeginStart(v) => StartTidy(plan, s, v, true);
    case AReturnStart(v, ok) => StartTidy(plan, s, v, ok);
    case ACompleteStart(v) => StartTidy(plan, s, v, true);
    case AFireSetup => SetupTidy(plan, s, 0);
    case AEndSource(k) => SetupTidy(plan, s, k);
    case AStopSource(k) => SourceTidy(plan, s, k);
    case AFailSource(k) => SetupTidy(plan, s, k);
    case ABeginWork(id) => WorkTidy(plan, s, id, true);
    case AReturnWork(id, ok) => WorkTidy(plan, s, id, ok);
    case ACompleteWork(id) => WorkTidy(plan, s, id, true);
    case ACheckPendingStop(v) => ExpireTidy(plan, s, v);
    case AExpire(v) => ExpireTidy(plan, s, v);
    case ABeginStop(v) => ExpireTidy(plan, s, v);
    case AEndStop(v, ok) => EndStopTidy(plan, s, v, ok);
    case _ => OtherTidy(plan, s, a);
  }

  lemma OtherTidy(plan: Plan, s: State, a: Action)
    requires Tidy(s)
    requires a.AEmitFromSource? || a.AEmitFromWork? || a.AEmitFromStop? || a.AStopQuery? || a.ATerminate?
    ensures Tidy(Next(plan, s, a))
  {
  }

  lemma {:induction false} RunIsTidy(plan: Plan, actions: seq<Action>)
    requires PlanOk(plan)
    ensures Tidy(Run(plan, actions))
  {
    hide Tidy, Next, PlanOk, Safe;
    if actions == [] {
      InitialTidy(plan);
    } else {
      RunIsTidy(plan, actions[..|actions| - 1]);
      RunIsSafe(plan, actions[..|actions| - 1]);
      SizedState(plan, Run(plan, actions[..|actions| - 1]));
      NextTidy(plan, Run(plan, actions[..|actions| - 1]), actions[|actions| - 1]);
    }
  }

  lemma InitialTidy(plan: Plan)
    ensures Tidy(Initial(plan))
  {
  }

  // ------------------------------------------------------------------ pending stops

  lemma PendingIsLive(plan: Plan, s: State, v: nat)
    requires Safe(plan, s) && Tidy(s) && v in s.pendingStops
    ensures v < |s.nodes| && Live(plan, s, v)
  {
    assert Held(plan, s, v);
  }

  /** In every reachable state a step on a pending stop takes it away exactly if its
      pipeline requires no termination or has no outstanding work. */
  lemma PendingStopReleases(plan: Plan, actions: seq<Action>, v: nat)
    requires PlanOk(plan) && v in Run(plan, actions).pendingStops
    ensures var s := Run(plan, actions);
            && v < |s.nodes|
            && (!s.nodes[v].requiresTermination || Outstanding(s.works, v) == {} ==>
                  CheckPendingStop(s, v) == s.(pendingStops := s.pendingStops - multiset{v}))
            && (s.nodes[v].requiresTermination && Outstanding(s.works, v) != {} ==> CheckPendingStop(s, v) == s)
  {
    hide Run, PlanOk, Live, Safe, Outstanding, Tidy;
    RunIsSafe(plan, actions);
    RunIsTidy(plan, actions);
    PendingIsLive(plan, Run(plan, actions), v);
    PendingTasksAreExact(plan, actions, v);
  }

  // ------------------------------------------------------------ what is left to be done

  function Present(s: State): (r: set<nat>) {
    set v | 0 <= v < |s.nodes| && s.nodes[v].phase != Gone
  }

  function Unstarted(s: State): (r: set<nat>) {
    set v | 0 <= v < |s.nodes| && s.nodes[v].start != StartDone
  }

  function OpenSources(s: State): (r: set<nat>) {
    set k | 0 <= k < |s.sources| && s.sources[k] == Active
  }

  function EndedSources(s: State): (r: set<nat>) {
    set k | 0 <= k < |s.sources| && s.sources[k] == Ended
  }

  /** Nothing has failed, and nothing that has returned will. */
  ghost predicate Healthy(s: State) {
    && !s.query.failed
    && (forall id | id in s.works :: s.works[id].phase != Returned(false))
    && (forall v | 0 <= v < |s.nodes| :: s.nodes[v].start != StartReturned(false))
  }

  /** No node, no task and no source is left, and the query has been stopped or has failed. */
  ghost predicate HasEnded(s: State) {
    && Present(s) == {} && Unstarted(s) == {} && s.works == map[] && s.pendingStops == multiset{} && AllClosed(s)
    && (s.query.phase == Stopped || s.query.phase == Failed)
  }

  /** A step towards the end: nothing in front of what it takes away grows. */
  ghost predicate Closer(s: State, t: State) {
    && |t.nodes| == |s.nodes| && |t.sources| == |s.sources|
    && (t.query.armed ==> s.query.armed)
    && Present(t) <= Present(s)
    && (Healthy(s) ==> Healthy(t))
  }

  lemma Continue(plan: Plan, actions: seq<Action>, a: Action)
    ensures Run(plan, actions + [a]) == Next(plan, Run(plan, actions), a)
  {
    assert (actions + [a])[..|actions|] == actions;
  }

  lemma FailShrinks(plan: Plan, s: State)
    ensures var t := FailQuery(plan, s);
            && |t.nodes| == |s.nodes| && |t.sources| == |s.sources|
            && (t.query.armed ==> s.query.armed) && t.query.failed
            && Present(t) == Present(s) && Unstarted(t) == Unstarted(s)
            && OpenSources(t) <= OpenSources(s) && EndedSources(t) <= EndedSources(s)
            && forall v | 0 <= v < |s.nodes| :: t.nodes[v].start == s.nodes[v].start && t.nodes[v].phase == s.nodes[v].phase
  {
    hide Live;
  }

  // ------------------------------------------------------------------ one start, one task

  function StartRank(phase: StartPhase): (n: nat) {
    match phase
    case StartQueued => 3
    case StartRunning => 2
    case StartReturned(_) => 1
    case StartDone => 0
  }

  function StartStep(s: State, v: nat): (a: Action)
    requires v < |s.nodes|
  {
    match s.nodes[v].start
    case StartQueued => ABeginStart(v)
    case StartRunning => AReturnStart(v, true)
    case _ => ACompleteStart(v)
  }

  lemma StartStepMoves(plan: Plan, s: State, v: nat)
    requires v < |s.nodes| && s.nodes[v].start != StartDone
    ensures var t := Next(plan, s, StartStep(s, v));
            && Closer(s, t) && Present(t) == Present(s) && v < |t.nodes| && StartRank(t.nodes[v].start) < StartRank(s.nodes[v].start)
            && Unstarted(t) <= Unstarted(s) && (v in Unstarted(t) <==> t.nodes[v].start != StartDone)
            && (Healthy(s) ==> t.query == s.query)
  {
    hide Live, FailQuery;
    FailShrinks(plan, s);
    var t := Next(plan, s, StartStep(s, v));
    forall u | 0 <= u < |s.nodes| ensures t.nodes[u].phase == s.nodes[u].phase && (u != v ==> t.nodes[u].start == s.nodes[u].start) {
    }
  }

  /** From every reachable state a start can be completed. */
  lemma {:induction false} StartCanEnd(plan: Plan, actions: seq<Action>, v: nat) returns (more: seq<Action>)
    requires v < |Run(plan, actions).nodes|
    ensures actions <= more && Closer(Run(plan, actions), Run(plan, more))
    ensures Present(Run(plan, more)) == Present(Run(plan, actions))
    ensures Unstarted(Run(plan, more)) <= Unstarted(Run(plan, actions)) && v !in Unstarted(Run(plan, more))
    ensures Healthy(Run(plan, actions)) ==> Run(plan, more).query == Run(plan, actions).query
    decreases StartRank(Run(plan, actions).nodes[v].start)
  {
    hide Run, Next, StartStep, StartRank, Healthy;
    var s := Run(plan, actions);
    if s.nodes[v].start == StartDone {
      more := actions;
    } else {
      StartStepMoves(plan, s, v);
      Continue(plan, actions, StartStep(s, v));
      more := StartCanEnd(plan, actions + [StartStep(s, v)], v);
    }
  }

  function WorkRank(phase: WorkPhase): (n: nat) {
    match phase
    case Queued => 2
    case Executing => 1
    case Returned(_) => 0
  }

  function WorkStep(s: State, id: nat): (a: Action)
    requires id in s.works
  {
    match s.works[id].phase
    case Queued => ABeginWork(id)
    case Executing => AReturnWork(id, true)
    case Returned(_) => ACompleteWork(id)
  }

  /** A step of one task towards its end. */
  ghost predicate WorkCloser(s: State, t: State) {
    && Closer(s, t) && Present(t) == Present(s) && Unstarted(t) == Unstarted(s)
    && OpenSources(t) <= OpenSources(s) && EndedSources(t) <= EndedSources(s)
    && t.works.Keys <= s.works.Keys
  }

  lemma WorkStepMoves(plan: Plan, s: State, id: nat)
    requires Sized(plan, s) && id in s.works
    ensures var t := Next(plan, s, WorkStep(s, id));
            && WorkCloser(s, t)
            && (id in t.works ==> WorkRank(t.works[id].phase) < WorkRank(s.works[id].phase))
  {
    hide Live, FailQuery;
    FailShrinks(plan, Countdown(s, s.works[id].target));
    var c, t := Countdown(s, s.works[id].target), Next(plan, s, WorkStep(s, id));
    assert Present(c) == Present(s) && Unstarted(c) == Unstarted(s);
    assert Present(t) == Present(s) && Unstarted(t) == Unstarted(s);
  }

  /** From every reachable state a task can be completed. */
  lemma {:induction false} WorkCanEnd(plan: Plan, actions: seq<Action>, id: nat) returns (more: seq<Action>)
    requires PlanOk(plan)
    ensures actions <= more && WorkCloser(Run(plan, actions), Run(plan, more)) && id !in Run(plan, more).works
    decreases id in Run(plan, actions).works,
              if id in Run(plan, actions).works then WorkRank(Run(plan, actions).works[id].phase) else 0
  {
    hide Run, Next, WorkStep, WorkRank, Healthy, PlanOk, Safe;
    var s := Run(plan, actions);
    if id !in s.works {
      more := actions;
    } else {
      RunIsSafe(plan, actions);
      SizedState(plan, s);
      WorkStepMoves(plan, s, id);
      Continue(plan, actions, WorkStep(s, id));
      more := WorkCanEnd(plan, actions + [WorkStep(s, id)], id);
    }
  }

  // --------------------------------------------------------------------- one node

  /** Nothing is left but nodes. */
  ghost predicate OnlyNodes(s: State) {
    Unstarted(s) == {} && s.works == map[] && s.pendingStops == multiset{} && AllClosed(s) && !s.query.armed
  }

  lemma IsPresent(s: State, v: nat)
    ensures v in Present(s) <==> v < |s.nodes| && s.nodes[v].phase != Gone
  {
  }

  /** The highest node that is left has no reference any more. */
  lemma HighestIsFree(plan: Plan, s: State, u: nat)
    requires PlanOk(plan) && Sized(plan, s) && OnlyNodes(s) && u < |s.nodes| && forall v | v in Present(s) :: v <= u
    ensures !Held(plan, s, u)
  {
    if HeldByNode(plan, s, u) {
      var p: nat :| p < |s.nodes| && Edge(plan, p, u) && s.nodes[p].phase != Gone;
      IsPresent(s, p);
    }
    assert u !in Unstarted(s);
  }

  function PhaseRank(phase: Phase): (n: nat) {
    match phase
    case Alive => 3
    case StopQueued => 2
    case StopRunning => 1
    case Gone => 0
  }

  function NodeStepOf(s: State, u: nat): (a: Action)
    requires u < |s.nodes|
  {
    match s.nodes[u].phase
    case Alive => AExpire(u)
    case StopQueued => ABeginStop(u)
    case _ => AEndStop(u, true)
  }

  lemma NodeStepMoves(plan: Plan, s: State, u: nat)
    requires PlanOk(plan) && Sized(plan, s) && u < |s.nodes| && s.nodes[u].phase != Gone
    requires OnlyNodes(s) && forall v | v in Present(s) :: v <= u
    ensures var t := Next(plan, s, NodeStepOf(s, u));
            && Closer(s, t) && u < |t.nodes| && PhaseRank(t.nodes[u].phase) < PhaseRank(s.nodes[u].phase)
            && (u in Present(t) ==> OnlyNodes(t))
  {
    hide Held, PlanOk;
    HighestIsFree(plan, s, u);
    var t := Next(plan, s, NodeStepOf(s, u));
    assert forall v | 0 <= v < |s.nodes| && v != u :: t.nodes[v] == s.nodes[v];
    assert Unstarted(t) == Unstarted(s);
  }

  /** The node can be taken down. */
  lemma {:induction false} NodeCanEnd(plan: Plan, actions: seq<Action>, u: nat) returns (more: seq<Action>)
    requires PlanOk(plan) && u < |Run(plan, actions).nodes|
    requires u in Present(Run(plan, actions)) ==> OnlyNodes(Run(plan, actions)) && forall v | v in Present(Run(plan, actions)) :: v <= u
    ensures actions <= more && Closer(Run(plan, actions), Run(plan, more)) && u !in Present(Run(plan, more))
    decreases PhaseRank(Run(plan, actions).nodes[u].phase)
  {
    hide Run, Next, NodeStepOf, PhaseRank, Healthy, PlanOk, Safe, OnlyNodes;
    var s := Run(plan, actions);
    if s.nodes[u].phase == Gone {
      more := actions;
    } else {
      RunIsSafe(plan, actions);
      SizedState(plan, s);
      assert u in Present(s);
      NodeStepMoves(plan, s, u);
      Continue(plan, actions, NodeStepOf(s, u));
      more := NodeCanEnd(plan, actions + [NodeStepOf(s, u)], u);
    }
  }

  // ------------------------------------------------------------------- to the end

  /** The steps between the starts and the nodes, one at a time. */
  ghost predicate CanStep(s: State) {
    s.query.armed || OpenSources(s) != {} || EndedSources(s) != {} || s.works != map[] || s.pendingStops != multiset{}
  }

  lemma SetupCanFire(plan: Plan, s: State)
    requires Safe(plan, s) && s.query.armed && Unstarted(s) == {}
    ensures var t := Next(plan, s, AFireSetup);
            Closer(s, t) && !t.query.armed && t.query.fired && forall v | 0 <= v < |t.nodes| :: t.nodes[v].started
  {
    forall v | 0 <= v < |s.nodes| ensures s.nodes[v].start == StartDone {
      assert v !in Unstarted(s);
    }
  }

  lemma SourceCanEnd(plan: Plan, s: State, k: nat)
    requires Sized(plan, s) && k < |s.sources|
    ensures k in OpenSources(s) ==>
      var t := Next(plan, s, AEndSource(k));
      Closer(s, t) && Unstarted(t) == Unstarted(s) && OpenSources(t) == OpenSources(s) - {k}
    ensures k in EndedSources(s) ==>
      var t := Next(plan, s, AStopSource(k));
      Closer(s, t) && Unstarted(t) == Unstarted(s) && OpenSources(t) == OpenSources(s) && EndedSources(t) == EndedSources(s) - {k}
  {
  }

  lemma PendingStopCanEnd(plan: Plan, s: State, v: nat)
    requires Safe(plan, s) && Tidy(s) && Counted(plan, s) && s.works == map[] && v in s.pendingStops
    ensures var t := Next(plan, s, ACheckPendingStop(v));
            && Closer(s, t) && t == s.(pendingStops := s.pendingStops - multiset{v})
            && |t.pendingStops| < |s.pendingStops|
  {
    hide Safe, Tidy, Live;
    PendingIsLive(plan, s, v);
    assert Outstanding(s.works, v) == {};
  }

  lemma SomeHighest(r: set<nat>) returns (u: nat)
    requires r != {}
    ensures u in r && forall v | v in r :: v <= u
  {
    var x :| x in r;
    if r == {x} {
      u := x;
    } else {
      assert r == (r - {x}) + {x};
      var y := SomeHighest(r - {x});
      u := if x > y then x else y;
    }
  }

  /** Nothing is left at all: the termination callback stops a query that has not failed. */
  lemma LastStep(plan: Plan, s: State)
    requires Safe(plan, s) && Tidy(s) && Present(s) == {} && Unstarted(s) == {} && !CanStep(s)
    ensures HasEnded(Next(plan, s, ATerminate)) && Closer(s, Next(plan, s, ATerminate))
    ensures Healthy(s) ==> Next(plan, s, ATerminate).query.phase == Stopped
  {
    forall v | 0 <= v < |s.nodes| ensures s.nodes[v].phase == Gone {
      assert v !in Present(s);
    }
    forall k | 0 <= k < |s.sources| ensures s.sources[k] == Closed {
      assert k !in OpenSources(s) && k !in EndedSources(s);
    }
    SamePresent(s, Next(plan, s, ATerminate));
  }

  lemma SamePresent(s: State, t: State)
    requires s.nodes == t.nodes
    ensures Present(s) == Present(t) && Unstarted(s) == Unstarted(t)
  {
  }

  lemma CloserTrans(s: State, t: State, u: State)
    requires Closer(s, t) && Closer(t, u)
    ensures Closer(s, u)
  {
  }

  /** All facts about a reachable state that its way to the end needs. */
  lemma RunFacts(plan: Plan, actions: seq<Action>)
    requires PlanOk(plan)
    ensures var s := Run(plan, actions);
            Safe(plan, s) && Tidy(s) && Counted(plan, s) && Sized(plan, s)
  {
    hide Run, PlanOk, Tidy, Counted;
    RunIsSafe(plan, actions);
    RunIsTidy(plan, actions);
    RunIsAccounted(plan, actions);
  }

  /** One step between the starts and the nodes. */
  lemma StepCloser(plan: Plan, actions: seq<Action>) returns (more: seq<Action>)
    requires PlanOk(plan) && Unstarted(Run(plan, actions)) == {} && CanStep(Run(plan, actions))
    ensures actions <= more
    ensures var s, t := Run(plan, actions), Run(plan, more);
            && Closer(s, t)
            && (s.query.armed ==> !t.query.armed)
            && (!s.query.armed ==>
                  && Present(t) == Present(s) && Unstarted(t) == {} && OpenSources(t) <= OpenSources(s)
                  && (|| OpenSources(t) < OpenSources(s)
                      || (EndedSources(t) < EndedSources(s))
                      || (EndedSources(t) == EndedSources(s) && t.works.Keys < s.works.Keys)
                      || (EndedSources(t) == EndedSources(s) && t.works == s.works && |t.pendingStops| < |s.pendingStops|)))
  {
    hide Run, Next, PlanOk, Safe, Tidy, Counted, Sized, Healthy;
    RunFacts(plan, actions);
    var s := Run(plan, actions);
    if s.query.armed {
      SetupCanFire(plan, s);
      Continue(plan, actions, AFireSetup);
      more := actions + [AFireSetup];
    } else if k :| k in OpenSources(s) {
      SourceCanEnd(plan, s, k);
      Continue(plan, actions, AEndSource(k));
      more := actions + [AEndSource(k)];
      SameNodesPresent(plan, s, k);
    } else if k :| k in EndedSources(s) {
      SourceCanEnd(plan, s, k);
      Continue(plan, actions, AStopSource(k));
      more := actions + [AStopSource(k)];
      SameNodesPresent(plan, s, k);
    } else if id :| id in s.works {
      more := WorkCanEnd(plan, actions, id);
      assert id !in Run(plan, more).works;
    } else {
      var v :| v in s.pendingStops;
      PendingStopCanEnd(plan, s, v);
      Continue(plan, actions, ACheckPendingStop(v));
      more := actions + [ACheckPendingStop(v)];
    }
  }

  lemma SameNodesPresent(plan: Plan, s: State, k: nat)
    ensures Present(Next(plan, s, AEndSource(k))) == Present(s) && Present(Next(plan, s, AStopSource(k))) == Present(s)
  {
  }

  lemma OnlyNodesLeft(plan: Plan, s: State)
    requires Tidy(s) && Unstarted(s) == {} && !CanStep(s)
    ensures OnlyNodes(s)
  {
    forall k | 0 <= k < |s.sources| ensures s.sources[k] == Closed {
      assert k !in OpenSources(s) && k !in EndedSources(s);
    }
  }

  /** From every reachable state some continuation takes the whole query down: no
      node, task or source is left.  If nothing has failed, the query ends as
      stopped. */
  lemma {:induction false} EveryQueryCanEnd(plan: Plan, actions: seq<Action>) returns (more: seq<Action>)
    requires PlanOk(plan)
    ensures actions <= more && HasEnded(Run(plan, more))
    ensures Healthy(Run(plan, actions)) ==> Run(plan, more).query.phase == Stopped && !Run(plan, more).query.failed
    decreases Run(plan, actions).query.armed, Present(Run(plan, actions)), Unstarted(Run(plan, actions)),
              OpenSources(Run(plan, actions)), EndedSources(Run(plan, actions)), Run(plan, actions).works.Keys,
              |Run(plan, actions).pendingStops|
  {
    hide Run, Next, PlanOk, Safe, Tidy, Counted, Sized, Healthy, HasEnded, CanStep, OnlyNodes, Present, Unstarted, OpenSources, EndedSources;
    var s := Run(plan, actions);
    RunFacts(plan, actions);
    if v :| v in Unstarted(s) {
      UnstartedIsNode(s, v);
      var next := StartCanEnd(plan, actions, v);
      more := EveryQueryCanEnd(plan, next);
    } else if CanStep(s) {
      assert Unstarted(s) == {};
      var next := StepCloser(plan, actions);
      more := EveryQueryCanEnd(plan, next);
    } else if Present(s) != {} {
      assert Unstarted(s) == {};
      OnlyNodesLeft(plan, s);
      var u := SomeHighest(Present(s));
      IsPresent(s, u);
      var next := NodeCanEnd(plan, actions, u);
      more := EveryQueryCanEnd(plan, next);
    } else {
      assert Unstarted(s) == {};
      LastStep(plan, s);
      Continue(plan, actions, ATerminate);
      more := actions + [ATerminate];
      HealthyIsNotFailed(s, Run(plan, more));
    }
  }

  lemma UnstartedIsNode(s: State, v: nat)
    requires v in Unstarted(s)
    ensures v < |s.nodes|
  {
  }

  lemma HealthyIsNotFailed(s: State, t: State)
    requires Closer(s, t)
    ensures Healthy(s) ==> !t.query.failed
  {
  }

  /** From every reachable state of a healthy setup some continuation starts all pipelines and then the sources. */
  lemma {:induction false} SetupCanComplete(plan: Plan, actions: seq<Action>) returns (more: seq<Action>)
    requires PlanOk(plan) && Healthy(Run(plan, actions)) && Run(plan, actions).query.armed
    ensures actions <= more && Healthy(Run(plan, more)) && Run(plan, more).query.fired && AllStarted(Run(plan, more))
    ensures forall k | 0 <= k < |Run(plan, more).sources| :: Run(plan, more).sources[k] == Active
    decreases Unstarted(Run(plan, actions))
  {
    hide Run, PlanOk, Safe, Unstarted, Healthy, Tidy, Counted;
    var s := Run(plan, actions);
    if v :| v in Unstarted(s) {
      UnstartedIsNode(s, v);
      var next := StartCanEnd(plan, actions, v);
      more := SetupCanComplete(plan, next);
    } else {
      assert Unstarted(s) == {};
      RunFacts(plan, actions);
      SetupCanFire(plan, s);
      Continue(plan, actions, AFireSetup);
      more := actions + [AFireSetup];
    }
  }

  lemma {:induction false} FiredStays(plan: Plan, actions: seq<Action>, more: seq<Action>)
    requires PlanOk(plan) && actions <= more && Run(plan, actions).query.fired
    ensures Run(plan, more).query.fired
    decreases |more|
  {
    hide Next, PlanOk;
    if |more| > |actions| {
      var k := |more| - 1;
      FiredStays(plan, actions, more[..k]);
      RunIsSafe(plan, more[..k]);
      AfterSetupQuery(plan, Run(plan, more[..k]), more[k]);
    } else {
      assert more == actions;
    }
  }

  /** A healthy query whose setup was not interrupted can be run to an end at which
      every stage has been started and stopped once. */
  lemma EveryStageCanStop(plan: Plan, actions: seq<Action>) returns (more: seq<Action>)
    requires PlanOk(plan) && Healthy(Run(plan, actions)) && !Run(plan, actions).query.interrupted
    ensures actions <= more && HasEnded(Run(plan, more)) && Run(plan, more).query.phase == Stopped
    ensures forall v | 0 <= v < |Run(plan, more).nodes| ::
      Run(plan, more).nodes[v].started && Run(plan, more).nodes[v].stopped && Run(plan, more).nodes[v].stops == 1
  {
    hide Run, PlanOk, Healthy, HeldAreAlive, NodesOk;
    var next := actions;
    RunIsSafe(plan, actions);
    if Run(plan, actions).query.armed {
      next := SetupCanComplete(plan, actions);
    }
    more := EveryQueryCanEnd(plan, next);
    FiredStays(plan, next, more);
    RunIsSafe(plan, more);
    var t := Run(plan, more);
    forall v | 0 <= v < |t.nodes| ensures t.nodes[v].started && t.nodes[v].stopped && t.nodes[v].stops == 1 {
      StoppedExactlyIfReached(plan, more, v);
      IsPresent(t, v);
    }
  }

  // ------------------------------------------------------------- buffers find their stage

  lemma RunTask(plan: Plan, actions: seq<Action>, w: nat, id: nat)
    requires var s := Run(plan, actions);
             id in s.works && s.works[id].phase == Queued && s.works[id].target == w && Live(plan, s, w)
    ensures Executes(Run(plan, actions + [ABeginWork(id)]), id) && Run(plan, actions + [ABeginWork(id)]).works[id].target == w
  {
    hide Run, Live;
    Continue(plan, actions, ABeginWork(id));
  }

  /** A buffer that a running source emits for one of its successors can be executed there. */
  lemma SourceTaskRuns(plan: Plan, actions: seq<Action>, k: nat, w: nat, id: nat)
    requires PlanOk(plan) && Feeds(plan, k, w) && id !in Run(plan, actions).log.emitted
    requires k < |Run(plan, actions).sources| && Run(plan, actions).sources[k] == Active
    ensures var t := Run(plan, actions + [AEmitFromSource(k, w, id)] + [ABeginWork(id)]);
            Executes(t, id) && t.works[id].target == w
  {
    hide Run;
    RunIsSafe(plan, actions);
    var s, t := Run(plan, actions), Run(plan, actions + [AEmitFromSource(k, w, id)]);
    Continue(plan, actions, AEmitFromSource(k, w, id));
    assert t.sources == s.sources && HeldBySource(plan, s, w) && HeldBySource(plan, t, w);
    assert Held(plan, s, w);
    RunTask(plan, actions + [AEmitFromSource(k, w, id)], w, id);
  }

  /** A buffer that an executing stage passes on, or repeats, can be executed. */
  lemma PassedTaskRuns(plan: Plan, actions: seq<Action>, id: nat, w: nat, newId: nat)
    requires PlanOk(plan) && Executes(Run(plan, actions), id) && newId !in Run(plan, actions).log.emitted
    requires w == Run(plan, actions).works[id].target || Edge(plan, Run(plan, actions).works[id].target, w)
    ensures var t := Run(plan, actions + [AEmitFromWork(id, w, newId)] + [ABeginWork(newId)]);
            Executes(t, newId) && t.works[newId].target == w
  {
    hide Run;
    RunIsSafe(plan, actions);
    RunIsAccounted(plan, actions);
    var s, t := Run(plan, actions), Run(plan, actions + [AEmitFromWork(id, w, newId)]);
    var u := s.works[id].target;
    Continue(plan, actions, AEmitFromWork(id, w, newId));
    assert HeldByWork(s, u) && Held(plan, s, u);
    assert w < |s.nodes| && newId !in s.works;
    if w == u {
      assert id in t.works && HeldByWork(t, w);
    } else {
      assert HeldByNode(plan, s, w) && Held(plan, s, w);
      assert t.nodes[u].phase == Alive && HeldByNode(plan, t, w);
    }
    RunTask(plan, actions + [AEmitFromWork(id, w, newId)], w, newId);
  }

  /** The work task keeps its pipeline. */
  ghost predicate Kept(s: State, w: nat, id: nat) {
    id in s.log.emitted && id !in s.log.expired && (id in s.works ==> s.works[id].keeps && s.works[id].target == w)
  }

  lemma NextKept(plan: Plan, s: State, a: Action, w: nat, id: nat)
    requires Safe(plan, s) && Kept(s, w, id) && w < |s.nodes|
    ensures Kept(Next(plan, s, a), w, id)
  {
    hide FailQuery, PlanOk, NodesOk, SetupOk;
    if id in s.works {
      assert HeldByWork(s, w) && Held(plan, s, w) && Live(plan, s, w);
    }
    NextKeptStep(plan, s, a, w, id);
  }

  lemma NextKeptStep(plan: Plan, s: State, a: Action, w: nat, id: nat)
    requires Sized(plan, s) && Kept(s, w, id) && (id in s.works ==> Live(plan, s, w))
    ensures Kept(Next(plan, s, a), w, id)
  {
    hide Live, FailQuery, Held, Edge, Feeds;
    match a
    case _ =>
  }

  /** A buffer that a stage emits while it is being stopped is never lost, whatever
      happens to the query: its pipeline stays until the buffer is done. */
  lemma {:induction false} StopTaskIsKept(plan: Plan, actions: seq<Action>, v: nat, w: nat, id: nat, later: seq<Action>)
    requires PlanOk(plan) && Edge(plan, v, w) && id !in Run(plan, actions).log.emitted
    requires v < |Run(plan, actions).nodes| && Run(plan, actions).nodes[v].phase == StopRunning
    ensures var t := Run(plan, actions + [AEmitFromStop(v, w, id)] + later);
            && Kept(t, w, id) && w < |t.nodes|
            && (id in t.works ==> t.nodes[w].phase == Alive)
    decreases |later|
  {
    hide Run, Kept, PlanOk, Edge;
    var start := actions + [AEmitFromStop(v, w, id)];
    RunIsSafe(plan, start + later);
    EdgeInPlan(plan, v, w);
    if later == [] {
      assert start + later == start;
      RunIsSafe(plan, actions);
      Continue(plan, actions, AEmitFromStop(v, w, id));
      RunIsAccounted(plan, actions);
      EmittedIsKept(plan, Run(plan, actions), v, w, id);
    } else {
      var k := |later| - 1;
      StopTaskIsKept(plan, actions, v, w, id, later[..k]);
      RunIsSafe(plan, start + later[..k]);
      Continue(plan, start + later[..k], later[k]);
      assert start + later[..k] + [later[k]] == start + later;
      NextKept(plan, Run(plan, start + later[..k]), later[k], w, id);
    }
    KeptIsAlive(plan, Run(plan, start + later), w, id);
  }

  lemma EdgeInPlan(plan: Plan, v: nat, w: nat)
    requires PlanOk(plan) && Edge(plan, v, w)
    ensures w < v < Size(plan)
  {
  }

  lemma EmittedIsKept(plan: Plan, s: State, v: nat, w: nat, id: nat)
    requires v < |s.nodes| && s.nodes[v].phase == StopRunning && Edge(plan, v, w) && w < |s.nodes| && id !in s.log.emitted && Logged(s)
    ensures Kept(EmitFromStop(plan, s, v, w, id), w, id)
  {
  }

  lemma KeptIsAlive(plan: Plan, s: State, w: nat, id: nat)
    requires Safe(plan, s) && Kept(s, w, id) && w < Size(plan)
    ensures w < |s.nodes| && (id in s.works ==> s.nodes[w].phase == Alive)
  {
    if id in s.works {
      assert HeldByWork(s, w) && Held(plan, s, w);
    }
  }

  // ------------------------------------------------------------------ failure and stop

  /** The query has failed: its sources are closed, and no stage that can still be locked will be stopped. */
  ghost predicate IsTornDown(plan: Plan, s: State, t: State) {
    && t.query.phase == Failed && t.query.failed && AllClosed(t) && !t.query.armed
    && (IsActive(s.query) ==> forall v: nat | Live(plan, s, v) && v < |t.nodes| :: !t.nodes[v].requiresTermination)
  }

  lemma FailQueryTearsDown(plan: Plan, s: State)
    requires Tidy(s) && (IsActive(s.query) || !s.query.armed)
    ensures IsTornDown(plan, s, FailQuery(plan, s))
  {
    hide Held;
  }

  lemma NotArmed(plan: Plan, s: State)
    requires Safe(plan, s)
    ensures IsActive(s.query) || !s.query.armed
  {
  }

  /** Every failure ends the query: of a running source, of a start or a task whose
      pipeline can be locked, and of a stop. */
  lemma FailureEndsQuery(plan: Plan, actions: seq<Action>, k: nat, v: nat, id: nat)
    requires PlanOk(plan)
    ensures var s := Run(plan, actions);
            && (k < |s.sources| && s.sources[k] == Active ==> IsTornDown(plan, s, Next(plan, s, AFailSource(k))))
            && (Live(plan, s, v) && s.nodes[v].start == StartReturned(false) ==> IsTornDown(plan, s, Next(plan, s, ACompleteStart(v))))
            && (id in s.works && s.works[id].phase == Returned(false) && Live(plan, s, s.works[id].target) ==>
                  IsTornDown(plan, s, Next(plan, s, ACompleteWork(id))))
            && (v < |s.nodes| && s.nodes[v].phase == StopRunning ==>
                  var t := Next(plan, s, AEndStop(v, false));
                  t.query.phase == Failed && v < |t.nodes| && t.nodes[v].phase == Gone && !t.nodes[v].stopped)
  {
    hide Run, PlanOk, Safe, Tidy, Counted, Held, FailQuery, IsTornDown;
    RunFacts(plan, actions);
    var s := Run(plan, actions);
    NotArmed(plan, s);
    FailQueryTearsDown(plan, s);
    TornDownTask(plan, s, id);
    TornDownStart(plan, s, v);
    FailedStop(plan, s, v);
  }

  lemma TornDownStart(plan: Plan, s: State, v: nat)
    requires IsTornDown(plan, s, FailQuery(plan, s))
    ensures Live(plan, s, v) && s.nodes[v].start == StartReturned(false) ==> IsTornDown(plan, s, CompleteStart(plan, s, v))
  {
    hide Held;
  }

  lemma TornDownTask(plan: Plan, s: State, id: nat)
    requires Sized(plan, s) && Tidy(s) && (IsActive(s.query) || !s.query.armed)
    ensures id in s.works && s.works[id].phase == Returned(false) && Live(plan, s, s.works[id].target) ==>
              IsTornDown(plan, s, CompleteWork(plan, s, id))
  {
    if id in s.works && s.works[id].phase == Returned(false) && Live(plan, s, s.works[id].target) {
      var c := Countdown(s, s.works[id].target);
      SameLive(plan, s, c);
      FailQueryTearsDown(plan, c);
      SameTornDown(plan, s, c, CompleteWork(plan, s, id));
    }
  }

  lemma SameTornDown(plan: Plan, s: State, c: State, t: State)
    requires c.query == s.query && (forall v: nat :: Live(plan, c, v) == Live(plan, s, v))
    requires IsTornDown(plan, c, FailQuery(plan, c)) && t == FailQuery(plan, c).(works := t.works)
    ensures IsTornDown(plan, s, t)
  {
    hide Live, FailQuery;
  }

  lemma SameLive(plan: Plan, s: State, c: State)
    requires |c.nodes| == |s.nodes| && c.sources == s.sources && c.works == s.works && c.pendingStops == s.pendingStops
    requires forall v | 0 <= v < |s.nodes| :: c.nodes[v].phase == s.nodes[v].phase && c.nodes[v].start == s.nodes[v].start
    ensures forall v: nat :: Live(plan, c, v) == Live(plan, s, v)
  {
    forall v: nat ensures Live(plan, c, v) == Live(plan, s, v) {
      assert HeldByNode(plan, c, v) == HeldByNode(plan, s, v);
      assert HeldBySource(plan, c, v) == HeldBySource(plan, s, v);
      assert HeldByWork(c, v) == HeldByWork(s, v);
    }
  }

  lemma FailedStop(plan: Plan, s: State, v: nat)
    requires Sized(plan, s)
    ensures v < |s.nodes| && s.nodes[v].phase == StopRunning ==>
              var t := EndStop(plan, s, v, false);
              t.query.phase == Failed && v < |t.nodes| && t.nodes[v].phase == Gone && !t.nodes[v].stopped
  {
    hide Live;
  }

  /** A task that fails ends the query if its pipeline can still be locked; one that succeeds leaves it alone. */
  lemma TaskOutcome(plan: Plan, actions: seq<Action>, id: nat, ok: bool)
    requires PlanOk(plan) && Executes(Run(plan, actions), id)
    ensures var returned := actions + [AReturnWork(id, ok)];
            var v, s, t := Run(plan, actions).works[id].target, Run(plan, returned), Run(plan, returned + [ACompleteWork(id)]);
            && id !in t.works
            && (ok || !Live(plan, s, v) ==> t.query == Run(plan, actions).query && t.sources == Run(plan, actions).sources)
            && (!ok && Live(plan, s, v) ==> IsTornDown(plan, s, t))
  {
    hide Run, PlanOk, FailQuery, IsTornDown, Held;
    var returned := actions + [AReturnWork(id, ok)];
    Continue(plan, actions, AReturnWork(id, ok));
    Continue(plan, returned, ACompleteWork(id));
    FailureEndsQuery(plan, returned, 0, 0, id);
  }

  /** The same for a start. */
  lemma StartOutcome(plan: Plan, actions: seq<Action>, v: nat, ok: bool)
    requires PlanOk(plan) && v < |Run(plan, actions).nodes| && Run(plan, actions).nodes[v].start == StartRunning
    ensures var returned := actions + [AReturnStart(v, ok)];
            var s, t := Run(plan, returned), Run(plan, returned + [ACompleteStart(v)]);
            && v < |t.nodes| == |s.nodes| && t.nodes[v].start == StartDone
            && (ok && Live(plan, s, v) ==> t.nodes[v].started && t.nodes[v].requiresTermination && t.query == s.query)
            && (!Live(plan, s, v) ==> t.query == s.query && t.nodes[v].requiresTermination == s.nodes[v].requiresTermination)
            && (!ok && Live(plan, s, v) ==> IsTornDown(plan, s, t))
  {
    hide Run, PlanOk, FailQuery, IsTornDown, Held;
    var returned := actions + [AReturnStart(v, ok)];
    Continue(plan, actions, AReturnStart(v, ok));
    Continue(plan, returned, ACompleteStart(v));
    FailureEndsQuery(plan, returned, 0, v, 0);
  }
}
