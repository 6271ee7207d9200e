/** Pending-task counters, and the drain at the end of the stream: no work task
    is lost if all sources end by themselves and nothing fails. */
module LifecycleDrain {
  import opened QueryLifecycle
  import opened LifecycleReferences
  import opened LifecycleSafety
  import opened LifecycleTheorems

  // ------------------------------------------------------------ counting work tasks

  /** The outstanding work tasks of a pipeline. */
  function Outstanding(works: map<nat, Work>, v: nat): (r: set<nat>) {
    set id | id in works && works[id].target == v
  }

  ghost predicate Counted(plan: Plan, s: State) {
    forall v: nat | Live(plan, s, v) :: s.nodes[v].pendingTasks == |Outstanding(s.works, v)|
  }

  lemma AddWork(works: map<nat, Work>, id: nat, w: Work, v: nat)
    requires id !in works
    ensures |Outstanding(works[id := w], v)| == |Outstanding(works, v)| + (if w.target == v then 1 else 0)
  {
    var before, after := Outstanding(works, v), Outstanding(works[id := w], v);
    if w.target == v {
      assert after == before + {id};
    } else {
      assert after == before;
    }
  }

  lemma RemoveWork(works: map<nat, Work>, id: nat, v: nat)
    requires id in works
    ensures |Outstanding(works - {id}, v)| == |Outstanding(works, v)| - (if works[id].target == v then 1 else 0)
  {
    var rest := works - {id};
    assert rest[id := works[id]] == works;
    AddWork(rest, id, works[id], v);
  }

  lemma MoveWork(works: map<nat, Work>, id: nat, phase: WorkPhase, v: nat)
    requires id in works
    ensures Outstanding(works[id := works[id].(phase := phase)], v) == Outstanding(works, v)
  {
  }

  /** Counters and works unchanged. */
  lemma SameCounts(plan: Plan, s: State, t: State)
    requires Counted(plan, s) && References(plan, s, t)
    requires forall v: nat | v < |s.nodes| ::
      t.nodes[v].pendingTasks == s.nodes[v].pendingTasks && Outstanding(t.works, v) == Outstanding(s.works, v)
    ensures Counted(plan, t)
  {
    hide Held;
    forall v: nat | Live(plan, t, v) ensures t.nodes[v].pendingTasks == |Outstanding(t.works, v)| {
      ReferencesShrink(plan, s, t, v);
    }
  }

  lemma EmitCounts(plan: Plan, s: State, w: nat, id: nat, keeps: bool)
    requires Counted(plan, s) && w < |s.nodes| && id !in s.works && References(plan, s, EmitWork(s, w, id, keeps))
    ensures Counted(plan, EmitWork(s, w, id, keeps))
  {
    hide Held, Outstanding;
    var t := EmitWork(s, w, id, keeps);
    forall v: nat | Live(plan, t, v) ensures t.nodes[v].pendingTasks == |Outstanding(t.works, v)| {
      ReferencesShrink(plan, s, t, v);
      AddWork(s.works, id, Work(w, Queued, keeps), v);
    }
  }

  lemma BeginWorkCounts(plan: Plan, s: State, id: nat)
    requires Counted(plan, s) && References(plan, s, BeginWork(plan, s, id))
    ensures Counted(plan, BeginWork(plan, s, id))
  {
    hide Held, Outstanding;
    var t := BeginWork(plan, s, id);
    forall v: nat | Live(plan, t, v) ensures t.nodes[v].pendingTasks == |Outstanding(t.works, v)| {
      ReferencesShrink(plan, s, t, v);
      if id in s.works {
        MoveWork(s.works, id, Executing, v);
        RemoveWork(s.works, id, v);
      }
    }
  }

  lemma FailSameTasks(plan: Plan, s: State)
    ensures forall v | 0 <= v < |s.nodes| :: FailQuery(plan, s).nodes[v].pendingTasks == s.nodes[v].pendingTasks
  {
    hide Held;
  }

  lemma CompleteWorkCounts(plan: Plan, s: State, id: nat)
    requires Counted(plan, s) && Sized(plan, s) && References(plan, s, CompleteWork(plan, s, id))
    ensures Counted(plan, CompleteWork(plan, s, id))
  {
    hide Held, Outstanding, FailQuery;
    var t := CompleteWork(plan, s, id);
    forall v: nat | Live(plan, t, v) ensures t.nodes[v].pendingTasks == |Outstanding(t.works, v)| {
      ReferencesShrink(plan, s, t, v);
      if id in s.works && s.works[id].phase.Returned? {
        RemoveWork(s.works, id, v);
        FailSameTasks(plan, Countdown(s, s.works[id].target));
      }
    }
  }

  lemma QuietCounts(plan: Plan, s: State, a: Action)
    requires Counted(plan, s) && References(plan, s, Next(plan, s, a))
    requires !a.AEmitFromSource? && !a.AEmitFromWork? && !a.AEmitFromStop? && !a.ABeginWork? && !a.ACompleteWork?
    ensures Counted(plan, Next(plan, s, a))
  {
    hide Held, References, FailQuery, Counted;
    FailSameTasks(plan, s);
    SizedOf(plan, s, Next(plan, s, a));
    var t := Next(plan, s, a);
    forall v: nat | v < |s.nodes|
      ensures t.nodes[v].pendingTasks == s.nodes[v].pendingTasks && Outstanding(t.works, v) == Outstanding(s.works, v)
    {
      if a.AReturnWork? && a.id in s.works {
        MoveWork(s.works, a.id, Returned(a.ok), v);
      }
    }
    SameCounts(plan, s, t);
  }

  lemma SizedOf(plan: Plan, s: State, t: State)
    requires References(plan, s, t)
    ensures |s.nodes| == |t.nodes|
  {
  }

  /** Every work task that was ever emitted was executed, is outstanding, or has expired. */
  ghost predicate Logged(s: State) {
    && (forall id | id in s.works ::
          && id in s.log.emitted && s.log.emitted[id] == s.works[id].target && id !in s.log.expired
          && (id in s.log.executed <==> s.works[id].phase != Queued))
    && (forall id | id in s.log.emitted :: id in s.works || id in s.log.executed || id in s.log.expired)
    && s.log.executed !! s.log.expired && s.log.executed + s.log.expired <= s.log.emitted.Keys
  }

  lemma EmitLogged(s: State, w: nat, id: nat, keeps: bool)
    requires Logged(s) && w < |s.nodes| && id !in s.log.emitted
    ensures Logged(EmitWork(s, w, id, keeps))
  {
  }

  lemma WorkLogged(plan: Plan, s: State, id: nat, ok: bool)
    requires Logged(s)
    ensures Logged(BeginWork(plan, s, id)) && Logged(ReturnWork(s, id, ok))
  {
    hide Live;
  }

  lemma CompleteWorkLogged(plan: Plan, s: State, id: nat)
    requires Logged(s) && Sized(plan, s)
    ensures Logged(CompleteWork(plan, s, id))
  {
    hide Live, FailQuery;
  }

  predicate ChangesWork(a: Action) {
    a.AEmitFromSource? || a.AEmitFromWork? || a.AEmitFromStop? || a.ABeginWork? || a.ACompleteWork? || a.AReturnWork?
  }

  lemma SameWork(plan: Plan, s: State, a: Action)
    requires !ChangesWork(a)
    ensures Next(plan, s, a).works == s.works && Next(plan, s, a).log == s.log
  {
    hide Live, FailQuery, Held, Edge, Feeds;
  }

  lemma NextLogged(plan: Plan, s: State, a: Action)
    requires Logged(s) && Sized(plan, s)
    ensures Logged(Next(plan, s, a))
  {
    hide Live, Edge, Feeds, Logged, EmitWork, BeginWork, ReturnWork, CompleteWork, Sized;
    match a
    case AEmitFromSource(k, w, id) => if w < |s.nodes| && id !in s.log.emitted { EmitLogged(s, w, id, false); }
    case AEmitFromWork(id, w, newId) => if w < |s.nodes| && newId !in s.log.emitted { EmitLogged(s, w, newId, false); }
    case AEmitFromStop(v, w, id) => if w < |s.nodes| && id !in s.log.emitted { EmitLogged(s, w, id, true); }
    case ABeginWork(id) => WorkLogged(plan, s, id, true);
    case AReturnWork(id, ok) => WorkLogged(plan, s, id, ok);
    case ACompleteWork(id) => CompleteWorkLogged(plan, s, id);
    case _ =>
      SameWork(plan, s, a);
      SameLog(s, Next(plan, s, a));
  }

  lemma SameLog(s: State, t: State)
    requires Logged(s) && t.works == s.works && t.log == s.log
    ensures Logged(t)
  {
  }

  // ------------------------------------------------------------------------ the drain

  /** Nothing has failed and nobody has stopped the query: sources only end by themselves. */
  predicate Graceful(q: Query) {
    !q.failed && !q.stopRequested
  }

  /** Every outstanding work task's pipeline is kept by a predecessor, a source or a pending stop. */
  ghost predicate AllGuarded(plan: Plan, s: State) {
    forall id | id in s.works :: Guarded(plan, s, s.works[id].target)
  }

  ghost predicate Drained(plan: Plan, s: State) {
    Graceful(s.query) ==> s.log.expired == {} && AllGuarded(plan, s)
  }

  lemma GuardKept(plan: Plan, s: State, t: State, v: nat)
    requires |s.nodes| == |t.nodes| && |s.sources| == |t.sources| && Guarded(plan, s, v)
    requires forall u | 0 <= u < |s.nodes| && s.nodes[u].phase != Gone :: t.nodes[u].phase != Gone
    requires forall k | 0 <= k < |s.sources| && s.sources[k] != Closed :: t.sources[k] != Closed
    requires v in s.pendingStops ==> v in t.pendingStops
    ensures Guarded(plan, t, v)
  {
    if HeldByNode(plan, s, v) {
      var u: nat :| u < |s.nodes| && Edge(plan, u, v) && s.nodes[u].phase != Gone;
      assert HeldByNode(plan, t, v);
    } else if HeldBySource(plan, s, v) {
      var k: nat :| k < |s.sources| && Feeds(plan, k, v) && s.sources[k] != Closed;
      assert HeldBySource(plan, t, v);
    }
  }

  /** In a graceful run, once work exists, every node alive is started and to be stopped. */
  lemma AliveRequiresStop(plan: Plan, s: State, v: nat)
    requires Safe(plan, s) && Graceful(s.query) && AfterSetup(s) && v < |s.nodes| && s.nodes[v].phase != Gone
    ensures s.nodes[v].requiresTermination && s.nodes[v].start == StartDone
  {
    hide HeldAreAlive;
    assert NodeOk(s.query.failed, s.nodes[v]);
  }

  lemma EmitGuarded(plan: Plan, s: State, w: nat, id: nat, keeps: bool)
    requires AllGuarded(plan, s) && w < |s.nodes| && Guarded(plan, s, w)
    ensures AllGuarded(plan, EmitWork(s, w, id, keeps))
  {
    hide Guarded;
    var t := EmitWork(s, w, id, keeps);
    SameHeldBy(plan, s, t);
  }

  lemma SameHeldBy(plan: Plan, s: State, t: State)
    requires |s.nodes| == |t.nodes| && s.sources == t.sources && s.pendingStops == t.pendingStops
    requires forall v | 0 <= v < |s.nodes| :: s.nodes[v].phase == t.nodes[v].phase
    ensures forall v: nat :: Guarded(plan, s, v) == Guarded(plan, t, v)
  {
    assert forall v: nat :: HeldByNode(plan, s, v) == HeldByNode(plan, t, v);
    assert forall v: nat :: HeldBySource(plan, s, v) == HeldBySource(plan, t, v);
  }

  lemma WorkGuarded(plan: Plan, s: State, id: nat, ok: bool)
    requires Safe(plan, s) && AllGuarded(plan, s) && s.log.expired == {}
    ensures AllGuarded(plan, BeginWork(plan, s, id)) && BeginWork(plan, s, id).log.expired == {}
    ensures AllGuarded(plan, ReturnWork(s, id, ok))
  {
    hide Guarded, NodesOk, SetupOk;
    if id in s.works {
      assert Held(plan, s, s.works[id].target);
    }
    SameHeldBy(plan, s, BeginWork(plan, s, id));
    SameHeldBy(plan, s, ReturnWork(s, id, ok));
  }

  lemma CompleteWorkGuarded(plan: Plan, s: State, id: nat)
    requires Safe(plan, s) && AllGuarded(plan, s) && Graceful(CompleteWork(plan, s, id).query)
    ensures AllGuarded(plan, CompleteWork(plan, s, id)) && CompleteWork(plan, s, id).log == s.log
  {
    hide Guarded, NodesOk, SetupOk, HeldAreAlive, Live;
    SameHeldBy(plan, s, CompleteWork(plan, s, id));
  }

  lemma SourceGuarded(plan: Plan, s: State, k: nat)
    requires Sized(plan, s) && AllGuarded(plan, s)
    ensures AllGuarded(plan, EndSource(s, k)) && AllGuarded(plan, StopSource(plan, s, k))
  {
    forall id | id in s.works
      ensures Guarded(plan, EndSource(s, k), s.works[id].target) && Guarded(plan, StopSource(plan, s, k), s.works[id].target)
    {
      GuardKept(plan, s, EndSource(s, k), s.works[id].target);
      StopSourceGuards(plan, s, k, s.works[id].target);
    }
  }

  lemma StopSourceGuards(plan: Plan, s: State, k: nat, v: nat)
    requires Sized(plan, s) && Guarded(plan, s, v)
    ensures Guarded(plan, StopSource(plan, s, k), v)
  {
    var t := StopSource(plan, s, k);
    if HeldByNode(plan, s, v) {
      assert HeldByNode(plan, t, v);
    } else if HeldBySource(plan, s, v) {
      var j: nat :| j < |s.sources| && Feeds(plan, j, v) && s.sources[j] != Closed;
      if j == k && s.sources[k] == Ended {
        assert v in t.pendingStops;
      } else {
        assert HeldBySource(plan, t, v);
      }
    }
  }

  /** A pending stop lets go only of a pipeline without outstanding work. */
  lemma PendingStopGuarded(plan: Plan, s: State, v: nat)
    requires Safe(plan, s) && Counted(plan, s) && AllGuarded(plan, s) && Graceful(s.query) && AfterSetup(s)
    ensures AllGuarded(plan, CheckPendingStop(s, v))
  {
    hide SetupOk, NodesOk;
    var t := CheckPendingStop(s, v);
    forall id | id in s.works ensures Guarded(plan, t, s.works[id].target) {
      var w := s.works[id].target;
      if w == v && v in s.pendingStops && v < |s.nodes| {
        assert Held(plan, s, v) && Live(plan, s, v);
        AliveRequiresStop(plan, s, v);
        assert id in Outstanding(s.works, v);
      }
      GuardKept(plan, s, t, w);
    }
  }

  lemma StopGuarded(plan: Plan, s: State, v: nat)
    requires Safe(plan, s) && AllGuarded(plan, s) && Graceful(s.query) && AfterSetup(s)
    ensures AllGuarded(plan, Expire(plan, s, v)) && AllGuarded(plan, BeginStop(s, v))
  {
    hide SetupOk, NodesOk, Held, Guarded, HeldAreAlive;
    if v < |s.nodes| && s.nodes[v].phase == Alive {
      AliveRequiresStop(plan, s, v);
    }
    forall id | id in s.works
      ensures Guarded(plan, Expire(plan, s, v), s.works[id].target) && Guarded(plan, BeginStop(s, v), s.works[id].target)
    {
      GuardKept(plan, s, Expire(plan, s, v), s.works[id].target);
      GuardKept(plan, s, BeginStop(s, v), s.works[id].target);
    }
  }

  /** The successors of a stopped pipeline pass from it to pending stops. */
  lemma EndStopGuarded(plan: Plan, s: State, v: nat)
    requires Sized(plan, s) && AllGuarded(plan, s)
    ensures AllGuarded(plan, EndStop(plan, s, v, true))
  {
    var t := EndStop(plan, s, v, true);
    forall id | id in s.works ensures Guarded(plan, t, s.works[id].target) {
      var w := s.works[id].target;
      if HeldByNode(plan, s, w) {
        var u: nat :| u < |s.nodes| && Edge(plan, u, w) && s.nodes[u].phase != Gone;
        if u == v && s.nodes[v].phase == StopRunning {
          assert w in t.pendingStops;
        } else {
          assert HeldByNode(plan, t, w);
        }
      } else if HeldBySource(plan, s, w) {
        assert HeldBySource(plan, t, w);
      }
    }
  }

  lemma GracefulStep(plan: Plan, s: State, a: Action)
    requires Graceful(Next(plan, s, a).query)
    ensures Graceful(s.query)
  {
    hide Live, Held, Edge, Feeds;
  }

  lemma SetupDrained(plan: Plan, s: State, a: Action)
    requires PlanOk(plan) && Sized(plan, s) && InSetup(s)
    ensures Next(plan, s, a).works == map[] && Next(plan, s, a).log == s.log
  {
    hide Live, Held, PlanOk, Sized;
    if !MovesSetup(a) {
      SetupIdle(plan, s, a);
    }
  }

  lemma TerminateDrained(plan: Plan, s: State)
    requires Safe(plan, s) && AllGuarded(plan, s)
    ensures AllGuarded(plan, Terminate(s))
  {
    hide NodesOk, SetupOk;
    if forall v | 0 <= v < |s.nodes| :: s.nodes[v].phase == Gone {
      forall id | id in s.works ensures false {
        GuardedIsAlive(plan, s, id);
      }
    }
  }

  lemma GuardedIsAlive(plan: Plan, s: State, id: nat)
    requires Sized(plan, s) && HeldAreAlive(plan, s) && AllGuarded(plan, s) && id in s.works
    ensures s.nodes[s.works[id].target].phase == Alive
  {
    assert Held(plan, s, s.works[id].target);
  }

  /** What all actions but those on work tasks keep. */
  lemma StartsDrained(plan: Plan, s: State, a: Action)
    requires Safe(plan, s) && Graceful(s.query) && AfterSetup(s) && AllGuarded(plan, s)
    requires a.ABeginStart? || a.AReturnStart? || a.ACompleteStart? || a.AFireSetup?
    requires Graceful(Next(plan, s, a).query)
    ensures AllGuarded(plan, Next(plan, s, a))
  {
    hide Guarded, Held, SetupOk, NodesOk, HeldAreAlive, Live;
    SameHeldBy(plan, s, Next(plan, s, a));
  }

  lemma EmitsDrained(plan: Plan, s: State, a: Action)
    requires PlanOk(plan) && Safe(plan, s) && AllGuarded(plan, s)
    requires a.AEmitFromSource? || a.AEmitFromWork? || a.AEmitFromStop?
    ensures AllGuarded(plan, Next(plan, s, a)) && Next(plan, s, a).log.expired == s.log.expired
  {
    hide SetupOk, NodesOk, EmitWork, AllGuarded;
    match a
    case AEmitFromSource(k, w, id) =>
      if k < |s.sources| && s.sources[k] == Active && Feeds(plan, k, w) && w < |s.nodes| {
        assert HeldBySource(plan, s, w);
        EmitGuarded(plan, s, w, id, false);
        EmitLog(s, w, id, false);
      }
    case AEmitFromWork(id, w, newId) =>
      if id in s.works && s.works[id].phase == Executing && w < |s.nodes| {
        EmitterGuards(plan, s, id, w);
        EmitLog(s, w, newId, false);
        if w == s.works[id].target || Edge(plan, s.works[id].target, w) {
          EmitGuarded(plan, s, w, newId, false);
        }
      }
    case AEmitFromStop(v, w, id) =>
      if v < |s.nodes| && s.nodes[v].phase == StopRunning && Edge(plan, v, w) && w < |s.nodes| {
        assert HeldByNode(plan, s, w);
        EmitGuarded(plan, s, w, id, true);
        EmitLog(s, w, id, true);
      }
  }

  lemma EmitLog(s: State, w: nat, id: nat, keeps: bool)
    requires w < |s.nodes|
    ensures EmitWork(s, w, id, keeps).log.expired == s.log.expired
  {
  }

  lemma EmitterGuards(plan: Plan, s: State, id: nat, w: nat)
    requires Safe(plan, s) && AllGuarded(plan, s) && id in s.works && s.works[id].phase == Executing
    ensures w == s.works[id].target || Edge(plan, s.works[id].target, w) ==> Guarded(plan, s, w)
  {
    hide SetupOk, NodesOk;
    var v := s.works[id].target;
    assert HeldByWork(s, v) && s.nodes[v].phase == Alive;
    if Edge(plan, v, w) {
      assert HeldByNode(plan, s, w);
    }
  }

  lemma NextDrained(plan: Plan, s: State, a: Action)
    requires PlanOk(plan) && Safe(plan, s) && Counted(plan, s) && Drained(plan, s)
    ensures Drained(plan, Next(plan, s, a))
  {
    hide PlanOk, Guarded, Held, SetupOk, NodesOk, HeldAreAlive, Live, AllGuarded, Counted, InSetup, AfterSetup,
         BeginWork, ReturnWork, CompleteWork, CheckPendingStop, Expire, BeginStop, EndSource, StopSource, Terminate;
    if Graceful(Next(plan, s, a).query) {
      GracefulStep(plan, s, a);
      if InSetup(s) {
        SetupDrained(plan, s, a);
        NothingGuarded(plan, Next(plan, s, a));
      } else {
        SetupOver(plan, s);
        if !ChangesWork(a) {
          SameWork(plan, s, a);
        }
        match a
        case AEmitFromSource(k, w, id) => EmitsDrained(plan, s, a);
        case AEmitFromWork(id, w, newId) => EmitsDrained(plan, s, a);
        case AEmitFromStop(v, w, id) => EmitsDrained(plan, s, a);
        case AEndSource(k) => SourceGuarded(plan, s, k);
        case AStopSource(k) => SourceGuarded(plan, s, k);
        case AFailSource(k) =>
        case ABeginWork(id) => WorkGuarded(plan, s, id, true);
        case AReturnWork(id, ok) => WorkGuarded(plan, s, id, ok); ReturnLog(s, id, ok);
        case ACompleteWork(id) => CompleteWorkGuarded(plan, s, id);
        case ACheckPendingStop(v) => PendingStopGuarded(plan, s, v);
        case AExpire(v) => StopGuarded(plan, s, v);
        case ABeginStop(v) => StopGuarded(plan, s, v);
        case AEndStop(v, ok) => EndStopGuarded(plan, s, v);
        case AStopQuery =>
        case ATerminate => TerminateDrained(plan, s);
        case _ => StartsDrained(plan, s, a);
      }
    }
  }

  lemma ReturnLog(s: State, id: nat, ok: bool)
    ensures ReturnWork(s, id, ok).log == s.log
  {
  }

  lemma NothingGuarded(plan: Plan, s: State)
    requires s.works == map[]
    ensures AllGuarded(plan, s)
  {
  }

  lemma SetupOver(plan: Plan, s: State)
    requires Safe(plan, s) && !InSetup(s)
    ensures AfterSetup(s) && Sized(plan, s)
  {
  }

  // ----------------------------------------------------------------- over every run

  ghost predicate Accounted(plan: Plan, s: State) {
    Safe(plan, s) && Counted(plan, s) && Logged(s) && Drained(plan, s)
  }

  lemma NextCounted(plan: Plan, s: State, a: Action)
    requires Sized(plan, s) && Counted(plan, s) && Logged(s) && References(plan, s, Next(plan, s, a))
    ensures Counted(plan, Next(plan, s, a))
  {
    hide Held, Live, Counted, References, EmitWork, BeginWork, CompleteWork;
    match a
    case AEmitFromSource(k, w, id) =>
      if w < |s.nodes| && id !in s.log.emitted && Next(plan, s, a) != s { EmitCounts(plan, s, w, id, false); }
    case AEmitFromWork(id, w, newId) =>
      if w < |s.nodes| && newId !in s.log.emitted && Next(plan, s, a) != s { EmitCounts(plan, s, w, newId, false); }
    case AEmitFromStop(v, w, id) =>
      if w < |s.nodes| && id !in s.log.emitted && Next(plan, s, a) != s { EmitCounts(plan, s, w, id, true); }
    case ABeginWork(id) => BeginWorkCounts(plan, s, id);
    case ACompleteWork(id) => CompleteWorkCounts(plan, s, id);
    case _ => QuietCounts(plan, s, a);
  }

  lemma {:induction false} RunIsAccounted(plan: Plan, actions: seq<Action>)
    requires PlanOk(plan)
    ensures Accounted(plan, Run(plan, actions))
  {
    hide Safe, Next, Counted, Logged, PlanOk, Drained;
    if actions == [] {
      InitialIsSafe(plan);
      InitialIsAccounted(plan);
    } else {
      var s, a := Run(plan, actions[..|actions| - 1]), actions[|actions| - 1];
      RunIsAccounted(plan, actions[..|actions| - 1]);
      NextIsSafe(plan, s, a);
      SizedState(plan, s);
      NextCounted(plan, s, a);
      NextLogged(plan, s, a);
      NextDrained(plan, s, a);
    }
  }

  lemma SizedState(plan: Plan, s: State)
    requires Safe(plan, s)
    ensures Sized(plan, s)
  {
  }

  lemma InitialIsAccounted(plan: Plan)
    ensures Counted(plan, Initial(plan)) && Logged(Initial(plan)) && Drained(plan, Initial(plan))
  {
    hide Held;
    assert forall v: nat :: Outstanding(map[], v) == {};
  }

  /** `pendingTasks` equals the outstanding work tasks of every node that can be
      locked; in particular it is never negative there. */
  lemma PendingTasksAreExact(plan: Plan, actions: seq<Action>, v: nat)
    requires PlanOk(plan) && Live(plan, Run(plan, actions), v)
    ensures var s := Run(plan, actions);
            s.nodes[v].pendingTasks == |Outstanding(s.works, v)| && s.nodes[v].pendingTasks >= 0
  {
    hide Run, PlanOk, Live, Safe, Logged, Drained;
    RunIsAccounted(plan, actions);
  }

  /** End-of-stream drain: in a run without failure and without a stop request no
      work task finds its pipeline gone, and when a pipeline is handed to its
      stop, every work task ever emitted for it has been executed and completed. */
  lemma EndOfStreamDrain(plan: Plan, actions: seq<Action>)
    requires PlanOk(plan) && Graceful(Run(plan, actions).query)
    ensures var s := Run(plan, actions);
            && s.log.expired == {}
            && (forall id | id in s.works :: s.works[id].target < |s.nodes| && s.nodes[s.works[id].target].phase == Alive)
            && (forall id, v: nat | id in s.log.emitted && s.log.emitted[id] == v && v < |s.nodes| && s.nodes[v].phase != Alive ::
                  id in s.log.executed && id !in s.works)
  {
    hide Run, PlanOk, Counted, NodesOk, SetupOk;
    RunIsAccounted(plan, actions);
    var s := Run(plan, actions);
    forall id | id in s.works ensures s.nodes[s.works[id].target].phase == Alive {
      assert Held(plan, s, s.works[id].target);
    }
  }
}
