/** In every run a node that is referenced is alive: references are only made
    from references. */
module LifecycleReferences {
  import opened QueryLifecycle

  ghost predicate Sized(plan: Plan, s: State) {
    && |s.nodes| == Size(plan) && |s.sources| == |plan.sources|
    && forall id | id in s.works :: s.works[id].target < |s.nodes|
  }

  ghost predicate HeldAreAlive(plan: Plan, s: State) {
    forall v: nat | v < |s.nodes| && Held(plan, s, v) :: s.nodes[v].phase == Alive
  }

  /** Every reference in `t` stands for one in `s`, and a node leaves its
      shared phase only without references. */
  ghost predicate References(plan: Plan, s: State, t: State) {
    && Sized(plan, s) && Sized(plan, t)
    && (forall u: nat | u < |s.nodes| :: NodeStep(plan, s, u, t.nodes[u]))
    && (forall k | 0 <= k < |s.sources| && t.sources[k] != Closed :: s.sources[k] != Closed)
    && (forall v | v in t.pendingStops :: Guarded(plan, s, v))
    && (forall id | id in t.works && Holds(t.works[id]) :: Held(plan, s, t.works[id].target))
  }

  ghost predicate NodeStep(plan: Plan, s: State, u: nat, n: Node)
    requires u < |s.nodes|
  {
    && (n.phase != Gone ==> s.nodes[u].phase != Gone)
    && (n.phase == Alive ==> s.nodes[u].phase == Alive)
    && (n.phase != Alive && s.nodes[u].phase == Alive ==> !Held(plan, s, u))
    && (n.start == StartRunning ==> Held(plan, s, u))
  }

  lemma ReferencesShrink(plan: Plan, s: State, t: State, v: nat)
    requires References(plan, s, t)
    ensures Held(plan, t, v) ==> Held(plan, s, v)
    ensures Guarded(plan, t, v) ==> Guarded(plan, s, v)
    ensures Live(plan, t, v) ==> Live(plan, s, v)
  {
    if HeldByNode(plan, t, v) {
      var u: nat :| u < |t.nodes| && Edge(plan, u, v) && t.nodes[u].phase != Gone;
      assert NodeStep(plan, s, u, t.nodes[u]);
      assert HeldByNode(plan, s, v);
    }
    if HeldBySource(plan, t, v) {
      var k: nat :| k < |t.sources| && Feeds(plan, k, v) && t.sources[k] != Closed;
      assert HeldBySource(plan, s, v);
    }
    if HeldByWork(t, v) {
      var id :| id in t.works && t.works[id].target == v && Holds(t.works[id]);
    }
    if v < |s.nodes| {
      assert NodeStep(plan, s, v, t.nodes[v]);
    }
  }

  lemma AliveKept(plan: Plan, s: State, t: State)
    requires References(plan, s, t) && HeldAreAlive(plan, s)
    ensures HeldAreAlive(plan, t)
  {
    forall v: nat | v < |t.nodes| && Held(plan, t, v) ensures t.nodes[v].phase == Alive {
      ReferencesShrink(plan, s, t, v);
      assert NodeStep(plan, s, v, t.nodes[v]);
    }
  }

  /** Nothing changes. */
  lemma Unchanged(plan: Plan, s: State)
    requires Sized(plan, s)
    ensures References(plan, s, s)
  {
    forall id | id in s.works && Holds(s.works[id]) ensures Held(plan, s, s.works[id].target) {
      assert HeldByWork(s, s.works[id].target);
    }
  }

  lemma StartReferences(plan: Plan, s: State, v: nat, ok: bool)
    requires Sized(plan, s)
    ensures References(plan, s, BeginStart(plan, s, v))
    ensures References(plan, s, ReturnStart(s, v, ok))
  {
    hide Guarded, Held;
    Unchanged(plan, s);
  }

  lemma FailReferences(plan: Plan, s: State)
    requires Sized(plan, s)
    ensures References(plan, s, FailQuery(plan, s))
  {
    hide Guarded, Held;
    Unchanged(plan, s);
    var t := FailQuery(plan, s);
    forall u: nat | u < |s.nodes| ensures NodeStep(plan, s, u, t.nodes[u]) {
      assert NodeStep(plan, s, u, s.nodes[u]);
    }
  }

  lemma SetNode(plan: Plan, s: State, t: State, v: nat, n: Node)
    requires References(plan, s, t) && v < |s.nodes| && NodeStep(plan, s, v, n)
    ensures References(plan, s, t.(nodes := t.nodes[v := n]))
  {
    hide Guarded, Held;
  }

  lemma CompleteStartReferences(plan: Plan, s: State, v: nat)
    requires Sized(plan, s)
    ensures References(plan, s, CompleteStart(plan, s, v))
  {
    hide Guarded, Held, References, Live, FailQuery;
    Unchanged(plan, s);
    FailReferences(plan, s);
    if v < |s.nodes| && s.nodes[v].start.StartReturned? {
      var t := if Live(plan, s, v) && !s.nodes[v].start.ok then FailQuery(plan, s) else s;
      NodeStepOf(plan, s, t, v);
      var reached := Live(plan, s, v) && s.nodes[v].start.ok;
      SetNode(plan, s, t, v, t.nodes[v].(start := StartDone,
                                         requiresTermination := t.nodes[v].requiresTermination || reached,
                                         started := t.nodes[v].started || reached));
    }
  }

  lemma NodeStepOf(plan: Plan, s: State, t: State, v: nat)
    requires References(plan, s, t) && v < |s.nodes|
    ensures |t.nodes| == |s.nodes| && NodeStep(plan, s, v, t.nodes[v])
  {
  }

  lemma SourceReferences(plan: Plan, s: State, k: nat)
    requires Sized(plan, s)
    ensures References(plan, s, EndSource(s, k))
    ensures References(plan, s, StopSource(plan, s, k))
  {
    hide Held;
    Unchanged(plan, s);
    if k < |s.sources| && k < |plan.sources| && s.sources[k] == Ended {
      forall v | v in plan.sources[k] ensures HeldBySource(plan, s, v) {
        assert Feeds(plan, k, v);
      }
    }
  }

  lemma QueryReferences(plan: Plan, s: State)
    requires Sized(plan, s)
    requires s.query.armed ==> forall k | 0 <= k < |s.sources| :: s.sources[k] == Waiting
    ensures References(plan, s, FireSetup(s))
    ensures References(plan, s, StopQuery(s))
    ensures References(plan, s, Terminate(s))
  {
    hide Held, Guarded;
    Unchanged(plan, s);
  }

  lemma EmitReferences(plan: Plan, s: State, w: nat, id: nat, keeps: bool)
    requires Sized(plan, s) && w < |s.nodes| && (keeps ==> Held(plan, s, w))
    ensures References(plan, s, EmitWork(s, w, id, keeps))
  {
    hide Held, Guarded;
    Unchanged(plan, s);
  }

  lemma WorkReferences(plan: Plan, s: State, id: nat, ok: bool)
    requires Sized(plan, s)
    ensures References(plan, s, BeginWork(plan, s, id))
    ensures References(plan, s, ReturnWork(s, id, ok))
  {
    hide Held, Guarded;
    Unchanged(plan, s);
    if id in s.works && s.works[id].phase == Executing {
      assert Holds(s.works[id]);
    }
  }

  lemma CompleteWorkReferences(plan: Plan, s: State, id: nat)
    requires Sized(plan, s)
    ensures References(plan, s, CompleteWork(plan, s, id))
  {
    hide Held, Guarded, FailQuery, References;
    Unchanged(plan, s);
    if id in s.works && s.works[id].phase.Returned? {
      var v := s.works[id].target;
      var t := if Live(plan, s, v) then Countdown(s, v) else s;
      NodeStepOf(plan, s, s, v);
      SetNode(plan, s, s, v, s.nodes[v].(pendingTasks := s.nodes[v].pendingTasks - 1));
      CountdownSized(plan, s, v);
      FailReferences(plan, t);
      SameHolders(plan, s, t);
      Chain(plan, s, t, FailQuery(plan, t));
      var u := if Live(plan, s, v) && !s.works[id].phase.ok then FailQuery(plan, t) else t;
      DropWork(plan, s, u, id);
    }
  }

  lemma CountdownSized(plan: Plan, s: State, v: nat)
    requires Sized(plan, s) && v < |s.nodes|
    ensures Sized(plan, Countdown(s, v))
  {
  }

  /** The references do not depend on the counters. */
  lemma SameHolders(plan: Plan, s: State, t: State)
    requires |s.nodes| == |t.nodes| && s.sources == t.sources && s.works == t.works && s.pendingStops == t.pendingStops
    requires forall v | 0 <= v < |s.nodes| :: s.nodes[v].phase == t.nodes[v].phase && s.nodes[v].start == t.nodes[v].start
    ensures forall v: nat :: Guarded(plan, s, v) == Guarded(plan, t, v) && Held(plan, s, v) == Held(plan, t, v)
    ensures forall v: nat :: Live(plan, s, v) == Live(plan, t, v)
  {
    assert forall v: nat :: HeldByNode(plan, s, v) == HeldByNode(plan, t, v);
    assert forall v: nat :: HeldBySource(plan, s, v) == HeldBySource(plan, t, v);
    assert forall v: nat :: HeldByWork(s, v) == HeldByWork(t, v);
  }

  lemma Chain(plan: Plan, s: State, t: State, u: State)
    requires References(plan, s, t) && References(plan, t, u)
    requires forall v: nat :: Held(plan, s, v) == Held(plan, t, v) && Guarded(plan, s, v) == Guarded(plan, t, v)
    ensures References(plan, s, u)
  {
    hide Held, Guarded;
    forall v: nat | v < |s.nodes| ensures NodeStep(plan, s, v, u.nodes[v]) {
      assert NodeStep(plan, s, v, t.nodes[v]) && NodeStep(plan, t, v, u.nodes[v]);
    }
  }

  lemma DropWork(plan: Plan, s: State, t: State, id: nat)
    requires References(plan, s, t) && s.works == t.works
    ensures References(plan, s, t.(works := s.works - {id}))
  {
    hide Held, Guarded;
  }

  lemma StopReferences(plan: Plan, s: State, v: nat)
    requires Sized(plan, s)
    ensures References(plan, s, CheckPendingStop(s, v))
    ensures References(plan, s, Expire(plan, s, v))
    ensures References(plan, s, BeginStop(s, v))
  {
    hide Held, Guarded;
    Unchanged(plan, s);
  }

  lemma EndStopReferences(plan: Plan, s: State, v: nat, ok: bool)
    requires Sized(plan, s)
    ensures References(plan, s, EndStop(plan, s, v, ok))
  {
    hide Held, FailQuery;
    Unchanged(plan, s);
    FailReferences(plan, s);
    if v < |s.nodes| && s.nodes[v].phase == StopRunning {
      forall w | w in plan.successors[v] ensures HeldByNode(plan, s, w) {
        assert Edge(plan, v, w);
      }
      var t := if ok then s.(pendingStops := s.pendingStops + multiset(plan.successors[v])) else FailQuery(plan, s);
      NodeStepOf(plan, s, t, v);
      SetNode(plan, s, t, v, t.nodes[v].(phase := Gone, requiresTermination := false, stopped := ok));
    }
  }

  lemma EmitFromStopReferences(plan: Plan, s: State, v: nat, w: nat, id: nat)
    requires Sized(plan, s)
    ensures References(plan, s, EmitFromStop(plan, s, v, w, id))
  {
    hide References;
    Unchanged(plan, s);
    if v < |s.nodes| && s.nodes[v].phase == StopRunning && Edge(plan, v, w) && w < |s.nodes| {
      assert HeldByNode(plan, s, w);
      EmitReferences(plan, s, w, id, true);
    }
  }

  /** The sources wait as long as the setup callback is registered. */
  ghost predicate WaitingWhileArmed(s: State) {
    s.query.armed ==> forall k | 0 <= k < |s.sources| :: s.sources[k] == Waiting
  }

  /** No action makes a reference to a node that has none. */
  lemma NextReferences(plan: Plan, s: State, a: Action)
    requires Sized(plan, s) && WaitingWhileArmed(s)
    ensures References(plan, s, Next(plan, s, a))
  {
    hide Held, Guarded, References, Sized, BeginStart, ReturnStart, CompleteStart, FailQuery, FireSetup, EndSource, StopSource,
         BeginWork, ReturnWork, CompleteWork, CheckPendingStop, Expire, BeginStop, EmitFromStop, EndStop, StopQuery, Terminate,
         EmitWork, Edge, Feeds;
    Unchanged(plan, s);
    match a
    case ABeginStart(v) => StartReferences(plan, s, v, true);
    case AReturnStart(v, ok) => StartReferences(plan, s, v, ok);
    case ACompleteStart(v) => CompleteStartReferences(plan, s, v);
    case AFireSetup => QueryReferences(plan, s);
    case AEmitFromSource(k, w, id) => if w < |s.nodes| { EmitReferences(plan, s, w, id, false); }
    case AEndSource(k) => SourceReferences(plan, s, k);
    case AStopSource(k) => SourceReferences(plan, s, k);
    case AFailSource(k) => FailReferences(plan, s);
    case ABeginWork(id) => WorkReferences(plan, s, id, true);
    case AEmitFromWork(id, w, newId) => if w < |s.nodes| { EmitReferences(plan, s, w, newId, false); }
    case AReturnWork(id, ok) => WorkReferences(plan, s, id, ok);
    case ACompleteWork(id) => CompleteWorkReferences(plan, s, id);
    case ACheckPendingStop(v) => StopReferences(plan, s, v);
    case AExpire(v) => StopReferences(plan, s, v);
    case ABeginStop(v) => StopReferences(plan, s, v);
    case AEmitFromStop(v, w, id) => EmitFromStopReferences(plan, s, v, w, id);
    case AEndStop(v, ok) => EndStopReferences(plan, s, v, ok);
    case AStopQuery => QueryReferences(plan, s);
    case ATerminate => QueryReferences(plan, s);
  }
}
