/** Pooled segments move between the global queue, the queues of fixed-size pools
    and their users; each is always in exactly one of these places.  Every method
    of a pool or of the manager is one step. */
module BufferPools {
  import opened Options
  import opened Counting

  /** Who gets a buffer back that is in use. */
  datatype Owner = Global | FromPool(p: nat)

  datatype Pool = Pool(exclusiveBuffers: seq<nat>, numberOfReservedBuffers: nat, isDestroyed: bool)

  /** How often `s` is in the queues of the first `k` pools. */
  function InPools(pools: seq<Pool>, k: nat, s: nat): (n: nat)
    requires k <= |pools|
  {
    if k == 0 then 0 else InPools(pools, k - 1, s) + Occurrences(pools[k - 1].exclusiveBuffers, s)
  }

  function Places(available: seq<nat>, pools: seq<Pool>, inUse: map<nat, Owner>, s: nat): (n: nat) {
    Occurrences(available, s) + InPools(pools, |pools|, s) + (if s in inUse then 1 else 0)
  }

  /** Every segment is in exactly one place, and there are no others. */
  ghost predicate Conserved(n: nat, available: seq<nat>, pools: seq<Pool>, inUse: map<nat, Owner>) {
    forall s: nat :: Places(available, pools, inUse, s) == if s < n then 1 else 0
  }

  function UsedFrom(inUse: map<nat, Owner>, p: nat): (r: set<nat>) {
    set s | s in inUse && inUse[s] == FromPool(p)
  }

  /** The segments of a pool are in its queue or in use; a destroyed pool keeps none. */
  ghost predicate PoolOk(pool: Pool, used: nat) {
    && |pool.exclusiveBuffers| + used <= pool.numberOfReservedBuffers
    && (if pool.isDestroyed then pool.exclusiveBuffers == []
        else |pool.exclusiveBuffers| + used == pool.numberOfReservedBuffers)
  }

  ghost predicate PoolsOk(pools: seq<Pool>, inUse: map<nat, Owner>) {
    && (forall p: nat | p < |pools| :: PoolOk(pools[p], |UsedFrom(inUse, p)|))
    && (forall s | s in inUse && inUse[s].FromPool? :: inUse[s].p < |pools|)
  }

  // ------------------------------------------------------------------------ counting

  lemma {:induction false} InPoolsSet(pools: seq<Pool>, k: nat, p: nat, pool: Pool, s: nat)
    requires k <= |pools| && p < |pools|
    ensures InPools(pools[p := pool], k, s) == InPools(pools, k, s)
              + (if p < k then Occurrences(pool.exclusiveBuffers, s) - Occurrences(pools[p].exclusiveBuffers, s) else 0)
  {
    hide Occurrences;
    if k > 0 {
      InPoolsSet(pools, k - 1, p, pool, s);
    }
  }

  lemma {:induction false} InPoolsSame(pools: seq<Pool>, more: seq<Pool>, k: nat, s: nat)
    requires k <= |pools|
    ensures InPools(pools + more, k, s) == InPools(pools, k, s)
  {
    if k > 0 {
      InPoolsSame(pools, more, k - 1, s);
    }
  }

  /** A list of different numbers below `n`. */
  lemma {:induction false} DistinctBound(list: seq<nat>, n: nat)
    requires forall s: nat :: Occurrences(list, s) <= if s < n then 1 else 0
    ensures |list| <= n
    ensures |list| == n ==> forall s: nat | s < n :: s in list
    decreases n
  {
    if n == 0 {
      if list != [] {
        OccurrencesIn(list, list[0]);
      }
    } else {
      var rest := Without(list, n - 1);
      DistinctBound(rest, n - 1);
      OccurrencesIn(list, n - 1);
      if |list| == n {
        forall s: nat | s < n ensures s in list {
          if s < n - 1 {
            OccurrencesIn(rest, s);
            OccurrencesIn(list, s);
          }
        }
      }
    }
  }

  /** The list without one of its numbers, if it has it. */
  lemma Without(list: seq<nat>, x: nat) returns (rest: seq<nat>)
    requires Occurrences(list, x) <= 1
    ensures forall s: nat :: Occurrences(rest, s) == if s == x then 0 else Occurrences(list, s)
    ensures |list| == |rest| + (if x in list then 1 else 0)
  {
    OccurrencesIn(list, x);
    if x in list {
      var i :| 0 <= i < |list| && list[i] == x;
      rest := list[..i] + list[i + 1..];
      assert list == list[..i] + [x] + list[i + 1..];
      forall s: nat ensures Occurrences(rest, s) == if s == x then 0 else Occurrences(list, s) {
        OccurrencesConcat(list[..i] + [x], list[i + 1..], s);
        OccurrencesExtend(list[..i], x, s);
        OccurrencesConcat(list[..i], list[i + 1..], s);
      }
    } else {
      rest := list;
    }
  }

  // ------------------------------------------------------------- what the steps move

  /** The global queue has room for a segment that is elsewhere. */
  lemma GlobalRoom(n: nat, available: seq<nat>, pools: seq<Pool>, inUse: map<nat, Owner>, s: nat)
    requires Conserved(n, available, pools, inUse) && s < n && s !in available
    ensures |available| < n
  {
    hide Occurrences, InPools;
    forall x: nat ensures Occurrences(available, x) <= if x < n then 1 else 0 {
      assert Places(available, pools, inUse, x) == if x < n then 1 else 0;
    }
    DistinctBound(available, n);
  }

  lemma TakenFromGlobal(n: nat, available: seq<nat>, pools: seq<Pool>, inUse: map<nat, Owner>)
    requires Conserved(n, available, pools, inUse) && PoolsOk(pools, inUse) && available != []
    ensures var s := available[0];
            && s < n && s !in inUse
            && Conserved(n, available[1..], pools, inUse[s := Global]) && PoolsOk(pools, inUse[s := Global])
  {
    hide Occurrences, InPools;
    var s, inUse' := available[0], inUse[available[0] := Global];
    OccurrencesFirst(available, s);
    assert Places(available, pools, inUse, s) == if s < n then 1 else 0;
    forall x: nat ensures Places(available[1..], pools, inUse', x) == if x < n then 1 else 0 {
      OccurrencesFirst(available, x);
      assert Places(available, pools, inUse, x) == if x < n then 1 else 0;
    }
    forall p: nat ensures UsedFrom(inUse', p) == UsedFrom(inUse, p) {
    }
  }

  lemma ReturnedToGlobal(n: nat, available: seq<nat>, pools: seq<Pool>, inUse: map<nat, Owner>, s: nat)
    requires Conserved(n, available, pools, inUse) && PoolsOk(pools, inUse) && s in inUse
    requires inUse[s] == Global || pools[inUse[s].p].isDestroyed
    ensures s < n && |available| < n
    ensures Conserved(n, available + [s], pools, inUse - {s}) && PoolsOk(pools, inUse - {s})
  {
    hide Occurrences, InPools;
    assert Places(available, pools, inUse, s) == if s < n then 1 else 0;
    OccurrencesIn(available, s);
    GlobalRoom(n, available, pools, inUse, s);
    forall x: nat ensures Places(available + [s], pools, inUse - {s}, x) == if x < n then 1 else 0 {
      OccurrencesExtend(available, s, x);
      assert Places(available, pools, inUse, x) == if x < n then 1 else 0;
    }
    Unused(pools, inUse, s);
  }

  /** One segment less in use: the pools it did not come from are as before. */
  lemma Unused(pools: seq<Pool>, inUse: map<nat, Owner>, s: nat)
    requires PoolsOk(pools, inUse) && s in inUse && (inUse[s] == Global || pools[inUse[s].p].isDestroyed)
    ensures PoolsOk(pools, inUse - {s})
  {
    var rest := inUse - {s};
    forall p: nat | p < |pools| ensures PoolOk(pools[p], |UsedFrom(rest, p)|) {
      UsedLess(inUse, s, p);
      assert PoolOk(pools[p], |UsedFrom(inUse, p)|);
    }
  }

  lemma UsedLess(inUse: map<nat, Owner>, s: nat, p: nat)
    requires s in inUse
    ensures |UsedFrom(inUse - {s}, p)| == |UsedFrom(inUse, p)| - (if inUse[s] == FromPool(p) then 1 else 0)
  {
    var after, before := UsedFrom(inUse - {s}, p), UsedFrom(inUse, p);
    if inUse[s] == FromPool(p) {
      assert before == after + {s};
    } else {
      assert before == after;
    }
  }

  lemma ReturnedToPool(n: nat, available: seq<nat>, pools: seq<Pool>, inUse: map<nat, Owner>, s: nat, p: nat)
    requires Conserved(n, available, pools, inUse) && PoolsOk(pools, inUse) && s in inUse && inUse[s] == FromPool(p)
    requires p < |pools| && !pools[p].isDestroyed
    ensures var pool := pools[p].(exclusiveBuffers := pools[p].exclusiveBuffers + [s]);
            && |pools[p].exclusiveBuffers| < pools[p].numberOfReservedBuffers
            && Conserved(n, available, pools[p := pool], inUse - {s}) && PoolsOk(pools[p := pool], inUse - {s})
  {
    hide Occurrences, InPools;
    var pool := pools[p].(exclusiveBuffers := pools[p].exclusiveBuffers + [s]);
    var pools', rest := pools[p := pool], inUse - {s};
    assert s in UsedFrom(inUse, p) && PoolOk(pools[p], |UsedFrom(inUse, p)|);
    forall x: nat ensures Places(available, pools', rest, x) == if x < n then 1 else 0 {
      InPoolsSet(pools, |pools|, p, pool, x);
      OccurrencesExtend(pools[p].exclusiveBuffers, s, x);
      assert Places(available, pools, inUse, x) == if x < n then 1 else 0;
    }
    forall q: nat | q < |pools| ensures PoolOk(pools'[q], |UsedFrom(rest, q)|) {
      UsedLess(inUse, s, q);
      assert PoolOk(pools[q], |UsedFrom(inUse, q)|);
    }
  }

  lemma TakenFromPool(n: nat, available: seq<nat>, pools: seq<Pool>, inUse: map<nat, Owner>, p: nat)
    requires Conserved(n, available, pools, inUse) && PoolsOk(pools, inUse) && p < |pools| && pools[p].exclusiveBuffers != []
    ensures var s := pools[p].exclusiveBuffers[0];
            var pool := pools[p].(exclusiveBuffers := pools[p].exclusiveBuffers[1..]);
            && s < n && s !in inUse
            && Conserved(n, available, pools[p := pool], inUse[s := FromPool(p)])
            && PoolsOk(pools[p := pool], inUse[s := FromPool(p)])
  {
    hide Occurrences, InPools;
    var queue := pools[p].exclusiveBuffers;
    var s, pool := queue[0], pools[p].(exclusiveBuffers := queue[1..]);
    var pools', inUse' := pools[p := pool], inUse[s := FromPool(p)];
    forall x: nat ensures InPools(pools, |pools|, x) == InPools(pools', |pools|, x) + if x == s then 1 else 0 {
      InPoolsSet(pools, |pools|, p, pool, x);
      OccurrencesFirst(queue, x);
    }
    assert Places(available, pools, inUse, s) == if s < n then 1 else 0;
    forall x: nat ensures Places(available, pools', inUse', x) == if x < n then 1 else 0 {
      assert Places(available, pools, inUse, x) == if x < n then 1 else 0;
    }
    assert inUse' - {s} == inUse;
    forall q: nat | q < |pools| ensures PoolOk(pools'[q], |UsedFrom(inUse', q)|) {
      UsedLess(inUse', s, q);
      assert PoolOk(pools[q], |UsedFrom(inUse, q)|);
    }
  }

  /** A destroyed pool passes one of its segments to the global queue. */
  lemma Drained(n: nat, available: seq<nat>, pools: seq<Pool>, inUse: map<nat, Owner>, p: nat)
    requires Conserved(n, available, pools, inUse) && p < |pools| && pools[p].exclusiveBuffers != []
    ensures var s := pools[p].exclusiveBuffers[0];
            var pool := pools[p].(exclusiveBuffers := pools[p].exclusiveBuffers[1..]);
            s < n && |available| < n && Conserved(n, available + [s], pools[p := pool], inUse)
  {
    hide Occurrences, InPools;
    var queue := pools[p].exclusiveBuffers;
    var s, pool := queue[0], pools[p].(exclusiveBuffers := queue[1..]);
    forall x: nat ensures InPools(pools, |pools|, x) == InPools(pools[p := pool], |pools|, x) + if x == s then 1 else 0 {
      InPoolsSet(pools, |pools|, p, pool, x);
      OccurrencesFirst(queue, x);
    }
    assert Places(available, pools, inUse, s) == if s < n then 1 else 0;
    OccurrencesIn(available, s);
    GlobalRoom(n, available, pools, inUse, s);
    var pools', more := pools[p := pool], available + [s];
    forall x: nat ensures Places(more, pools', inUse, x) == if x < n then 1 else 0 {
      OccurrencesExtend(available, s, x);
      assert Places(available, pools, inUse, x) == if x < n then 1 else 0;
    }
  }

  /** A new pool gets the first `k` available segments. */
  lemma Reserved(n: nat, available: seq<nat>, pools: seq<Pool>, inUse: map<nat, Owner>, k: nat)
    requires Conserved(n, available, pools, inUse) && PoolsOk(pools, inUse) && k <= |available|
    ensures var pools' := pools + [Pool(available[..k], k, false)];
            Conserved(n, available[k..], pools', inUse) && PoolsOk(pools', inUse)
  {
    hide Occurrences;
    var pools' := pools + [Pool(available[..k], k, false)];
    assert available == available[..k] + available[k..];
    forall x: nat ensures Places(available[k..], pools', inUse, x) == if x < n then 1 else 0 {
      InPoolsSame(pools, [Pool(available[..k], k, false)], |pools|, x);
      OccurrencesConcat(available[..k], available[k..], x);
      assert Places(available, pools, inUse, x) == if x < n then 1 else 0;
    }
    assert UsedFrom(inUse, |pools|) == {};
  }

  /** Everything is back: no pool holds a segment, none is in use. */
  lemma {:induction false} NothingInPools(pools: seq<Pool>, k: nat, s: nat)
    requires k <= |pools| && forall p | 0 <= p < |pools| :: pools[p].exclusiveBuffers == []
    ensures InPools(pools, k, s) == 0
  {
    if k > 0 {
      NothingInPools(pools, k - 1, s);
    }
  }

  lemma EverythingIsBack(n: nat, available: seq<nat>, pools: seq<Pool>, inUse: map<nat, Owner>)
    requires Conserved(n, available, pools, inUse) && PoolsOk(pools, inUse)
    requires inUse == map[] && forall p | 0 <= p < |pools| :: pools[p].isDestroyed
    ensures |available| == n && forall s: nat | s < n :: s in available
  {
    hide Occurrences, InPools;
    forall p: nat | p < |pools| ensures pools[p].exclusiveBuffers == [] {
      assert PoolOk(pools[p], |UsedFrom(inUse, p)|);
    }
    forall s: nat ensures Occurrences(available, s) == if s < n then 1 else 0 {
      NothingInPools(pools, |pools|, s);
      assert Places(available, pools, inUse, s) == if s < n then 1 else 0;
    }
    forall s: nat | s < n ensures s in available {
      OccurrencesIn(available, s);
    }
    DistinctBound(available, n);
    CoverBound(available, n);
  }

  /** A list that has every number below `n` is at least that long. */
  lemma {:induction false} CoverBound(list: seq<nat>, n: nat)
    requires forall s: nat :: Occurrences(list, s) == if s < n then 1 else 0
    ensures |list| >= n
    decreases n
  {
    if n > 0 {
      var rest := Without(list, n - 1);
      CoverBound(rest, n - 1);
      OccurrencesIn(list, n - 1);
    }
  }

  // --------------------------------------------------------------------- the manager

  class BufferManager {
    const numOfBuffers: nat
    var availableBuffers: seq<nat>          // a queue with room for `numOfBuffers`
    var numOfAvailableBuffers: int
    var pools: seq<Pool>
    var inUse: map<nat, Owner>              // segments handed out, with their recycler

    ghost predicate Valid()
      reads this
    {
      && Conserved(numOfBuffers, availableBuffers, pools, inUse)
      && PoolsOk(pools, inUse)
      && numOfAvailableBuffers == |availableBuffers|
    }

    constructor (numOfBuffers: nat)
      ensures Valid() && this.numOfBuffers == numOfBuffers && |availableBuffers| == numOfBuffers && pools == [] && inUse == map[]
    {
      this.numOfBuffers := numOfBuffers;
      numOfAvailableBuffers := numOfBuffers;
      pools, inUse := [], map[];
      availableBuffers := [];
      new;
      for i := 0 to numOfBuffers
        invariant |availableBuffers| == i && pools == [] && inUse == map[] && numOfAvailableBuffers == numOfBuffers
        invariant forall s: nat :: Occurrences(availableBuffers, s) == if s < i then 1 else 0
      {
        forall s: nat ensures Occurrences(availableBuffers + [i], s) == if s < i + 1 then 1 else 0 {
          OccurrencesExtend(availableBuffers, i, s);
        }
        availableBuffers := availableBuffers + [i];
      }
    }

    /** Hands out an available segment, if there is one. */
    method GetBuffer() returns (r: Option<nat>)
      requires Valid()
      modifies this`availableBuffers, this`numOfAvailableBuffers, this`inUse
      ensures Valid()
      ensures r.None? <==> old(availableBuffers) == []
      ensures r.None? ==> availableBuffers == old(availableBuffers) && inUse == old(inUse)
      ensures r.Some? ==>
        && old(availableBuffers) == [r.value] + availableBuffers
        && r.value !in old(inUse) && inUse == old(inUse)[r.value := Global]
    {
      hide Conserved, PoolsOk;
      if availableBuffers == [] {
        return None;
      }
      TakenFromGlobal(numOfBuffers, availableBuffers, pools, inUse);
      var segment := availableBuffers[0];
      availableBuffers := availableBuffers[1..];
      numOfAvailableBuffers := numOfAvailableBuffers - 1;
      inUse := inUse[segment := Global];
      return Some(segment);
    }

    /** Writes a segment to the global queue, which drops it if it is full: it never is. */
    method RecyclePooledBuffer(segment: nat)
      requires |availableBuffers| < numOfBuffers
      modifies this`availableBuffers, this`numOfAvailableBuffers
      ensures availableBuffers == old(availableBuffers) + [segment]
      ensures numOfAvailableBuffers == old(numOfAvailableBuffers) + 1
    {
      if |availableBuffers| < numOfBuffers {
        availableBuffers := availableBuffers + [segment];
      }
      numOfAvailableBuffers := numOfAvailableBuffers + 1;
    }

    /** The last release of a segment: it goes back to its recycler, or past a destroyed pool to the global queue. */
    method Recycle(segment: nat)
      requires Valid() && segment in inUse
      modifies this
      ensures Valid() && inUse == old(inUse) - {segment}
      ensures var owner := old(inUse)[segment];
              if owner == Global || (owner.p < |old(pools)| && old(pools)[owner.p].isDestroyed)
              then availableBuffers == old(availableBuffers) + [segment] && pools == old(pools)
              else && owner.p < |old(pools)| && availableBuffers == old(availableBuffers)
                   && var pool := old(pools)[owner.p];
                      && |pool.exclusiveBuffers| < pool.numberOfReservedBuffers
                      && pools == old(pools)[owner.p := pool.(exclusiveBuffers := pool.exclusiveBuffers + [segment])]
    {
      hide Conserved;
      var owner := inUse[segment];
      if owner == Global || pools[owner.p].isDestroyed {
        ReturnedToGlobal(numOfBuffers, availableBuffers, pools, inUse, segment);
        inUse := inUse - {segment};
        RecyclePooledBuffer(segment);
      } else {
        ReturnedToPool(numOfBuffers, availableBuffers, pools, inUse, segment, owner.p);
        inUse := inUse - {segment};
        var pool := pools[owner.p];
        if |pool.exclusiveBuffers| < pool.numberOfReservedBuffers {
          pools := pools[owner.p := pool.(exclusiveBuffers := pool.exclusiveBuffers + [segment])];
        }
      }
    }

    /** Reserves segments for a new pool, all of them or none. */
    method CreateFixedSizeBufferPool(numberOfReservedBuffers: nat) returns (r: Option<nat>)
      requires Valid()
      modifies this`availableBuffers, this`numOfAvailableBuffers, this`pools
      ensures Valid()
      ensures r.None? <==> |old(availableBuffers)| < numberOfReservedBuffers
      ensures r.None? ==> availableBuffers == old(availableBuffers) && pools == old(pools)
      ensures r.Some? ==>
        && r.value == |old(pools)|
        && availableBuffers == old(availableBuffers)[numberOfReservedBuffers..]
        && pools == old(pools) + [Pool(old(availableBuffers)[..numberOfReservedBuffers], numberOfReservedBuffers, false)]
    {
      hide Conserved, PoolsOk;
      if |availableBuffers| < numberOfReservedBuffers {
        return None;
      }
      Reserved(numOfBuffers, availableBuffers, pools, inUse, numberOfReservedBuffers);
      ghost var before := availableBuffers;
      var buffers: seq<nat> := [];
      for i := 0 to numberOfReservedBuffers
        invariant availableBuffers == before[i..] && buffers == before[..i]
        invariant numOfAvailableBuffers == |availableBuffers|
        invariant pools == old(pools)
      {
        buffers := buffers + [availableBuffers[0]];
        availableBuffers := availableBuffers[1..];
        numOfAvailableBuffers := numOfAvailableBuffers - 1;
      }
      var exclusive := FillPool(buffers, numberOfReservedBuffers);
      r := Some(|pools|);
      pools := pools + [Pool(exclusive, numberOfReservedBuffers, false)];
    }

    /** The pool's constructor writes the segments to its own bounded queue. */
    method FillPool(buffers: seq<nat>, capacity: nat) returns (exclusive: seq<nat>)
      requires |buffers| <= capacity
      ensures exclusive == buffers
    {
      exclusive := [];
      var rest := buffers;
      while rest != []
        invariant exclusive + rest == buffers
        decreases |rest|
      {
        if |exclusive| < capacity {
          exclusive := exclusive + [rest[0]];
        }
        rest := rest[1..];
      }
    }

    /** Hands out one of the pool's own segments, if there is one. */
    method GetBufferFromPool(p: nat) returns (r: Option<nat>)
      requires Valid() && p < |pools|
      modifies this`pools, this`inUse
      ensures Valid()
      ensures r.None? <==> old(pools)[p].exclusiveBuffers == []
      ensures r.None? ==> pools == old(pools) && inUse == old(inUse)
      ensures r.Some? ==>
        && old(pools)[p].exclusiveBuffers != [] && r.value == old(pools)[p].exclusiveBuffers[0] && r.value !in old(inUse)
        && pools == old(pools)[p := old(pools)[p].(exclusiveBuffers := old(pools)[p].exclusiveBuffers[1..])]
        && inUse == old(inUse)[r.value := FromPool(p)]
    {
      hide Conserved, PoolsOk;
      var queue := pools[p].exclusiveBuffers;
      if queue == [] {
        return None;
      }
      TakenFromPool(numOfBuffers, availableBuffers, pools, inUse, p);
      pools := pools[p := pools[p].(exclusiveBuffers := queue[1..])];
      inUse := inUse[queue[0] := FromPool(p)];
      return Some(queue[0]);
    }

    /** The segments that are in the pool's queue go to the global queue at once; those in use follow later. */
    method DestroyPool(p: nat)
      requires Valid() && p < |pools|
      modifies this`availableBuffers, this`numOfAvailableBuffers, this`pools
      ensures Valid()
      ensures pools == old(pools)[p := Pool([], old(pools)[p].numberOfReservedBuffers, true)]
      ensures availableBuffers == old(availableBuffers) + old(pools)[p].exclusiveBuffers
    {
      if pools[p].isDestroyed {
        assert PoolOk(pools[p], |UsedFrom(inUse, p)|);
        return;
      }
      pools := pools[p := pools[p].(isDestroyed := true)];
      SameQueues(old(pools), p);
      DrainPool(p, old(pools));
      PoolEmptied(old(pools), pools, inUse, p);
    }

    method DrainPool(p: nat, ghost before: seq<Pool>)
      requires Conserved(numOfBuffers, availableBuffers, pools, inUse) && p < |pools| == |before|
      requires pools == before[p := before[p].(isDestroyed := true)] && numOfAvailableBuffers == |availableBuffers|
      modifies this`availableBuffers, this`numOfAvailableBuffers, this`pools
      ensures Conserved(numOfBuffers, availableBuffers, pools, inUse) && numOfAvailableBuffers == |availableBuffers|
      ensures pools == before[p := Pool([], before[p].numberOfReservedBuffers, true)]
      ensures availableBuffers == old(availableBuffers) + before[p].exclusiveBuffers
    {
      hide Conserved;
      while pools[p].exclusiveBuffers != []
        invariant Conserved(numOfBuffers, availableBuffers, pools, inUse) && numOfAvailableBuffers == |availableBuffers|
        invariant |pools| == |before| && pools == before[p := Pool(pools[p].exclusiveBuffers, before[p].numberOfReservedBuffers, true)]
        invariant availableBuffers + pools[p].exclusiveBuffers == old(availableBuffers) + before[p].exclusiveBuffers
        decreases |pools[p].exclusiveBuffers|
      {
        Drained(numOfBuffers, availableBuffers, pools, inUse, p);
        var queue := pools[p].exclusiveBuffers;
        pools := pools[p := pools[p].(exclusiveBuffers := queue[1..])];
        RecyclePooledBuffer(queue[0]);
      }
    }

    /** Shutting down destroys every pool; it succeeds exactly if no segment is in use. */
    method Destroy() returns (success: bool)
      requires Valid()
      modifies this`availableBuffers, this`numOfAvailableBuffers, this`pools
      ensures Valid() && |pools| == |old(pools)| && forall p | 0 <= p < |pools| :: pools[p].isDestroyed
      ensures success <==> inUse == map[]
      ensures success ==> |availableBuffers| == numOfBuffers && forall s: nat | s < numOfBuffers :: s in availableBuffers
    {
      hide Conserved, PoolsOk;
      for p := 0 to |pools|
        invariant Valid() && |pools| == |old(pools)|
        invariant forall q | 0 <= q < p :: pools[q].isDestroyed
      {
        DestroyPool(p);
      }
      success := numOfAvailableBuffers == numOfBuffers && inUse == map[];
      if inUse == map[] {
        EverythingIsBack(numOfBuffers, availableBuffers, pools, inUse);
      }
    }
  }

  lemma SameQueues(pools: seq<Pool>, p: nat)
    requires p < |pools|
    ensures forall n, available, inUse :: Conserved(n, available, pools, inUse) ==>
              Conserved(n, available, pools[p := pools[p].(isDestroyed := true)], inUse)
  {
    hide Occurrences;
    var pools' := pools[p := pools[p].(isDestroyed := true)];
    forall s: nat ensures InPools(pools', |pools|, s) == InPools(pools, |pools|, s) {
      InPoolsSet(pools, |pools|, p, pools'[p], s);
    }
    forall n: nat, available, inUse | Conserved(n, available, pools, inUse) ensures Conserved(n, available, pools', inUse) {
      forall s: nat ensures Places(available, pools', inUse, s) == if s < n then 1 else 0 {
        assert Places(available, pools, inUse, s) == if s < n then 1 else 0;
      }
    }
  }

  lemma PoolEmptied(before: seq<Pool>, pools: seq<Pool>, inUse: map<nat, Owner>, p: nat)
    requires PoolsOk(before, inUse) && p < |before| && pools == before[p := Pool([], before[p].numberOfReservedBuffers, true)]
    ensures PoolsOk(pools, inUse)
  {
    hide UsedFrom;
    forall q: nat | q < |pools| ensures PoolOk(pools[q], |UsedFrom(inUse, q)|) {
      assert PoolOk(before[q], |UsedFrom(inUse, q)|);
    }
  }
}
