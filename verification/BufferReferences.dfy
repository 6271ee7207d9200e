/** Reference counts of memory segments: handles and the child lists of other
    segments keep a segment in use; it is recycled exactly when both are gone. */
module BufferReferences {
  import opened Options
  import opened Counting
  import opened Graphs

  // ------------------------------------------------------------- counting references

  /** The handles that refer to segment `s`. */
  function HeldBy(handles: map<nat, Option<nat>>, s: nat): (r: set<nat>) {
    set h | h in handles && handles[h] == Some(s)
  }

  /** The entries of `s` in the child lists of the first `k` segments, without
      those of segments that are just being taken apart. */
  function Entries(children: seq<seq<nat>>, dying: set<nat>, k: nat, s: nat): (n: nat)
    requires k <= |children|
  {
    if k == 0 then 0
    else Entries(children, dying, k - 1, s) + (if k - 1 in dying then 0 else Occurrences(children[k - 1], s))
  }

  function Parents(children: seq<seq<nat>>, dying: set<nat>, s: nat): (n: nat) {
    Entries(children, dying, |children|, s)
  }

  /** Every counter is the number of handles and child entries, plus the
      releases that are still owed. */
  ghost predicate Balanced(counters: seq<int>, children: seq<seq<nat>>, handles: map<nat, Option<nat>>,
                           dying: set<nat>, owed: multiset<nat>)
  {
    && |counters| == |children|
    && forall s | 0 <= s < |counters| :: counters[s] == |HeldBy(handles, s)| + Parents(children, dying, s) + owed[s]
  }

  /** References lead to segments; a segment is available exactly when its
      counter is zero, and then it has no children. */
  ghost predicate Shaped(counters: seq<int>, children: seq<seq<nat>>, handles: map<nat, Option<nat>>,
                         dying: set<nat>, available: set<nat>)
  {
    && |counters| == |children|
    && (forall h | h in handles && handles[h].Some? :: handles[h].value < |counters|)
    && (forall s, c | 0 <= s < |children| && c in children[s] :: c < |counters|)
    && (forall s | s in dying :: s < |counters| && counters[s] == 0)
    && (forall s: nat :: s in available <==> s < |counters| && counters[s] == 0 && s !in dying)
    && (forall s | s in available :: children[s] == [])
  }

  lemma {:induction false} EntriesSet(children: seq<seq<nat>>, dying: set<nat>, k: nat, p: nat, list: seq<nat>, s: nat)
    requires k <= |children| && p < |children|
    ensures Entries(children[p := list], dying, k, s) == Entries(children, dying, k, s)
              + (if p < k && p !in dying then Occurrences(list, s) - Occurrences(children[p], s) else 0)
  {
    hide Occurrences;
    if k > 0 {
      EntriesSet(children, dying, k - 1, p, list, s);
    }
  }

  lemma {:induction false} EntriesDying(children: seq<seq<nat>>, dying: set<nat>, k: nat, p: nat, s: nat)
    requires k <= |children| && p < |children| && p !in dying
    ensures Entries(children, dying + {p}, k, s) == Entries(children, dying, k, s) - (if p < k then Occurrences(children[p], s) else 0)
  {
    hide Occurrences;
    if k > 0 {
      EntriesDying(children, dying, k - 1, p, s);
    }
  }

  lemma HandleSet(handles: map<nat, Option<nat>>, h: nat, x: Option<nat>, s: nat)
    ensures |HeldBy(handles[h := x], s)| == |HeldBy(handles, s)| + (if x == Some(s) then 1 else 0)
                                             - (if h in handles && handles[h] == Some(s) then 1 else 0)
  {
    var before, after := HeldBy(handles, s), HeldBy(handles[h := x], s);
    assert after == if x == Some(s) then before + {h} else before - {h};
  }

  function Total(counters: seq<int>): (r: int) {
    if counters == [] then 0 else Total(counters[..|counters| - 1]) + counters[|counters| - 1]
  }

  lemma {:induction false} TotalSet(counters: seq<int>, s: nat, x: int)
    requires s < |counters|
    ensures Total(counters[s := x]) == Total(counters) - counters[s] + x
  {
    var k := |counters| - 1;
    if s < k {
      TotalSet(counters[..k], s, x);
      assert counters[s := x][..k] == counters[..k][s := x];
    } else {
      assert counters[s := x][..k] == counters[..k];
    }
  }

  lemma {:induction false} TotalNatural(counters: seq<int>)
    requires forall s | 0 <= s < |counters| :: counters[s] >= 0
    ensures Total(counters) >= 0
  {
    if counters != [] {
      TotalNatural(counters[..|counters| - 1]);
    }
  }

  // ------------------------------------------------------- what the steps of a release do

  lemma Counted(counters: seq<int>, children: seq<seq<nat>>, handles: map<nat, Option<nat>>, dying: set<nat>, owed: multiset<nat>, s: nat)
    requires Balanced(counters, children, handles, dying, owed) && s < |counters|
    ensures counters[s] >= owed[s] && counters[s] >= 0
    ensures counters[s] == |HeldBy(handles, s)| + Parents(children, dying, s) + owed[s]
  {
  }

  /** A release that was owed has been made. */
  lemma PayOne(counters: seq<int>, children: seq<seq<nat>>, handles: map<nat, Option<nat>>, dying: set<nat>, owed: multiset<nat>, s: nat)
    requires Balanced(counters, children, handles, dying, owed + multiset{s}) && s < |counters|
    ensures counters[s] > 0 && Balanced(counters[s := counters[s] - 1], children, handles, dying, owed)
  {
    hide HeldBy, Parents;
    Counted(counters, children, handles, dying, owed + multiset{s}, s);
  }

  /** Taking a segment apart turns its child entries into owed releases. */
  lemma BeginDying(counters: seq<int>, children: seq<seq<nat>>, handles: map<nat, Option<nat>>, dying: set<nat>, owed: multiset<nat>, p: nat)
    requires Balanced(counters, children, handles, dying, owed) && p < |counters| && p !in dying
    ensures Balanced(counters, children, handles, dying + {p}, owed + multiset(children[p]))
  {
    hide HeldBy;
    forall s: nat | s < |counters|
      ensures counters[s] == |HeldBy(handles, s)| + Parents(children, dying + {p}, s) + (owed + multiset(children[p]))[s]
    {
      EntriesDying(children, dying, |children|, p, s);
    }
  }

  /** A segment without references, taken apart, is cleared. */
  lemma EndDying(counters: seq<int>, children: seq<seq<nat>>, handles: map<nat, Option<nat>>, dying: set<nat>, owed: multiset<nat>, p: nat)
    requires Balanced(counters, children, handles, dying, owed) && p < |counters| && p in dying
    ensures Balanced(counters, children[p := []], handles, dying - {p}, owed)
  {
    hide HeldBy;
    var cleared, rest := children[p := []], dying - {p};
    forall s: nat | s < |counters| ensures Parents(cleared, rest, s) == Parents(children, dying, s) {
      EntriesSet(children, dying, |children|, p, [], s);
      EntriesDying(cleared, rest, |children|, p, s);
      assert rest + {p} == dying;
    }
  }

  /** The segment the owed release goes to is not being taken apart. */
  lemma OwedIsUsed(counters: seq<int>, children: seq<seq<nat>>, handles: map<nat, Option<nat>>, dying: set<nat>, owed: multiset<nat>,
                   available: set<nat>, s: nat)
    requires Balanced(counters, children, handles, dying, owed) && Shaped(counters, children, handles, dying, available)
    requires s in owed && s < |counters|
    ensures counters[s] > 0 && s !in dying && s !in available
  {
    Counted(counters, children, handles, dying, owed, s);
  }

  class SegmentTable {
    var referenceCounter: seq<int>
    var children: seq<seq<nat>>
    var available: set<nat>                 // recycled segments
    var handles: map<nat, Option<nat>>      // every tuple buffer object, by the segment it refers to
    ghost var dying: set<nat>               // segments in the middle of their last release

    ghost predicate Consistent(owed: multiset<nat>)
      reads this
    {
      && Balanced(referenceCounter, children, handles, dying, owed)
      && Shaped(referenceCounter, children, handles, dying, available)
    }

    ghost predicate Valid()
      reads this
    {
      dying == {} && Consistent(multiset{})
    }

    constructor (numberOfSegments: nat)
      ensures Valid() && handles == map[] && |referenceCounter| == numberOfSegments
      ensures forall s: nat | s < numberOfSegments :: s in available
    {
      referenceCounter := seq(numberOfSegments, i => 0);
      children := seq(numberOfSegments, i => []);
      available := UpTo(numberOfSegments);
      handles := map[];
      dying := {};
      new;
      forall s: nat | s < numberOfSegments ensures Parents(children, {}, s) == 0 {
        NoEntries(children, numberOfSegments, s);
      }
    }

    /** A free segment is handed out. */
    method Prepare(h: nat, s: nat)
      requires Valid() && h !in handles && s in available
      modifies this`referenceCounter, this`available, this`handles
      ensures Valid() && handles == old(handles)[h := Some(s)] && available == old(available) - {s}
      ensures referenceCounter == old(referenceCounter)[s := 1]
    {
      hide HeldBy;
      Retained(referenceCounter, children, handles, available, multiset{}, h, s);
      referenceCounter := referenceCounter[s := 1];
      available := available - {s};
      handles := handles[h := Some(s)];
    }

    /** The copy constructor. */
    method Copy(h: nat, from: nat)
      requires Valid() && h !in handles && from in handles
      modifies this`referenceCounter, this`handles
      ensures Valid() && handles == old(handles)[h := old(handles)[from]]
    {
      hide Balanced, Shaped;
      var x := handles[from];
      HandlesExist(referenceCounter, children, handles, available, from);
      if x.Some? {
        Retained(referenceCounter, children, handles, available, multiset{}, h, x.value);
        assert available - {x.value} == available;
        referenceCounter := referenceCounter[x.value := referenceCounter[x.value] + 1];
      } else {
        EmptyHandle(referenceCounter, children, handles, available, multiset{}, h);
      }
      handles := handles[h := x];
    }

    /** The destructor. */
    method Drop(h: nat)
      requires Valid() && h in handles
      modifies this
      ensures Valid() && handles == old(handles) - {h} && |referenceCounter| == |old(referenceCounter)|
      ensures old(handles)[h].Some? ==> old(handles)[h].value < |referenceCounter|
      ensures old(handles)[h].Some? && old(referenceCounter)[old(handles)[h].value] > 1 ==>
        children == old(children) && available == old(available)
      ensures forall d: nat | d < |children| && d !in available :: children[d] == old(children)[d]
      ensures old(available) <= available
    {
      hide Balanced, Shaped;
      HandlesExist(referenceCounter, children, handles, available, h);
      GiveUp(referenceCounter, children, handles, available, h);
      var x := handles[h];
      handles := handles - {h};
      if x.Some? {
        assert multiset{} + multiset{x.value} == multiset{x.value};
        var _ := Release(x.value, multiset{});
      }
    }

    /** Copy assignment: the new segment is retained before the old one is released. */
    method CopyAssign(h: nat, from: nat)
      requires Valid() && h in handles && from in handles
      modifies this
      ensures Valid() && handles == old(handles)[h := old(handles)[from]] && |referenceCounter| == |old(referenceCounter)|
      ensures forall d: nat | d < |children| && d !in available :: children[d] == old(children)[d]
      ensures old(available) <= available
    {
      hide Balanced, Shaped;
      var x, previous := handles[from], handles[h];
      HandlesExist(referenceCounter, children, handles, available, h);
      HandlesExist(referenceCounter, children, handles, available, from);
      if x == previous {
        assert handles[h := x] == handles;
        return;
      }
      Reassigned(referenceCounter, children, handles, available, h, x);
      handles := handles[h := x];
      if x.Some? {
        referenceCounter := referenceCounter[x.value := referenceCounter[x.value] + 1];
      }
      if previous.Some? {
        assert multiset{} + multiset{previous.value} == multiset{previous.value};
        var _ := Release(previous.value, multiset{});
      }
    }

    /** The move constructor steals the segment. */
    method MoveConstruct(h: nat, from: nat)
      requires Valid() && h !in handles && from in handles
      modifies this`handles
      ensures Valid() && handles == old(handles)[h := old(handles)[from]][from := None]
    {
      hide Balanced, Shaped;
      Moved(referenceCounter, children, handles, available, h, from);
      handles := handles[h := handles[from]][from := None];
    }

    /** Move assignment swaps the two handles. */
    method MoveAssign(h: nat, from: nat)
      requires Valid() && h in handles && from in handles
      modifies this`handles
      ensures Valid() && handles == old(handles)[h := old(handles)[from]][from := old(handles)[h]]
    {
      hide Balanced, Shaped;
      Swapped(referenceCounter, children, handles, available, h, from);
      handles := handles[h := handles[from]][from := handles[h]];
    }

    /** Attaches a buffer to a parent; the buffer's handle becomes empty. */
    method StoreChild(parent: nat, buffer: nat) returns (index: nat)
      requires Valid() && parent in handles && buffer in handles && handles[parent].Some? && handles[buffer].Some?
      requires handles[parent] != handles[buffer]
      modifies this
      ensures Valid() && handles == old(handles)[buffer := None] && |referenceCounter| == |old(referenceCounter)|
      ensures var p, c := old(handles)[parent].value, old(handles)[buffer].value;
              && p < |old(children)| && children == old(children)[p := old(children)[p] + [c]]
              && index == |old(children)[p]|
      ensures referenceCounter == old(referenceCounter) && available == old(available)
    {
      hide Balanced, Shaped;
      HandlesExist(referenceCounter, children, handles, available, parent);
      HandlesExist(referenceCounter, children, handles, available, buffer);
      var p, c := handles[parent].value, handles[buffer].value;
      Attached(referenceCounter, children, handles, available, p, buffer, c);
      ghost var before := referenceCounter;
      referenceCounter := referenceCounter[c := referenceCounter[c] + 1];
      index := |children[p]|;
      children := children[p := children[p] + [c]];
      handles := handles[buffer := None];
      var recycled := Release(c, multiset{});
      assert !recycled && referenceCounter == before;
    }

    /** Loads a child by its index, which is cut to 16 bits on the way. */
    method LoadChild(h: nat, parent: nat, index: nat)
      requires Valid() && h !in handles && parent in handles && handles[parent].Some?
      requires handles[parent].value < |children| && index % 65536 < |children[handles[parent].value]|
      modifies this`referenceCounter, this`handles
      ensures Valid() && handles == old(handles)[h := Some(children[old(handles)[parent].value][index % 65536])]
    {
      hide Balanced, Shaped;
      var child := children[handles[parent].value][index % 65536];
      ChildIsUsed(referenceCounter, children, handles, available, handles[parent].value, child);
      Retained(referenceCounter, children, handles, available, multiset{}, h, child);
      assert available - {child} == available;
      referenceCounter := referenceCounter[child := referenceCounter[child] + 1];
      handles := handles[h := Some(child)];
    }

    /** Takes one reference away; the last one takes the segment apart: its
        children are released in turn, then it is recycled. */
    method Release(s: nat, ghost owed: multiset<nat>) returns (recycled: bool)
      requires Consistent(owed + multiset{s}) && s < |referenceCounter|
      modifies this`referenceCounter, this`children, this`available, this`dying
      ensures Consistent(owed) && dying == old(dying)
      ensures |referenceCounter| == |children| == |old(referenceCounter)|
      ensures forall d: nat | d < |children| && d !in available :: children[d] == old(children)[d]
      ensures old(available) <= available
      ensures Total(referenceCounter) < Total(old(referenceCounter))
      ensures recycled <==> old(referenceCounter)[s] == 1
      ensures recycled ==> s in available
      ensures !recycled ==>
        && referenceCounter == old(referenceCounter)[s := old(referenceCounter)[s] - 1]
        && children == old(children) && available == old(available)
      decreases Total(referenceCounter), 0
    {
      hide Balanced, Shaped;
      StillThere(referenceCounter, children, handles, dying, available, owed, s);
      PayOne(referenceCounter, children, handles, dying, owed, s);
      TotalSet(referenceCounter, s, referenceCounter[s] - 1);
      OneLess(referenceCounter, children, handles, dying, available, s);
      var previous := referenceCounter[s];
      referenceCounter := referenceCounter[s := previous - 1];
      recycled := previous == 1;
      if recycled {
        ReleaseChildren(s, owed);
      }
    }

    /** The rest of a last release. */
    method ReleaseChildren(s: nat, ghost owed: multiset<nat>)
      requires s < |referenceCounter| && referenceCounter[s] == 0 && s !in dying && s !in available
      requires Balanced(referenceCounter, children, handles, dying, owed)
      requires Shaped(referenceCounter, children, handles, dying + {s}, available)
      modifies this`referenceCounter, this`children, this`available, this`dying
      ensures Consistent(owed) && dying == old(dying)
      ensures |referenceCounter| == |children| == |old(referenceCounter)|
      ensures forall d: nat | d < |children| && d !in available :: children[d] == old(children)[d]
      ensures old(available) + {s} <= available
      ensures Total(referenceCounter) <= Total(old(referenceCounter))
      decreases Total(referenceCounter), 1
    {
      hide Balanced, Shaped;
      NoNegativeCounter(referenceCounter, children, handles, dying, owed);
      BeginDying(referenceCounter, children, handles, dying, owed, s);
      SegmentsExist(referenceCounter, children, handles, dying + {s}, available);
      ghost var list := children[s];
      dying := dying + {s};
      var i := 0;
      assert list[0..] == list;
      while i < |children[s]|
        invariant i <= |list| && |referenceCounter| == |children| == |old(referenceCounter)|
        invariant dying == old(dying) + {s} && children[s] == list && forall c | c in list :: c < |referenceCounter|
        invariant Consistent(owed + multiset(list[i..]))
        invariant forall d: nat | d < |children| && d !in available :: children[d] == old(children)[d]
        invariant old(available) <= available
        invariant Total(referenceCounter) <= Total(old(referenceCounter))
        decreases |list| - i
      {
        NoNegativeCounter(referenceCounter, children, handles, dying, owed + multiset(list[i..]));
        var child := children[s][i];
        NextOwed(owed, list, i);
        assert child in list;
        var _ := Release(child, owed + multiset(list[i + 1..]));
        NotAvailable(referenceCounter, children, handles, dying, available, s);
        i := i + 1;
      }
      NothingOwed(owed, list);
      EndDying(referenceCounter, children, handles, dying, owed, s);
      Cleared(referenceCounter, children, handles, dying, available, s);
      children := children[s := []];
      dying := dying - {s};
      available := available + {s};
    }
  }

  /** One more handle and one more on the counter. */
  lemma Retained(counters: seq<int>, children: seq<seq<nat>>, handles: map<nat, Option<nat>>, available: set<nat>, owed: multiset<nat>,
                 h: nat, s: nat)
    requires Balanced(counters, children, handles, {}, owed) && Shaped(counters, children, handles, {}, available)
    requires s < |counters| && (h in handles ==> handles[h] == None)
    ensures var more := counters[s := counters[s] + 1];
            && Balanced(more, children, handles[h := Some(s)], {}, owed)
            && Shaped(more, children, handles[h := Some(s)], {}, available - {s})
  {
    hide HeldBy, Parents;
    Counted(counters, children, handles, {}, owed, s);
    forall x: nat | x < |counters| ensures |HeldBy(handles[h := Some(s)], x)| == |HeldBy(handles, x)| + if x == s then 1 else 0 {
      HandleSet(handles, h, Some(s), x);
    }
  }

  lemma EmptyHandle(counters: seq<int>, children: seq<seq<nat>>, handles: map<nat, Option<nat>>, available: set<nat>, owed: multiset<nat>,
                    h: nat)
    requires Balanced(counters, children, handles, {}, owed) && Shaped(counters, children, handles, {}, available)
    requires h in handles ==> handles[h] == None
    ensures Balanced(counters, children, handles[h := None], {}, owed)
    ensures Shaped(counters, children, handles[h := None], {}, available)
  {
    hide Parents;
    forall x: nat ensures HeldBy(handles[h := None], x) == HeldBy(handles, x) {
    }
  }

  lemma HandlesExist(counters: seq<int>, children: seq<seq<nat>>, handles: map<nat, Option<nat>>, available: set<nat>, h: nat)
    requires Balanced(counters, children, handles, {}, multiset{}) && Shaped(counters, children, handles, {}, available)
    requires h in handles
    ensures |counters| == |children|
    ensures handles[h].Some? ==> handles[h].value < |counters| && counters[handles[h].value] > 0 && handles[h].value !in available
  {
    if handles[h].Some? {
      assert h in HeldBy(handles, handles[h].value);
      Counted(counters, children, handles, {}, multiset{}, handles[h].value);
    }
  }

  /** A handle goes; the release of its segment is owed. */
  lemma GiveUp(counters: seq<int>, children: seq<seq<nat>>, handles: map<nat, Option<nat>>, available: set<nat>, h: nat)
    requires Balanced(counters, children, handles, {}, multiset{}) && Shaped(counters, children, handles, {}, available)
    requires h in handles
    ensures Shaped(counters, children, handles - {h}, {}, available)
    ensures Balanced(counters, children, handles - {h}, {}, if handles[h].Some? then multiset{handles[h].value} else multiset{})
  {
    hide Parents;
    var rest := handles - {h};
    assert rest[h := handles[h]] == handles;
    forall x: nat | x < |counters| ensures |HeldBy(handles, x)| == |HeldBy(rest, x)| + if handles[h] == Some(x) then 1 else 0 {
      HandleSet(rest, h, handles[h], x);
    }
  }

  /** A handle changes its segment; the release of the old one is owed. */
  lemma Reassigned(counters: seq<int>, children: seq<seq<nat>>, handles: map<nat, Option<nat>>, available: set<nat>, h: nat, x: Option<nat>)
    requires Balanced(counters, children, handles, {}, multiset{}) && Shaped(counters, children, handles, {}, available)
    requires h in handles && (x.Some? ==> x.value < |counters| && x.value !in available)
    ensures var owed := if handles[h].Some? then multiset{handles[h].value} else multiset{};
            var more := if x.Some? then counters[x.value := counters[x.value] + 1] else counters;
            Balanced(more, children, handles[h := x], {}, owed) && Shaped(more, children, handles[h := x], {}, available)
  {
    hide Balanced, Shaped;
    GiveUp(counters, children, handles, available, h);
    var rest, owed := handles - {h}, if handles[h].Some? then multiset{handles[h].value} else multiset{};
    assert rest[h := x] == handles[h := x];
    if x.Some? {
      Retained(counters, children, rest, available, owed, h, x.value);
      assert available - {x.value} == available;
    } else {
      EmptyHandle(counters, children, rest, available, owed, h);
    }
  }

  lemma Moved(counters: seq<int>, children: seq<seq<nat>>, handles: map<nat, Option<nat>>, available: set<nat>, h: nat, from: nat)
    requires Balanced(counters, children, handles, {}, multiset{}) && Shaped(counters, children, handles, {}, available)
    requires h !in handles && from in handles
    ensures var moved := handles[h := handles[from]][from := None];
            Balanced(counters, children, moved, {}, multiset{}) && Shaped(counters, children, moved, {}, available)
  {
    hide HeldBy, Parents;
    var copied := handles[h := handles[from]];
    forall x: nat ensures |HeldBy(copied[from := None], x)| == |HeldBy(handles, x)| {
      HandleSet(handles, h, handles[from], x);
      HandleSet(copied, from, None, x);
    }
  }

  lemma Swapped(counters: seq<int>, children: seq<seq<nat>>, handles: map<nat, Option<nat>>, available: set<nat>, h: nat, from: nat)
    requires Balanced(counters, children, handles, {}, multiset{}) && Shaped(counters, children, handles, {}, available)
    requires h in handles && from in handles
    ensures var swapped := handles[h := handles[from]][from := handles[h]];
            Balanced(counters, children, swapped, {}, multiset{}) && Shaped(counters, children, swapped, {}, available)
  {
    hide HeldBy, Parents;
    var copied := handles[h := handles[from]];
    forall x: nat ensures |HeldBy(copied[from := handles[h]], x)| == |HeldBy(handles, x)| {
      HandleSet(handles, h, handles[from], x);
      HandleSet(copied, from, handles[h], x);
    }
  }

  /** A handle's reference becomes a child entry, with one more on the counter and one release owed. */
  lemma Attached(counters: seq<int>, children: seq<seq<nat>>, handles: map<nat, Option<nat>>, available: set<nat>, p: nat, b: nat, c: nat)
    requires Balanced(counters, children, handles, {}, multiset{}) && Shaped(counters, children, handles, {}, available)
    requires b in handles && handles[b] == Some(c) && p < |children| && p !in available && c < |counters| && c !in available
    ensures var more := counters[c := counters[c] + 1];
            && Balanced(more, children[p := children[p] + [c]], handles[b := None], {}, multiset{} + multiset{c})
            && Shaped(more, children[p := children[p] + [c]], handles[b := None], {}, available)
  {
    hide HeldBy;
    var longer := children[p := children[p] + [c]];
    forall x: nat | x < |counters|
      ensures Parents(longer, {}, x) == Parents(children, {}, x) + (if x == c then 1 else 0)
      ensures |HeldBy(handles[b := None], x)| == |HeldBy(handles, x)| - (if x == c then 1 else 0)
    {
      EntriesSet(children, {}, |children|, p, children[p] + [c], x);
      HandleSet(handles, b, None, x);
    }
  }

  lemma {:induction false} EntryCounts(children: seq<seq<nat>>, dying: set<nat>, k: nat, p: nat, c: nat)
    requires k <= |children| && p < k && p !in dying && c in children[p]
    ensures Entries(children, dying, k, c) > 0
  {
    if p < k - 1 {
      EntryCounts(children, dying, k - 1, p, c);
    }
  }

  lemma ChildIsUsed(counters: seq<int>, children: seq<seq<nat>>, handles: map<nat, Option<nat>>, available: set<nat>, p: nat, c: nat)
    requires Balanced(counters, children, handles, {}, multiset{}) && Shaped(counters, children, handles, {}, available)
    requires p < |children| && c in children[p]
    ensures c < |counters| && counters[c] > 0 && c !in available
  {
    EntryCounts(children, {}, |children|, p, c);
    Counted(counters, children, handles, {}, multiset{}, c);
  }

  /** Loading a child by the index its store returned gives the same segment exactly
      below 65536 entries, or if the segment was stored under the cut index as well. */
  lemma StoredIndexRoundTrip(list: seq<nat>, child: nat, later: seq<nat>)
    ensures var stored := list + [child] + later;
            && |list| % 65536 < |stored|
            && (stored[|list| % 65536] == child <==> |list| < 65536 || list[|list| % 65536] == child)
  {
    assert (list + [child] + later)[|list|] == child;
  }

  /** The next index is cut to zero and gives the first child instead. */
  lemma IndexIsCut(list: seq<nat>, child: nat)
    requires |list| == 65536 && list[0] != child
    ensures (list + [child])[|list|] == child && (list + [child])[|list| % 65536] != child
  {
  }

  lemma {:induction false} SomeParent(children: seq<seq<nat>>, k: nat, c: nat) returns (p: nat)
    requires k <= |children| && Entries(children, {}, k, c) > 0
    ensures p < k && c in children[p]
  {
    if Occurrences(children[k - 1], c) > 0 {
      p := k - 1;
      assert c in multiset(children[p]);
    } else {
      p := SomeParent(children, k - 1, c);
    }
  }

  /** Without handles, a segment in use has a parent in use. */
  lemma UsedParent(counters: seq<int>, children: seq<seq<nat>>, handles: map<nat, Option<nat>>, available: set<nat>, s: nat)
    requires Balanced(counters, children, handles, {}, multiset{}) && Shaped(counters, children, handles, {}, available)
    requires (forall h | h in handles :: handles[h] == None) && s < |counters| && s !in available
    ensures HasParentIn(children, UpTo(|counters|) - available, s)
  {
    assert HeldBy(handles, s) == {};
    var p := SomeParent(children, |children|, s);
    assert p in UpTo(|counters|) - available && Edge(children, p, s);
  }

  /** When every handle is gone, the segments still in use are exactly those that
      are reached from a cycle of child entries. */
  lemma LeakedExactly(table: SegmentTable, s: nat)
    requires table.Valid() && s < |table.referenceCounter|
    requires forall h | h in table.handles :: table.handles[h] == None
    ensures s !in table.available <==> exists c: nat :: OnCycle(table.children, c) && Reaches(table.children, c, s)
  {
    hide Balanced, Shaped, OnCycle, Reaches, HasParentIn;
    var used := UpTo(|table.referenceCounter|) - table.available;
    if s !in table.available {
      forall y | y in used ensures HasParentIn(table.children, used, y) {
        UsedParent(table.referenceCounter, table.children, table.handles, table.available, y);
      }
      ReachesSelf(table.children, s);
      var c := CycleAbove(table.children, used, s, s, {});
    }
    if c: nat :| OnCycle(table.children, c) && Reaches(table.children, c, s) {
      var p := CycleParent(table.children, c, s);
      ChildIsUsed(table.referenceCounter, table.children, table.handles, table.available, p, s);
    }
  }

  /** A segment with a handle and a child entry has at least two references. */
  lemma TwoReferences(counters: seq<int>, children: seq<seq<nat>>, handles: map<nat, Option<nat>>, available: set<nat>,
                      h: nat, p: nat, s: nat)
    requires Balanced(counters, children, handles, {}, multiset{}) && Shaped(counters, children, handles, {}, available)
    requires h in handles && handles[h] == Some(s) && p < |children| && s in children[p]
    ensures s < |counters| && counters[s] > 1
  {
    EntryCounts(children, {}, |children|, p, s);
    assert h in HeldBy(handles, s);
    assert |HeldBy(handles, s)| > 0;
  }

  /** Two segments and two handles to each. */
  method TwoSegments() returns (t: SegmentTable)
    ensures fresh(t) && t.Valid() && |t.referenceCounter| == 2 && t.available == {} && t.children == [[], []]
    ensures t.handles == map[0 := Some(0), 1 := Some(1), 2 := Some(0), 3 := Some(1)]
  {
    hide Balanced;
    t := new SegmentTable(2);
    assert t.children == [[], []];
    t.Prepare(0, 0);
    t.Prepare(1, 1);
    t.Copy(2, 0);
    t.Copy(3, 1);
  }

  /** Two segments that hold each other stay in use when every handle is gone. */
  method CycleLeaks() returns (t: SegmentTable)
    ensures t.Valid() && |t.referenceCounter| == 2 && t.available == {}
    ensures forall h | h in t.handles :: t.handles[h] == None
  {
    hide Balanced, Shaped;
    t := TwoSegments();
    var _ := t.StoreChild(0, 3);
    var _ := t.StoreChild(1, 2);
    TwoReferences(t.referenceCounter, t.children, t.handles, t.available, 0, 1, 0);
    t.Drop(0);
    TwoReferences(t.referenceCounter, t.children, t.handles, t.available, 1, 0, 1);
    t.Drop(1);
  }

  /** When every handle is gone, an acyclic table has recycled every segment. */
  lemma NothingLeaks(table: SegmentTable, rank: nat -> nat)
    requires table.Valid() && Acyclic(table.children, rank)
    requires forall h | h in table.handles :: table.handles[h] == None
    ensures forall s: nat | s < |table.referenceCounter| :: s in table.available
  {
    hide Reaches;
    forall s: nat | s < |table.referenceCounter| ensures s in table.available {
      LeakedExactly(table, s);
      if c: nat :| OnCycle(table.children, c) && Reaches(table.children, c, s) {
        var d: nat :| Edge(table.children, c, d) && Reaches(table.children, d, c);
        NoWayBack(table.children, rank, c, d);
      }
    }
  }

  lemma {:induction false} NoEntries(children: seq<seq<nat>>, k: nat, s: nat)
    requires k <= |children| && forall i | 0 <= i < |children| :: children[i] == []
    ensures Entries(children, {}, k, s) == 0
  {
    if k > 0 {
      NoEntries(children, k - 1, s);
    }
  }

  lemma NextOwed(owed: multiset<nat>, list: seq<nat>, i: nat)
    requires i < |list|
    ensures owed + multiset(list[i..]) == owed + multiset(list[i + 1..]) + multiset{list[i]}
  {
    assert list[i..] == [list[i]] + list[i + 1..];
  }

  lemma NothingOwed(owed: multiset<nat>, list: seq<nat>)
    ensures owed + multiset(list[|list|..]) == owed
  {
    assert list[|list|..] == [];
  }

  lemma StillThere(counters: seq<int>, children: seq<seq<nat>>, handles: map<nat, Option<nat>>, dying: set<nat>, available: set<nat>,
                   owed: multiset<nat>, s: nat)
    requires Balanced(counters, children, handles, dying, owed + multiset{s}) && Shaped(counters, children, handles, dying, available)
    requires s < |counters|
    ensures counters[s] > 0 && s !in dying && s !in available
    ensures Total(counters) >= 0
    ensures |children| == |counters| && forall d | d in dying :: d < |children|
  {
    OwedIsUsed(counters, children, handles, dying, owed + multiset{s}, available, s);
    NoNegativeCounter(counters, children, handles, dying, owed + multiset{s});
  }

  lemma NoNegativeCounter(counters: seq<int>, children: seq<seq<nat>>, handles: map<nat, Option<nat>>, dying: set<nat>, owed: multiset<nat>)
    requires Balanced(counters, children, handles, dying, owed)
    ensures Total(counters) >= 0
  {
    forall x: nat | x < |counters| ensures counters[x] >= 0 {
      Counted(counters, children, handles, dying, owed, x);
    }
    TotalNatural(counters);
  }

  lemma OneLess(counters: seq<int>, children: seq<seq<nat>>, handles: map<nat, Option<nat>>, dying: set<nat>, available: set<nat>, s: nat)
    requires Shaped(counters, children, handles, dying, available) && s < |counters| && counters[s] > 0
    ensures Shaped(counters[s := counters[s] - 1], children, handles, if counters[s] == 1 then dying + {s} else dying, available)
  {
  }

  lemma NotAvailable(counters: seq<int>, children: seq<seq<nat>>, handles: map<nat, Option<nat>>, dying: set<nat>, available: set<nat>, s: nat)
    requires Shaped(counters, children, handles, dying, available) && s in dying
    ensures s !in available
  {
  }

  lemma SegmentsExist(counters: seq<int>, children: seq<seq<nat>>, handles: map<nat, Option<nat>>, dying: set<nat>, available: set<nat>)
    requires Shaped(counters, children, handles, dying, available)
    ensures |counters| == |children|
    ensures forall d | d in dying :: d < |children|
    ensures forall s, c | 0 <= s < |children| && c in children[s] :: c < |counters|
  {
  }

  lemma Cleared(counters: seq<int>, children: seq<seq<nat>>, handles: map<nat, Option<nat>>, dying: set<nat>, available: set<nat>, s: nat)
    requires Shaped(counters, children, handles, dying, available) && s in dying && s < |children|
    ensures Shaped(counters, children[s := []], handles, dying - {s}, available + {s})
  {
  }
}
