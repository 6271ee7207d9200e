/** How often a number occurs in a list. */
module Counting {

  function Occurrences(list: seq<nat>, s: nat): (n: nat) {
    multiset(list)[s]
  }

  lemma NoOccurrence(s: nat)
    ensures Occurrences([], s) == 0
  {
  }

  lemma OccurrencesConcat(a: seq<nat>, b: seq<nat>, s: nat)
    ensures Occurrences(a + b, s) == Occurrences(a, s) + Occurrences(b, s)
  {
  }

  lemma OccurrencesExtend(list: seq<nat>, x: nat, s: nat)
    ensures Occurrences(list + [x], s) == Occurrences(list, s) + (if x == s then 1 else 0)
  {
  }

  lemma OccurrencesFirst(list: seq<nat>, s: nat)
    requires list != []
    ensures Occurrences(list, s) == Occurrences(list[1..], s) + (if list[0] == s then 1 else 0)
  {
    assert list == [list[0]] + list[1..];
    OccurrencesConcat([list[0]], list[1..], s);
  }

  lemma OccurrencesIn(list: seq<nat>, s: nat)
    ensures s in list <==> Occurrences(list, s) > 0
  {
    assert s in list <==> s in multiset(list);
  }

  /** The numbers below `n`. */
  function UpTo(n: nat): (r: set<nat>)
    ensures forall s: nat :: s in r <==> s < n
  {
    if n == 0 then {} else UpTo(n - 1) + {n - 1}
  }
}
