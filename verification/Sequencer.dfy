/** The sequencer: items that arrive in any order leave in (sequence, chunk)
    order.  Each method is one section under the sequencer's lock. */
module Sequencing {
  import opened Options

  datatype SequenceData = SequenceData(sequenceNumber: nat, chunkNumber: nat, lastChunk: bool)

  datatype Item<T> = Item(sequence: SequenceData, data: T)

  /** The order of the queue: sequence number, then chunk number, then the flag. */
  predicate Before(a: SequenceData, b: SequenceData) {
    || a.sequenceNumber < b.sequenceNumber
    || (a.sequenceNumber == b.sequenceNumber && a.chunkNumber < b.chunkNumber)
    || (a.sequenceNumber == b.sequenceNumber && a.chunkNumber == b.chunkNumber && !a.lastChunk && b.lastChunk)
  }

  /** The priority queue, least element first. */
  ghost predicate Sorted<T>(queue: seq<Item<T>>) {
    forall i, j | 0 <= i < j < |queue| :: !Before(queue[j].sequence, queue[i].sequence)
  }

  function Insert<T>(queue: seq<Item<T>>, item: Item<T>): (r: seq<Item<T>>) {
    if queue == [] || Before(item.sequence, queue[0].sequence) then [item] + queue
    else [queue[0]] + Insert(queue[1..], item)
  }

  lemma FirstStaysFirst<T>(first: Item<T>, tail: seq<Item<T>>, item: Item<T>, rest: seq<Item<T>>)
    requires multiset(rest) == multiset(tail) + multiset{item} && !Before(item.sequence, first.sequence)
    requires forall x | x in tail :: !Before(x.sequence, first.sequence)
    ensures forall x | x in rest :: !Before(x.sequence, first.sequence)
  {
    forall x | x in rest ensures !Before(x.sequence, first.sequence) {
      assert x in multiset(rest);
    }
  }

  lemma {:induction false} InsertKeeps<T>(queue: seq<Item<T>>, item: Item<T>)
    requires Sorted(queue)
    ensures Sorted(Insert(queue, item))
    ensures multiset(Insert(queue, item)) == multiset(queue) + multiset{item}
  {
    if queue == [] || Before(item.sequence, queue[0].sequence) {
    } else {
      var tail := queue[1..];
      InsertKeeps(tail, item);
      assert queue == [queue[0]] + tail;
      FirstStaysFirst(queue[0], tail, item, Insert(tail, item));
    }
  }

  /** The position behind an item: the next chunk, or the first chunk of the next number. */
  function Successor(s: SequenceData): (r: (nat, nat)) {
    if s.lastChunk then (s.sequenceNumber + 1, 1) else (s.sequenceNumber, s.chunkNumber + 1)
  }

  function Position(s: SequenceData): (r: (nat, nat)) {
    (s.sequenceNumber, s.chunkNumber)
  }

  class Sequencer<T(==)> {
    var nextSequence: nat
    var nextChunkNumber: nat
    var queue: seq<Item<T>>

    constructor ()
      ensures nextSequence == 1 && nextChunkNumber == 1 && queue == []
    {
      nextSequence, nextChunkNumber, queue := 1, 1, [];
    }

    /** Hands the item back if it is the next one; otherwise keeps it. */
    method IsNext(item: Item<T>) returns (r: Option<Item<T>>)
      requires Sorted(queue)
      modifies this`queue
      ensures r.Some? <==> Position(item.sequence) == (nextSequence, nextChunkNumber)
      ensures r.Some? ==> r.value == item && queue == old(queue)
      ensures r.None? ==> queue == Insert(old(queue), item) && multiset(queue) == multiset(old(queue)) + multiset{item}
      ensures Sorted(queue)
    {
      if item.sequence.sequenceNumber == nextSequence && item.sequence.chunkNumber == nextChunkNumber {
        return Some(item);
      }
      InsertKeeps(queue, item);
      queue := Insert(queue, item);
      return None;
    }

    /** Moves behind the processed item; hands out the following one if it is already there. */
    method AdvanceAndGetNext(done: SequenceData) returns (r: Option<Item<T>>)
      requires Sorted(queue) && Position(done) == (nextSequence, nextChunkNumber)
      modifies this
      ensures (nextSequence, nextChunkNumber) == Successor(done)
      ensures Sorted(queue)
      ensures r.Some? ==> Position(r.value.sequence) == Successor(done) && old(queue) == [r.value] + queue
      ensures r.None? ==> queue == old(queue) && (queue != [] ==> Position(queue[0].sequence) != Successor(done))
    {
      if done.lastChunk {
        nextSequence := done.sequenceNumber + 1;
        nextChunkNumber := 1;
      } else {
        nextChunkNumber := done.chunkNumber + 1;
      }
      if queue != [] && queue[0].sequence.sequenceNumber == nextSequence && queue[0].sequence.chunkNumber == nextChunkNumber {
        r := Some(queue[0]);
        queue := queue[1..];
        return;
      }
      return None;
    }
  }

  // ---------------------------------------------------------- the items of a stream

  /** A well-formed stream in its proper order: it starts with the first chunk of
      number one, and every item is followed by the one at the next position. */
  ghost predicate InOrder<T>(stream: seq<Item<T>>) {
    && (stream != [] ==> Position(stream[0].sequence) == (1, 1))
    && forall i | 0 <= i < |stream| - 1 :: Position(stream[i + 1].sequence) == Successor(stream[i].sequence)
  }

  /** Later items of the stream have later positions. */
  lemma {:induction false} LaterPositions<T>(stream: seq<Item<T>>, i: nat, j: nat)
    requires InOrder(stream) && i < j < |stream|
    ensures Before(stream[i].sequence, stream[j].sequence) && Position(stream[i].sequence) != Position(stream[j].sequence)
    decreases j
  {
    if i + 1 < j {
      LaterPositions(stream, i, j - 1);
    }
    assert Position(stream[j - 1 + 1].sequence) == Successor(stream[j - 1].sequence);
  }

  /** The queue holds exactly the waiting items. */
  ghost predicate QueueHolds<T>(stream: seq<Item<T>>, queue: seq<Item<T>>, waiting: set<nat>) {
    && (forall i | i in waiting :: i < |stream|)
    && (forall i | i in waiting :: stream[i] in queue)
    && (forall item | item in queue :: exists i :: i in waiting && stream[i] == item)
  }

  /** The position behind the first `p` items. */
  ghost predicate IsPosition<T>(stream: seq<Item<T>>, p: nat, next: (nat, nat)) {
    && p <= |stream|
    && (p == 0 ==> next == (1, 1))
    && (p > 0 ==> next == Successor(stream[p - 1].sequence))
  }

  lemma PositionOf<T>(stream: seq<Item<T>>, p: nat, next: (nat, nat), i: nat)
    requires InOrder(stream) && IsPosition(stream, p, next) && i < |stream| && i >= p
    ensures Position(stream[i].sequence) == next <==> i == p
  {
    if p < |stream| {
      assert p > 0 ==> Position(stream[p - 1 + 1].sequence) == Successor(stream[p - 1].sequence);
      if i > p {
        LaterPositions(stream, p, i);
      }
    }
  }

  ghost predicate Once<T>(queue: seq<Item<T>>) {
    forall item | item in queue :: multiset(queue)[item] == 1
  }

  function Waiting(arrived: set<nat>, p: nat): (r: set<nat>) {
    set i | i in arrived && i > p
  }

  /** The queue after an item was kept. */
  lemma QueueGrows<T>(stream: seq<Item<T>>, queue: seq<Item<T>>, waiting: set<nat>, i: nat, queue': seq<Item<T>>)
    requires InOrder(stream) && QueueHolds(stream, queue, waiting) && Once(queue) && i < |stream| && i !in waiting
    requires multiset(queue') == multiset(queue) + multiset{stream[i]}
    ensures QueueHolds(stream, queue', waiting + {i}) && Once(queue')
  {
    if stream[i] in queue {
      var j :| j in waiting && stream[j] == stream[i];
      if i < j {
        LaterPositions(stream, i, j);
      } else {
        LaterPositions(stream, j, i);
      }
    }
    SameMembers(queue, queue', stream[i]);
    forall item | item in queue' ensures exists k :: k in waiting + {i} && stream[k] == item {
      if item != stream[i] {
        var k :| k in waiting && stream[k] == item;
        assert k in waiting + {i};
      }
    }
  }

  lemma SameMembers<T>(queue: seq<Item<T>>, queue': seq<Item<T>>, extra: Item<T>)
    requires multiset(queue') == multiset(queue) + multiset{extra}
    ensures forall item :: item in queue' <==> item in queue || item == extra
  {
    forall item ensures item in queue' <==> item in queue || item == extra {
      assert item in queue' <==> item in multiset(queue');
      assert item in queue <==> item in multiset(queue);
    }
  }

  /** The queue after the next item was handed out. */
  lemma QueueShrinks<T>(stream: seq<Item<T>>, queue: seq<Item<T>>, waiting: set<nat>, i: nat, queue': seq<Item<T>>)
    requires InOrder(stream) && QueueHolds(stream, queue, waiting) && Once(queue) && i in waiting
    requires multiset(queue) == multiset(queue') + multiset{stream[i]}
    ensures QueueHolds(stream, queue', waiting - {i}) && Once(queue')
  {
    SameMembers(queue', queue, stream[i]);
    assert stream[i] in queue && multiset(queue)[stream[i]] == 1;
    assert stream[i] !in multiset(queue') && stream[i] !in queue';
    forall j | j in waiting - {i} ensures stream[j] in queue' {
      if i < j {
        LaterPositions(stream, i, j);
      } else {
        LaterPositions(stream, j, i);
      }
    }
    forall item | item in queue' ensures exists k :: k in waiting - {i} && stream[k] == item {
      var k :| k in waiting && stream[k] == item;
      assert k in waiting - {i};
    }
  }

  /** If the first item of the queue is not the next one, the next one is not waiting. */
  lemma NextNotWaiting<T>(stream: seq<Item<T>>, queue: seq<Item<T>>, waiting: set<nat>, p: nat, next: (nat, nat))
    requires InOrder(stream) && Sorted(queue) && QueueHolds(stream, queue, waiting) && IsPosition(stream, p, next)
    requires forall i | i in waiting :: i >= p
    requires queue != [] ==> Position(queue[0].sequence) != next
    ensures p !in waiting
  {
    if p in waiting {
      PositionOf(stream, p, next, p);
      var k :| 0 <= k < |queue| && queue[k] == stream[p];
      assert queue[0] in queue;
      var j :| j in waiting && stream[j] == queue[0];
      if j > p {
        LaterPositions(stream, p, j);
      }
    }
  }
}
