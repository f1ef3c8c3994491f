/** The capture queue itself: a ring array with a read and a write location, holding one reference per stored capture.

    Every method is one critical section of the queue's lock. It acts on `Model()`, the bounded FIFO the ring stands
    for, as the functions of QueueModel say, and moves exactly the references they name.
 */
module RingQueue {
  import opened CaptureStore
  import opened QueueModel

  const MAX_QUEUE_DEPTH: nat := 10000

  /** What the two locations denote: the captures from the read location up to the write location, around the end. */
  ghost function Window(ring: seq<CaptureId>, read: nat, write: nat): (items: seq<CaptureId>)
    requires read < |ring| && write < |ring|
    ensures |items| == if read <= write then write - read else |ring| - read + write
  {
    if read <= write then ring[read..write] else ring[read..] + ring[..write]
  }

  /** inc_read_write_location */
  function Next(location: nat, depth: nat): (next: nat)
    requires location < depth
    ensures next == (if location + 1 == depth then 0 else location + 1)
  {
    (location + 1) % depth
  }

  lemma SmallModulus(a: nat, n: nat, q: int)
    requires 0 < n && a < 2 * n && q == a / n
    ensures a % n == if a < n then a else a - n
  {
    assert a == q * n + a % n;
    assert q < 2 && (a < n ==> q == 0) && (a >= n ==> q == 1);
  }

  /** The k-th oldest capture lies k places after the read location, modulo the depth. */
  lemma WindowIsModular(ring: seq<CaptureId>, read: nat, write: nat, k: nat)
    requires read < |ring| && write < |ring| && k < |Window(ring, read, write)|
    ensures Window(ring, read, write)[k] == ring[(read + k) % |ring|]
  {
    var at := read + k;
    SmallModulus(at, |ring|, at / |ring|);
  }

  /** The two tests are exact: equal locations mean empty, one short of the read location means full. */
  lemma TestsAreExact(ring: seq<CaptureId>, read: nat, write: nat)
    requires read < |ring| && write < |ring|
    ensures write == read <==> Window(ring, read, write) == []
    ensures Next(write, |ring|) == read <==> |Window(ring, read, write)| == |ring| - 1
  {
  }

  lemma TakeOldest(ring: seq<CaptureId>, read: nat, write: nat)
    requires read < |ring| && write < |ring| && read != write
    ensures Window(ring, read, write) == [ring[read]] + Window(ring, Next(read, |ring|), write)
  {
  }

  lemma AddNewest(ring: seq<CaptureId>, read: nat, write: nat, c: CaptureId)
    requires read < |ring| && write < |ring| && Next(write, |ring|) != read
    ensures Window(ring[write := c], read, Next(write, |ring|)) == Window(ring, read, write) + [c]
  {
  }

  /** The state in which a disable found the ring and the references. */
  datatype Drained = Drained(items: seq<CaptureId>, owners: multiset<CaptureId>, captures: Captures, images: Images,
                             stopped: bool)

  ghost predicate IsDrained(d: Drained, items: seq<CaptureId>, owners: multiset<CaptureId>) {
    && multiset(d.items) <= d.owners
    && |items| <= |d.items| && items == d.items[|d.items| - |items|..]
    && owners == d.owners - multiset(d.items[..|d.items| - |items|])
  }

  lemma DrainedHolds(d: Drained, items: seq<CaptureId>, owners: multiset<CaptureId>)
    requires IsDrained(d, items, owners)
    ensures multiset(items) <= owners
  {
    assert d.items == d.items[..|d.items| - |items|] + items;
  }

  lemma DrainMore(d: Drained, q: Queue, owners: multiset<CaptureId>)
    requires IsDrained(d, q.items, owners)
    ensures IsDrained(d, Oldest(q).0.items, Minus(owners, Oldest(q).1))
  {
    if q.items != [] {
      var n := |d.items| - |q.items|;
      DrainOne(d, n, q.items, owners);
    }
  }

  lemma DrainOne(d: Drained, n: nat, items: seq<CaptureId>, owners: multiset<CaptureId>)
    requires n < |d.items| && items == d.items[n..] && owners == d.owners - multiset(d.items[..n])
    ensures items[1..] == d.items[n + 1..]
    ensures owners - multiset{items[0]} == d.owners - multiset(d.items[..n + 1])
  {
    assert d.items[..n + 1] == d.items[..n] + [items[0]];
    assert multiset(d.items[..n] + [items[0]]) == multiset(d.items[..n]) + multiset{items[0]};
    TakeOneMore(d.owners, multiset(d.items[..n]), items[0]);
  }

  lemma TakeOneMore(owners: multiset<CaptureId>, gone: multiset<CaptureId>, x: CaptureId)
    ensures owners - gone - multiset{x} == owners - (gone + multiset{x})
  {
  }

  lemma NothingDrained(d: Drained)
    requires multiset(d.items) <= d.owners
    ensures IsDrained(d, d.items, d.owners)
  {
    assert d.owners - multiset([]) == d.owners;
  }

  lemma EverythingDrained(d: Drained, owners: multiset<CaptureId>)
    requires IsDrained(d, [], owners)
    ensures owners == d.owners - multiset(d.items)
  {
    assert d.items[..|d.items|] == d.items;
  }

  lemma FullRoom(q: Queue, count: nat)
    requires |q.items| == q.capacity && q.items != [] && count == (q.droppedCount + 1) % 0x1_0000_0000
    ensures var counted := q.(droppedCount := count);
            Room(q, false).queue == Oldest(counted).0 && Room(q, false).released == Oldest(counted).1 == Some(q.items[0])
  {
  }

  lemma NothingMoves(owners: multiset<CaptureId>)
    ensures Plus(Minus(owners, None), None) == owners
  {
  }

  /** The capture to be pushed is owned besides the ring's captures, also once room has been made. */
  lemma OwnedBesides(q: Queue, c: CaptureId, wanted: bool, owners: multiset<CaptureId>)
    requires Plus(multiset(q.items), Some(c)) <= owners
    ensures multiset(q.items) <= owners && c in Minus(owners, Room(q, wanted).released)
  {
  }

  lemma OldestIsOwned(items: seq<CaptureId>, owners: multiset<CaptureId>)
    requires multiset(items) <= owners && items != []
    ensures items[0] in owners
  {
    assert items[0] in multiset(items);
  }

  class Ring {
    var enabled: bool
    var stopped: bool
    var popBlocked: nat
    var readLocation: nat
    var writeLocation: nat
    var droppedCount: nat
    const queue: array<CaptureId>
    const depth: nat
    ghost const capacity: nat
    /** The stored captures from the oldest to the newest. */
    ghost var items: seq<CaptureId>

    ghost predicate Valid()
      reads this, queue
    {
      && 0 < capacity && capacity + 1 == depth == queue.Length && readLocation < depth && writeLocation < depth
      && items == Window(queue[..], readLocation, writeLocation)
    }

    ghost function Model(): Queue
      reads this
    {
      Queue(enabled, stopped, popBlocked, items, capacity, droppedCount)
    }

    ghost predicate Is(q: Queue)
      reads this
    {
      && enabled == q.enabled && stopped == q.stopped && popBlocked == q.blocked && items == q.items
      && capacity == q.capacity && droppedCount == q.droppedCount
    }

    /** One place always stays free. */
    lemma Fits()
      requires Valid()
      ensures |items| <= capacity
    {
    }

    /** queue_create past its checks; the contents of the array do not matter. */
    constructor (queueDepth: nat)
      requires 0 < queueDepth
      ensures Valid() && fresh(queue) && Model() == Queue(false, false, 0, [], queueDepth, 0)
    {
      enabled, stopped, popBlocked := false, false, 0;
      readLocation, writeLocation, droppedCount := 0, 0, 0;
      depth, capacity := queueDepth + 1, queueDepth;
      queue := new CaptureId[queueDepth + 1];
      items := [];
    }

    static method Create(queueDepth: nat) returns (q: Option<Ring>)
      ensures q.Some? <==> 0 < queueDepth <= 10000
      ensures q.Some? ==> fresh(q.value) && fresh(q.value.queue) && q.value.Valid()
                          && q.value.Model() == Queue(false, false, 0, [], queueDepth, 0)
    {
      if queueDepth == 0 || queueDepth > MAX_QUEUE_DEPTH {
        return None;
      }
      var ring := new Ring(queueDepth);
      q := Some(ring);
    }

    /** queue_pop_internal_locked */
    method PopInternal(ghost q: Queue) returns (c: Option<CaptureId>)
      requires Valid() && Is(q)
      modifies this`readLocation, this`items
      ensures Valid() && Is(Oldest(q).0) && c == Oldest(q).1
    {
      c := None;
      if writeLocation != readLocation {
        TakeOldest(queue[..], readLocation, writeLocation);
        c := Some(queue[readLocation]);
        readLocation := Next(readLocation, depth);
        items := items[1..];
      }
    }

    /** queue_push_internal_locked, for a ring that is not full. */
    method PushInternal(c: CaptureId, ghost q: Queue)
      requires Valid() && Is(q) && |items| < capacity
      modifies this`writeLocation, this`items, queue
      ensures Valid() && Is(q.(items := q.items + [c]))
    {
      AddNewest(queue[..], readLocation, writeLocation, c);
      ghost var after := queue[..][writeLocation := c];
      queue[writeLocation] := c;
      assert queue[..] == after;
      writeLocation := Next(writeLocation, depth);
      items := items + [c];
    }

    /** queue_push_w_dropped; queue_push is the same with wanted == false. */
    method PushWDropped(store: Store, c: Option<CaptureId>, wanted: bool) returns (dropped: Option<CaptureId>)
      requires Valid() && store.Valid() && Plus(multiset(items), c) <= store.captureOwners
      modifies this, queue, store`captures, store`images, store`captureOwners
      ensures Valid() && store.Valid() && store.Shows()
      ensures c.None? ==> Is(old(Model())) && dropped == None && store.captureOwners == old(store.captureOwners)
      ensures c.Some? ==>
                var p := Push(old(Model()), c.value, wanted);
                && Is(p.queue) && dropped == p.dropped
                && store.captureOwners == Plus(Minus(old(store.captureOwners), p.released), if p.accepted then c else None)
      ensures c.Some? && !old(enabled) ==> Is(old(Model())) && dropped == None
      ensures c.Some? && old(enabled) ==>
                var full := |old(items)| == capacity;
                && items == (if full then old(items)[1..] else old(items)) + [c.value]
                && dropped == (if full && wanted then Some(old(items)[0]) else None)
    {
      hide CapturesBalanced, ImagesBalanced, Shown, Window, Plus, Minus, Room;
      ghost var q, cs, im := Model(), store.captures, store.images;
      ShownAgain(cs, im);
      NothingMoves(store.captureOwners);
      if c.Some? {
        PushIs(q, c.value, wanted);
      }
      dropped := None;
      if c != None && enabled {
        ghost var room := Room(q, wanted);
        OwnedBesides(q, c.value, wanted, store.captureOwners);
        dropped := MakeRoom(store, q, wanted);
        ghost var cs1, im1 := store.captures, store.images;
        store.CaptureIncRef(c);
        ShownThrough(cs, im, cs1, im1, store.captures, store.images);
        PushInternal(c.value, room.queue);
      }
    }

    /** A full ring gives up its oldest capture. */
    method MakeRoom(store: Store, ghost q: Queue, wanted: bool) returns (dropped: Option<CaptureId>)
      requires Valid() && store.Valid() && Is(q) && multiset(items) <= store.captureOwners
      modifies this, store`captures, store`images, store`captureOwners
      ensures Valid() && store.Valid() && store.Shows()
      ensures Is(Room(q, wanted).queue) && dropped == Room(q, wanted).dropped && |items| < capacity
      ensures store.captureOwners == Minus(old(store.captureOwners), Room(q, wanted).released)
    {
      hide CapturesBalanced, ImagesBalanced, Shown;
      ShownAgain(store.captures, store.images);
      TestsAreExact(queue[..], readLocation, writeLocation);
      dropped := None;
      if Next(writeLocation, depth) == readLocation {
        if !wanted {
          ReleaseOldest(store, q);
        } else {
          dropped := PopInternal(q);
        }
      }
    }

    /** Without a taker the oldest capture of a full ring is released. */
    method ReleaseOldest(store: Store, ghost q: Queue)
      requires Valid() && store.Valid() && Is(q) && |items| == capacity && multiset(items) <= store.captureOwners
      modifies this, store`captures, store`images, store`captureOwners
      ensures Valid() && store.Valid() && store.Shows() && Is(Room(q, false).queue)
      ensures store.captureOwners == Minus(old(store.captureOwners), Room(q, false).released)
    {
      hide CapturesBalanced, ImagesBalanced, Shown, Room, Oldest;
      OldestIsOwned(items, store.captureOwners);
      droppedCount := (droppedCount + 1) % 0x1_0000_0000;
      ghost var count := droppedCount;
      FullRoom(q, count);
      var oldest := PopInternal(q.(droppedCount := count));
      store.CaptureDecRef(oldest);
    }

    /** queue_pop up to its return or up to Condition_Wait. */
    method PopEnter(store: Store, wait: int) returns (o: PopOutcome)
      requires Valid() && store.Valid() && multiset(items) <= store.captureOwners
      modifies this, store`captures, store`images, store`captureOwners
      ensures Valid() && store.Valid() && store.Shows()
      ensures var p := PopStart(old(Model()), wait);
              && Is(p.queue) && o == p.outcome
              && store.captureOwners == Minus(old(store.captureOwners), p.released)
      ensures enabled == old(enabled) && popBlocked == old(popBlocked) + (if o == Waiting then 1 else 0)
      ensures !enabled ==> o == Returned(FAILED, None) && items == old(items)
      ensures enabled && old(items) != [] ==> o == Returned(SUCCEEDED, Some(old(items)[0])) && items == old(items)[1..]
      ensures enabled && old(items) == [] ==> o == (if wait == 0 then Returned(TIMEOUT, None) else Waiting) && items == []
    {
      hide CapturesBalanced, ImagesBalanced, Shown;
      ghost var q := Model();
      PopStartIs(q, wait);
      if !enabled {
        o := PopFinish(store, q, FAILED, None);
      } else {
        popBlocked := popBlocked + 1;
        ghost var blocked := popBlocked;
        var c := PopInternal(q.(blocked := blocked));
        if c == None && wait != 0 {
          ShownAgain(store.captures, store.images);
          return Waiting;
        }
        popBlocked := popBlocked - 1;
        o := PopFinish(store, Oldest(q).0, if c != None then SUCCEEDED else TIMEOUT, c);
      }
    }

    /** queue_pop from the return of Condition_Wait on. */
    method PopContinue(store: Store, posted: bool) returns (o: PopOutcome)
      requires Valid() && store.Valid() && multiset(items) <= store.captureOwners && 0 < popBlocked
      modifies this, store`captures, store`images, store`captureOwners
      ensures Valid() && store.Valid() && store.Shows()
      ensures var p := PopResume(old(Model()), posted);
              && Is(p.queue) && o == p.outcome
              && store.captureOwners == Minus(old(store.captureOwners), p.released)
      ensures enabled == old(enabled) && popBlocked == old(popBlocked) - 1
      ensures items == if posted && old(items) != [] then old(items)[1..] else old(items)
      ensures !enabled ==> o == Returned(FAILED, None)
      ensures enabled && !posted ==> o == Returned(TIMEOUT, None)
      ensures enabled && posted ==> o == Returned(SUCCEEDED, if old(items) == [] then None else Some(old(items)[0]))
    {
      hide CapturesBalanced, ImagesBalanced, Shown;
      ghost var q := Model();
      PopResumeIs(q, posted);
      if posted {
        var c := PopInternal(q);
        popBlocked := popBlocked - 1;
        ghost var blocked := popBlocked;
        o := PopFinish(store, Oldest(q).0.(blocked := blocked), SUCCEEDED, c);
      } else {
        popBlocked := popBlocked - 1;
        ghost var blocked := popBlocked;
        o := PopFinish(store, q.(blocked := blocked), TIMEOUT, None);
      }
    }

    /** The common end of a pop. */
    method PopFinish(store: Store, ghost q: Queue, result: WaitResult, c: Option<CaptureId>) returns (o: PopOutcome)
      requires Valid() && store.Valid() && Is(q) && (c.Some? ==> c.value in store.captureOwners)
      modifies this`droppedCount, store`captures, store`images, store`captureOwners
      ensures Valid() && store.Valid() && store.Shows()
      ensures var p := Finish(q, result, c);
              && Is(p.queue) && o == p.outcome
              && store.captureOwners == Minus(old(store.captureOwners), p.released)
    {
      droppedCount := 0;
      if enabled {
        return Returned(result, c);
      }
      store.CaptureDecRef(c);
      o := Returned(FAILED, None);
    }

    method SetEnabled()
      requires Valid()
      modifies this`enabled, this`stopped
      ensures Valid() && Is(Enable(old(Model()))) && enabled && !stopped && items == old(items)
    {
      enabled, stopped := true, false;
    }

    /** queue_disable: waits for the blocked pops, each of which ends in its own time, and then empties the ring. */
    method Disable(store: Store)
      requires Valid() && store.Valid() && multiset(items) <= store.captureOwners
      modifies this, store`captures, store`images, store`captureOwners
      ensures Valid() && store.Valid() && store.Shows() && stopped == old(stopped)
      ensures !enabled && popBlocked == 0 && items == []
      ensures store.captureOwners == old(store.captureOwners) - multiset(old(items))
    {
      hide CapturesBalanced, ImagesBalanced, Shown, IsDrained, Window, Next;
      enabled := false;
      ghost var d := Drained(items, store.captureOwners, store.captures, store.images, stopped);
      ShownAgain(store.captures, store.images);
      NothingDrained(d);
      while popBlocked != 0
        invariant Draining(store, d)
        decreases popBlocked
      {
        var posted: bool := *;
        BlockedPopEnds(store, d, posted);
      }
      while writeLocation != readLocation
        invariant Draining(store, d) && popBlocked == 0
        decreases |items|
      {
        DropOldest(store, d);
      }
      EverythingDrained(d, store.captureOwners);
    }

    /** The oldest captures of d are gone, and with them the queue's references to them. */
    ghost predicate Draining(store: Store, d: Drained)
      reads this, queue, store
    {
      && Valid() && store.Valid() && !enabled && stopped == d.stopped
      && IsDrained(d, items, store.captureOwners) && Shown(d.captures, d.images, store.captures, store.images)
    }

    /** One of the blocked pops wakes up, or times out, and finds the queue disabled. */
    method BlockedPopEnds(store: Store, ghost d: Drained, posted: bool)
      requires Draining(store, d) && 0 < popBlocked
      modifies this, store`captures, store`images, store`captureOwners
      ensures Draining(store, d) && popBlocked == old(popBlocked) - 1
    {
      hide CapturesBalanced, ImagesBalanced, Shown, IsDrained;
      DrainedHolds(d, items, store.captureOwners);
      ghost var cs, im := store.captures, store.images;
      ghost var q, owners := Model(), store.captureOwners;
      var _ := PopContinue(store, posted);
      ShownThrough(d.captures, d.images, cs, im, store.captures, store.images);
      if posted {
        DrainMore(d, q, owners);
      }
    }

    method DropOldest(store: Store, ghost d: Drained)
      requires Draining(store, d) && popBlocked == 0 && items != []
      modifies this, store`captures, store`images, store`captureOwners
      ensures Draining(store, d) && popBlocked == 0 && |items| < |old(items)|
    {
      hide CapturesBalanced, ImagesBalanced, Shown, IsDrained;
      DrainedHolds(d, items, store.captureOwners);
      ghost var cs, im := store.captures, store.images;
      ghost var q, owners := Model(), store.captureOwners;
      var c := PopInternal(q);
      store.CaptureDecRef(c);
      ShownThrough(d.captures, d.images, cs, im, store.captures, store.images);
      DrainMore(d, q, owners);
    }

    /** queue_stop */
    method Stop(store: Store)
      requires Valid() && store.Valid() && multiset(items) <= store.captureOwners
      modifies this, store`captures, store`images, store`captureOwners
      ensures Valid() && store.Valid() && store.Shows() && stopped
      ensures !enabled && popBlocked == 0 && items == []
      ensures store.captureOwners == old(store.captureOwners) - multiset(old(items))
    {
      stopped := true;
      Disable(store);
    }
  }
}
