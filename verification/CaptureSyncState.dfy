/** The synchroniser's state as a value, what holds of it, and how each kind of step keeps that. */
module CaptureSyncState {
  import opened CaptureStore
  import opened QueueModel
  import opened Frames
  import opened Pairing

  // ---------- The pending samples of a sensor ----------

  function Ids(q: seq<Sample>): (ids: seq<CaptureId>)
    ensures |ids| == |q| && forall k :: 0 <= k < |q| ==> ids[k] == q[k].id
  {
    seq(|q|, k requires 0 <= k < |q| => q[k].id)
  }

  lemma IdsSplit(q: seq<Sample>)
    requires q != []
    ensures Ids(q) == [q[0].id] + Ids(q[1..])
    ensures multiset(Ids(q)) == multiset{q[0].id} + multiset(Ids(q[1..]))
  {
    assert Ids(q) == [q[0].id] + Ids(q[1..]);
  }

  lemma IdsSnoc(q: seq<Sample>, s: Sample)
    ensures Ids(q + [s]) == Ids(q) + [s.id]
    ensures multiset(Ids(q + [s])) == multiset(Ids(q)) + multiset{s.id}
  {
    assert Ids(q + [s]) == Ids(q) + [s.id];
  }

  function Side(p: Pending, color: bool): seq<Sample> {
    if color then p.color else p.depth
  }

  function SetSide(p: Pending, color: bool, q: seq<Sample>): Pending {
    if color then p.(color := q) else p.(depth := q)
  }

  /** The capture is none of the sensor's pending ones. */
  ghost predicate NotPending(q: seq<Sample>, c: CaptureId) {
    forall k :: 0 <= k < |q| ==> q[k].id != c
  }

  /** The slot whose image carries a sensor's timestamp. */
  function SlotFor(color: bool): (slot: nat) {
    if color then COLOR else IR
  }

  /** The held slot and the ring hold exactly the pending samples, oldest first; an empty slot means an empty ring;
      the cached image and timestamp are those of the held capture; all timestamps are those the images carry. */
  ghost predicate Tracks(f: Frame, q: seq<Sample>, slot: nat, cs: Captures, im: Images) {
    && f.items == (if q == [] then [] else Ids(q[1..]))
    && (q == [] ==> f.capture == None && f.image == None)
    && (q != [] ==>
          && f.capture == Some(q[0].id) && f.ts == q[0].ts && f.image.Some?
          && Carries(cs, im, q[0].id, slot, f.image.value, q[0].ts))
    && (forall k :: 0 <= k < |q| ==> SlotTime(im, cs.live, q[k].id, slot) == Some(q[k].ts))
  }

  // ---------- The whole state ----------

  /** enabled: the three queues, which are switched together; only: unsynchronised captures are not published. */
  datatype Snap = Snap(color: Frame, depth: Frame, sync: seq<CaptureId>, enabled: bool, only: bool, t: Timing,
                       cs: Captures, im: Images, owners: multiset<CaptureId>, imageOwners: multiset<ImageId>,
                       clients: multiset<CaptureId>, clientImages: multiset<ImageId>, pending: Pending)

  function FrameOf(s: Snap, color: bool): Frame {
    if color then s.color else s.depth
  }

  function SetFrame(s: Snap, color: bool, f: Frame): Snap {
    if color then s.(color := f) else s.(depth := f)
  }

  /** Each capture reference is a client handle, a ring slot or a held slot. */
  ghost predicate Books(owners: multiset<CaptureId>, clients: multiset<CaptureId>, p: Pending, sync: seq<CaptureId>) {
    owners == clients + multiset(Ids(p.color)) + multiset(Ids(p.depth)) + multiset(sync)
  }

  /** Each image reference outside the captures is a client handle or a held image. */
  ghost predicate ImageBooks(owners: multiset<ImageId>, clients: multiset<ImageId>, a: Option<ImageId>, b: Option<ImageId>) {
    owners == Plus(Plus(clients, a), b)
  }

  /** No capture is pending for both sensors. */
  ghost predicate Apart(p: Pending) {
    forall i, j :: 0 <= i < |p.color| && 0 <= j < |p.depth| ==> p.color[i].id != p.depth[j].id
  }

  /** The capture carries a color and an IR image that belong together. */
  ghost predicate Synced(t: Timing, cs: Captures, im: Images, c: CaptureId) {
    && SlotTime(im, cs.live, c, COLOR).Some? && SlotTime(im, cs.live, c, IR).Some?
    && Matches(t, SlotTime(im, cs.live, c, COLOR).value, SlotTime(im, cs.live, c, IR).value)
  }

  ghost predicate AllSynced(t: Timing, cs: Captures, im: Images, sync: seq<CaptureId>) {
    forall k :: 0 <= k < |sync| ==> Synced(t, cs, im, sync[k])
  }

  ghost predicate Sound(s: Snap) {
    && CapturesBalanced(s.cs, s.owners)
    && Tracks(s.color, s.pending.color, COLOR, s.cs, s.im) && Tracks(s.depth, s.pending.depth, IR, s.cs, s.im)
    && Books(s.owners, s.clients, s.pending, s.sync)
    && ImageBooks(s.imageOwners, s.clientImages, s.color.image, s.depth.image)
    && Apart(s.pending)
    && (s.only ==> AllSynced(s.t, s.cs, s.im, s.sync))
    && (!s.enabled ==> s.color.items == [] && s.depth.items == [] && s.sync == [])
  }

  lemma NothingYet(s: Snap)
    requires s.color == Frame(None, None, 0, []) && s.depth == Frame(None, None, 0, []) && s.sync == [] && !s.only
    requires s.pending == Pending([], []) && s.clients == s.owners && s.clientImages == s.imageOwners
    requires CapturesBalanced(s.cs, s.owners)
    ensures Sound(s)
  {
    hide CapturesBalanced;
  }

  /** The settings can change at any time, as long as nothing in the output is newly promised to be synchronised. */
  lemma StartIsSound(s: Snap, enabled: bool, only: bool, t: Timing)
    requires Sound(s) && (s.enabled ==> enabled) && (only ==> s.sync == [] || (s.only && t == s.t))
    ensures Sound(s.(enabled := enabled, only := only, t := t))
  {
    hide Tracks, Books, ImageBooks, CapturesBalanced;
  }

  /** Without samples inside, only the clients own anything. */
  lemma OnlyClients(s: Snap)
    requires Sound(s) && !s.enabled && s.pending == Pending([], [])
    ensures s.owners == s.clients && s.imageOwners == s.clientImages
  {
  }

  lemma NoneLeft(s: Snap, color: bool)
    ensures var h := FrameOf(s, color).capture; h.Some? ==> Minus(s.owners, h) == s.owners - multiset{h.value}
    ensures Plus(Minus(s.imageOwners, FrameOf(s, color).image), None) == Minus(s.imageOwners, FrameOf(s, color).image)
    ensures Minus(s.owners, None) == s.owners && Minus(s.imageOwners, None) == s.imageOwners
  {
  }

  // ---------- What does not disturb a sensor or the output ----------

  lemma TracksAgain(f: Frame, q: seq<Sample>, slot: nat, cs: Captures, im: Images, cs': Captures, im': Images)
    requires Tracks(f, q, slot, cs, im) && Shown(cs, im, cs', im')
    requires forall k :: 0 <= k < |q| ==> q[k].id in cs'.live
    ensures Tracks(f, q, slot, cs', im')
  {
  }

  lemma SyncedAgain(t: Timing, sync: seq<CaptureId>, cs: Captures, im: Images, cs': Captures, im': Images)
    requires AllSynced(t, cs, im, sync) && Shown(cs, im, cs', im')
    requires forall k :: 0 <= k < |sync| ==> sync[k] in cs'.live
    ensures AllSynced(t, cs', im', sync)
  {
  }

  /** The captures the books name are alive. */
  lemma BookedIsLive(cs: Captures, owners: multiset<CaptureId>, clients: multiset<CaptureId>, p: Pending, sync: seq<CaptureId>)
    requires CapturesBalanced(cs, owners) && Books(owners, clients, p, sync)
    ensures forall k :: 0 <= k < |p.color| ==> p.color[k].id in owners && p.color[k].id in cs.live
    ensures forall k :: 0 <= k < |p.depth| ==> p.depth[k].id in owners && p.depth[k].id in cs.live
    ensures forall k :: 0 <= k < |sync| ==> sync[k] in owners && sync[k] in cs.live
  {
    forall k | 0 <= k < |p.color| ensures p.color[k].id in owners {
      assert Ids(p.color)[k] in multiset(Ids(p.color));
    }
    forall k | 0 <= k < |p.depth| ensures p.depth[k].id in owners {
      assert Ids(p.depth)[k] in multiset(Ids(p.depth));
    }
    forall k | 0 <= k < |sync| ensures sync[k] in owners {
      assert sync[k] in multiset(sync);
    }
  }

  lemma HeldIsHead(s: Snap, color: bool)
    requires Sound(s)
    ensures var f, q := FrameOf(s, color), Side(s.pending, color);
            && f.items == (if q == [] then [] else Ids(q[1..]))
            && (q == [] ==> f.capture == None && f.image == None)
            && (!s.enabled ==> f.items == [] && |q| <= 1)
            && (q != [] ==>
                  && f.capture == Some(q[0].id) && f.ts == q[0].ts && f.image.Some? && q[0].id in Ids(q)
                  && q[0].id in s.owners && q[0].id in s.cs.live && |s.cs.live[q[0].id].image| == IMAGE_TYPE_COUNT
                  && SlotTime(s.im, s.cs.live, q[0].id, SlotFor(color)) == Some(q[0].ts))
  {
    hide ImageBooks, AllSynced, Books;
    var q := Side(s.pending, color);
    BookedIsLive(s.cs, s.owners, s.clients, s.pending, s.sync);
    if q != [] {
      assert Ids(q)[0] in Ids(q);
    }
  }

  lemma SideShare(s: Snap, color: bool)
    requires Sound(s)
    ensures multiset(Ids(Side(s.pending, color))) <= s.owners
    ensures forall c :: c in s.clients ==> multiset(Ids(Side(s.pending, color))) + multiset{c} <= s.owners
  {
    hide CapturesBalanced, Tracks, AllSynced, ImageBooks;
  }

  lemma ClientIsOwned(s: Snap, c: CaptureId)
    requires Sound(s) && c in s.clients
    ensures c in s.owners
  {
    hide CapturesBalanced, Tracks, AllSynced, ImageBooks;
  }

  lemma Besides(owners: multiset<CaptureId>, x: CaptureId, others: multiset<CaptureId>)
    requires multiset{x} + others <= owners
    ensures others <= owners && others <= owners - multiset{x}
  {
  }

  lemma HeldImageIsOwned(s: Snap)
    requires Sound(s)
    ensures s.color.image.Some? ==> s.color.image.value in s.imageOwners
    ensures s.depth.image.Some? ==> s.depth.image.value in s.imageOwners
  {
    hide CapturesBalanced, Tracks, AllSynced, Books, Plus;
    PlusHas(Plus(s.clientImages, s.color.image), s.depth.image);
    PlusSwap(s.clientImages, s.color.image, s.depth.image);
    PlusHas(Plus(s.clientImages, s.depth.image), s.color.image);
  }

  /** The held image and the ring's captures are owned, the latter besides the held capture. */
  lemma HeldIsOwned(s: Snap, color: bool)
    requires Sound(s)
    ensures var f, q := FrameOf(s, color), Side(s.pending, color);
            && (f.image.Some? ==> f.image.value in s.imageOwners)
            && multiset(f.items) <= s.owners
            && (q != [] ==> multiset(f.items) <= s.owners - multiset{q[0].id})
  {
    HeldImageIsOwned(s);
    HeldIsHead(s, color);
    SideShare(s, color);
    hide Sound, Ids;
    var q := Side(s.pending, color);
    if q != [] {
      IdsSplit(q);
      Besides(s.owners, q[0].id, multiset(Ids(q[1..])));
    }
  }

  /** A client's reference is not the one that holds the sample. */
  lemma ClientAndHeld(s: Snap, c: CaptureId, color: bool)
    requires Sound(s) && c in s.clients && Side(s.pending, color) != []
    ensures var h := Side(s.pending, color)[0].id;
            c in s.owners - multiset{h} && Minus(s.owners, Some(h)) == s.owners - multiset{h}
  {
    hide CapturesBalanced, Tracks, AllSynced, ImageBooks;
    IdsSplit(Side(s.pending, color));
  }

  lemma TwoBesides(owners: multiset<CaptureId>, x: CaptureId, others: multiset<CaptureId>, c: CaptureId)
    requires multiset{x} + others + multiset{c} <= owners
    ensures Plus(others, Some(c)) <= owners
  {
  }

  lemma ClientShare(s: Snap, c: CaptureId, color: bool)
    requires Sound(s) && c in s.clients
    ensures Plus(multiset(FrameOf(s, color).items), Some(c)) <= s.owners
  {
    HeldIsHead(s, color);
    SideShare(s, color);
    hide Sound, Ids;
    var q := Side(s.pending, color);
    if q != [] {
      IdsSplit(q);
      TwoBesides(s.owners, q[0].id, multiset(FrameOf(s, color).items), c);
    }
  }

  /** A push whose caller wants what comes back. */
  lemma WantedPush(q: Queue, c: CaptureId, owners: multiset<CaptureId>)
    ensures var p := Push(q, c, true);
            var owners' := Plus(Minus(owners, p.released), if p.accepted then Some(c) else None);
            && p.queue.enabled == q.enabled
            && if !q.enabled then p.dropped == None && p.queue == q && owners' == owners
               else if |q.items| != q.capacity || q.items == [] then
                 p.dropped == None && p.queue.items == q.items + [c] && owners' == owners + multiset{c}
               else
                 p.dropped == Some(q.items[0]) && p.queue.items == q.items[1..] + [c] && owners' == owners + multiset{c}
  {
  }

  /** What the ring holds after the push. */
  lemma PushedItems(s: Snap, x: Sample, color: bool)
    requires Sound(s) && Side(s.pending, color) != []
    ensures var q, items := Side(s.pending, color), FrameOf(s, color).items;
            && |items| == |q| - 1
            && (|q| > 1 ==> items[0] == q[1].id && items[1..] + [x.id] == Ids(q[2..] + [x]))
  {
    var q := Side(s.pending, color);
    if |q| > 1 {
      IdsSplit(q[1..]);
      assert q[1..][1..] == q[2..];
      IdsSnoc(q[2..], x);
    }
  }

  lemma StillSound(s: Snap, cs: Captures, im: Images)
    requires Sound(s) && Shown(s.cs, s.im, cs, im) && CapturesBalanced(cs, s.owners)
    ensures Sound(s.(cs := cs, im := im))
  {
    hide CapturesBalanced, ImageBooks, Books, Shown, Tracks, AllSynced;
    BookedIsLive(cs, s.owners, s.clients, s.pending, s.sync);
    TracksAgain(s.color, s.pending.color, COLOR, s.cs, s.im, cs, im);
    TracksAgain(s.depth, s.pending.depth, IR, s.cs, s.im, cs, im);
    if s.only {
      SyncedAgain(s.t, s.sync, s.cs, s.im, cs, im);
    }
  }

  /** A valid handle's capture keeps its timestamps; an invalid handle's has none. */
  lemma TimeStays(cs: Captures, im: Images, cs': Captures, im': Images, owners: multiset<CaptureId>, c: CaptureId, k: nat)
    requires Shown(cs, im, cs', im')
    requires CapturesBalanced(cs, owners) && CapturesBalanced(cs', owners)
    ensures SlotTime(im', cs'.live, c, k) == SlotTime(im, cs.live, c, k)
  {
  }

  /** The sample behind the held one, if there is one. */
  lemma NextIsTracked(s: Snap, color: bool)
    requires Sound(s) && |Side(s.pending, color)| > 1
    ensures var f, q := FrameOf(s, color), Side(s.pending, color);
            && f.items != [] && f.items[0] == q[1].id && f.items[1..] == Ids(q[1..][1..])
            && q[1].id in s.owners - multiset{q[0].id} && q[1].id in s.cs.live
            && SlotTime(s.im, s.cs.live, q[1].id, SlotFor(color)) == Some(q[1].ts)
            && NotPending(Side(s.pending, !color), q[1].id)
  {
    hide ImageBooks, AllSynced, CapturesBalanced;
    var q := Side(s.pending, color);
    BookedIsLive(s.cs, s.owners, s.clients, s.pending, s.sync);
    IdsSplit(q);
    IdsSplit(q[1..]);
    assert Ids(q[1..])[1..] == Ids(q[1..][1..]);
  }

  // ---------- Publishing ----------

  lemma SwapOne(rest: multiset<CaptureId>, x: CaptureId, others: multiset<CaptureId>, c: CaptureId)
    ensures rest + (multiset{x} + others) - multiset{x} + multiset{c} == rest + (others + multiset{c})
    ensures rest + others + multiset{c} == rest + (others + multiset{c})
  {
  }

  /** What a push does to a queue's share of the references. */
  lemma PushBooks(owners: multiset<CaptureId>, rest: multiset<CaptureId>, q: Queue, c: CaptureId)
    requires owners == rest + multiset(q.items)
    ensures var p := Push(q, c, false);
            Plus(Minus(owners, p.released), if p.accepted then Some(c) else None) == rest + multiset(p.queue.items)
  {
    if q.enabled {
      if |q.items| == q.capacity && q.items != [] {
        var x, others := q.items[0], q.items[1..];
        assert q.items == [x] + others;
        assert multiset([x] + others) == multiset{x} + multiset(others);
        SwapOne(rest, x, multiset(others), c);
        assert multiset(others + [c]) == multiset(others) + multiset{c};
      } else {
        SwapOne(rest, c, multiset(q.items), c);
        assert multiset(q.items + [c]) == multiset(q.items) + multiset{c};
      }
    }
  }

  lemma PushSynced(t: Timing, cs: Captures, im: Images, q: Queue, c: CaptureId)
    requires AllSynced(t, cs, im, q.items) && Synced(t, cs, im, c)
    ensures AllSynced(t, cs, im, Push(q, c, false).queue.items)
  {
  }

  function AfterPublish(s: Snap, q: Queue, c: CaptureId, cs: Captures, im: Images): Snap {
    var p := Push(q, c, false);
    s.(sync := p.queue.items, cs := cs, im := im,
       owners := Plus(Minus(s.owners, p.released), if p.accepted then Some(c) else None))
  }

  lemma PublishKeeps(s: Snap, q: Queue, c: CaptureId, cs: Captures, im: Images)
    requires Sound(s) && q.items == s.sync && q.enabled == s.enabled && (s.only ==> Synced(s.t, s.cs, s.im, c))
    requires c in s.clients || c in Ids(s.pending.color) || c in Ids(s.pending.depth)
    requires CapturesBalanced(cs, AfterPublish(s, q, c, cs, im).owners) && Shown(s.cs, s.im, cs, im)
    ensures Sound(AfterPublish(s, q, c, cs, im))
  {
    hide CapturesBalanced, Shown, Push, Tracks, Synced, Plus, Minus;
    var s' := AfterPublish(s, q, c, cs, im);
    var rest := s.clients + multiset(Ids(s.pending.color)) + multiset(Ids(s.pending.depth));
    PushBooks(s.owners, rest, q, c);
    BookedIsLive(cs, s'.owners, s.clients, s.pending, s'.sync);
    TracksAgain(s.color, s.pending.color, COLOR, s.cs, s.im, cs, im);
    TracksAgain(s.depth, s.pending.depth, IR, s.cs, s.im, cs, im);
    PushDisabled(q, c);
    if s.only {
      PushSynced(s.t, s.cs, s.im, q, c);
      SyncedAgain(s.t, s'.sync, s.cs, s.im, cs, im);
    }
  }

  /** A capture held elsewhere can be pushed: its reference is not one of the output queue's. */
  lemma PublishShare(s: Snap, c: CaptureId)
    requires Sound(s) && (c in s.clients || c in Ids(s.pending.color) || c in Ids(s.pending.depth))
    ensures Plus(multiset(s.sync), Some(c)) <= s.owners
  {
    hide CapturesBalanced, Tracks, AllSynced, ImageBooks;
    if c in Ids(s.pending.color) {
      assert c in multiset(Ids(s.pending.color));
    } else if c in Ids(s.pending.depth) {
      assert c in multiset(Ids(s.pending.depth));
    }
  }

  lemma PushDisabled(q: Queue, c: CaptureId)
    ensures Push(q, c, false).queue.enabled == q.enabled
    ensures !q.enabled ==> Push(q, c, false) == PushStep(q, None, false, None)
  {
  }

  // ---------- Dropping the held sample ----------

  /** The frame's new contents once its oldest sample has gone. */
  ghost predicate Advanced(f: Frame, rest: seq<Sample>, slot: nat, cs: Captures, im: Images) {
    if rest == [] then f.capture == None && f.image == None && f.items == []
    else
      && f.capture == Some(rest[0].id) && f.image.Some? && f.items == Ids(rest[1..])
      && Carries(cs, im, rest[0].id, slot, f.image.value, f.ts)
  }

  function AfterDrop(s: Snap, color: bool, f: Frame, cs: Captures, im: Images): Snap
    requires Side(s.pending, color) != []
  {
    var q := Side(s.pending, color);
    SetFrame(s, color, f).(cs := cs, im := im, owners := s.owners - multiset{q[0].id},
      imageOwners := Plus(Minus(s.imageOwners, FrameOf(s, color).image), f.image),
      pending := SetSide(s.pending, color, q[1..]))
  }

  lemma PlusSwap(m: multiset<ImageId>, a: Option<ImageId>, b: Option<ImageId>)
    ensures Plus(Plus(m, a), b) == Plus(Plus(m, b), a)
  {
  }

  lemma PlusHas(m: multiset<ImageId>, a: Option<ImageId>)
    ensures a.Some? ==> a.value in Plus(m, a)
  {
  }

  lemma PlusThenMinus(m: multiset<ImageId>, a: Option<ImageId>)
    ensures Minus(Plus(m, a), a) == m
  {
  }

  lemma DropImageBooks(owners: multiset<ImageId>, clients: multiset<ImageId>, a: Option<ImageId>, b: Option<ImageId>,
                       c: Option<ImageId>)
    requires ImageBooks(owners, clients, a, b)
    ensures ImageBooks(Plus(Minus(owners, a), c), clients, c, b)
    ensures ImageBooks(Plus(Minus(owners, b), c), clients, a, c)
  {
    hide Plus, Minus;
    PlusSwap(clients, a, b);
    PlusThenMinus(Plus(clients, b), a);
    PlusSwap(clients, b, c);
    PlusThenMinus(Plus(clients, a), b);
  }

  lemma DropBooks(owners: multiset<CaptureId>, clients: multiset<CaptureId>, p: Pending, sync: seq<CaptureId>, color: bool)
    requires Books(owners, clients, p, sync) && Side(p, color) != []
    ensures var q := Side(p, color); Books(owners - multiset{q[0].id}, clients, SetSide(p, color, q[1..]), sync)
  {
    IdsSplit(Side(p, color));
  }

  lemma DropKeeps(s: Snap, color: bool, f: Frame, cs: Captures, im: Images)
    requires Sound(s) && Side(s.pending, color) != [] && Shown(s.cs, s.im, cs, im)
    requires CapturesBalanced(cs, AfterDrop(s, color, f, cs, im).owners)
    requires Advanced(f, Side(s.pending, color)[1..], SlotFor(color), cs, im)
    ensures Sound(AfterDrop(s, color, f, cs, im))
  {
    hide CapturesBalanced, ImageBooks, Books, Plus, Minus, Tracks, Advanced, Shown, AllSynced, Apart;
    var s' := AfterDrop(s, color, f, cs, im);
    var q := Side(s.pending, color);
    DropBooks(s.owners, s.clients, s.pending, s.sync, color);
    BookedIsLive(cs, s'.owners, s.clients, s'.pending, s.sync);
    DropImageBooks(s.imageOwners, s.clientImages, s.color.image, s.depth.image, f.image);
    TailTracks(FrameOf(s, color), f, q, SlotFor(color), s.cs, s.im, cs, im);
    OtherTracks(s, !color, cs, im);
    TailIsApart(s.pending, color);
    if FrameOf(s, color).items == [] {
      EmptyRingStays(FrameOf(s, color), f, q, SlotFor(color), s.cs, s.im, cs, im);
    }
    if s.only {
      SyncedAgain(s.t, s.sync, s.cs, s.im, cs, im);
    }
  }

  lemma TailIsApart(p: Pending, color: bool)
    requires Apart(p) && Side(p, color) != []
    ensures Apart(SetSide(p, color, Side(p, color)[1..]))
  {
  }

  lemma EmptyRingStays(f: Frame, f': Frame, q: seq<Sample>, slot: nat, cs: Captures, im: Images, cs': Captures, im': Images)
    requires q != [] && Tracks(f, q, slot, cs, im) && Advanced(f', q[1..], slot, cs', im') && f.items == []
    ensures f'.items == []
  {
  }

  lemma OtherTracks(s: Snap, color: bool, cs: Captures, im: Images)
    requires Sound(s) && Shown(s.cs, s.im, cs, im)
    requires forall k :: 0 <= k < |Side(s.pending, color)| ==> Side(s.pending, color)[k].id in cs.live
    ensures Tracks(FrameOf(s, color), Side(s.pending, color), SlotFor(color), cs, im)
  {
    TracksAgain(FrameOf(s, color), Side(s.pending, color), SlotFor(color), s.cs, s.im, cs, im);
  }

  lemma TailTracks(f: Frame, f': Frame, q: seq<Sample>, slot: nat, cs: Captures, im: Images, cs': Captures, im': Images)
    requires q != [] && Tracks(f, q, slot, cs, im) && Shown(cs, im, cs', im') && Advanced(f', q[1..], slot, cs', im')
    requires forall k :: 0 <= k < |q[1..]| ==> q[1..][k].id in cs'.live
    ensures Tracks(f', q[1..], slot, cs', im')
  {
    var rest := q[1..];
    forall k | 0 <= k < |rest| ensures SlotTime(im', cs'.live, rest[k].id, slot) == Some(rest[k].ts) {
      assert rest[k] == q[k + 1];
    }
  }

  // ---------- Linking the color image into the depth capture ----------

  /** Only the color slot of d has changed, to an image of timestamp ts. */
  ghost predicate Relinked(cs: Captures, im: Images, cs': Captures, im': Images, d: CaptureId, ts: nat) {
    && d in cs'.live && SlotTime(im', cs'.live, d, COLOR) == Some(ts)
    && (forall c :: c in cs'.live ==> c in cs.live && |cs'.live[c].image| == |cs.live[c].image|)
    && (forall c, k: nat :: c in cs'.live && k < |cs'.live[c].image| && !(c == d && k == COLOR) ==>
          cs'.live[c].image[k] == cs.live[c].image[k])
    && (forall c, k: nat :: c in cs'.live && !(c == d && k == COLOR) ==>
          SlotTime(im', cs'.live, c, k) == SlotTime(im, cs.live, c, k))
  }

  lemma SetRelinks(cs: Captures, im: Images, cs': Captures, im': Images, d: CaptureId, image: Option<ImageId>, ts: nat)
    requires d in cs.live && COLOR < |cs.live[d].image| && cs'.live == WithSlot(cs.live, d, COLOR, image)
    requires SlotTime(im', cs'.live, d, COLOR) == Some(ts)
    requires forall c, k: nat :: !(c == d && k == COLOR) && c in cs'.live ==>
               SlotTime(im', cs'.live, c, k) == SlotTime(im, cs.live, c, k)
    ensures Relinked(cs, im, cs', im', d, ts)
  {
  }

  lemma RelinkedBetween(cs0: Captures, im0: Images, cs1: Captures, im1: Images, cs2: Captures, im2: Images,
                        cs3: Captures, im3: Images, d: CaptureId, ts: nat)
    requires Shown(cs0, im0, cs1, im1) && Relinked(cs1, im1, cs2, im2, d, ts) && Shown(cs2, im2, cs3, im3)
    requires d in cs3.live
    ensures Relinked(cs0, im0, cs3, im3, d, ts)
  {
  }

  lemma RelinkedTracks(f: Frame, q: seq<Sample>, slot: nat, cs: Captures, im: Images, cs': Captures, im': Images,
                       d: CaptureId, ts: nat)
    requires Tracks(f, q, slot, cs, im) && Relinked(cs, im, cs', im', d, ts)
    requires forall k :: 0 <= k < |q| ==> q[k].id in cs'.live && (slot != COLOR || q[k].id != d)
    ensures Tracks(f, q, slot, cs', im')
  {
  }

  lemma RelinkedSynced(t: Timing, sync: seq<CaptureId>, cs: Captures, im: Images, cs': Captures, im': Images,
                       d: CaptureId, color: nat, depth: nat)
    requires AllSynced(t, cs, im, sync) && Relinked(cs, im, cs', im', d, color)
    requires forall k :: 0 <= k < |sync| ==> sync[k] in cs'.live
    requires SlotTime(im, cs.live, d, IR) == Some(depth) && Matches(t, color, depth)
    ensures AllSynced(t, cs', im', sync)
  {
  }

  lemma MergeKeeps(s: Snap, cs: Captures, im: Images)
    requires Sound(s) && s.pending.color != [] && s.pending.depth != []
    requires Matches(s.t, s.pending.color[0].ts, s.pending.depth[0].ts)
    requires CapturesBalanced(cs, s.owners)
    requires Relinked(s.cs, s.im, cs, im, s.pending.depth[0].id, s.pending.color[0].ts)
    ensures Sound(s.(cs := cs, im := im)) && Synced(s.t, cs, im, s.pending.depth[0].id)
    ensures Steady(s.t, s.pending.depth, s.cs, s.im, cs, im)
    ensures Linked(cs, im, Merged(s.pending.color[0], s.pending.depth[0]))
  {
    hide CapturesBalanced, Books, ImageBooks, Plus;
    RelinkedIsSteady(s.t, s.pending.depth, s.cs, s.im, cs, im, s.pending.color[0].ts);
    var d, color, depth := s.pending.depth[0].id, s.pending.color[0].ts, s.pending.depth[0].ts;
    BookedIsLive(cs, s.owners, s.clients, s.pending, s.sync);
    RelinkedTracks(s.color, s.pending.color, COLOR, s.cs, s.im, cs, im, d, color);
    RelinkedTracks(s.depth, s.pending.depth, IR, s.cs, s.im, cs, im, d, color);
    if s.only {
      RelinkedSynced(s.t, s.sync, s.cs, s.im, cs, im, d, color, depth);
    }
  }

  /** Captures that were synchronised still are, if they are alive; and timestamps stay, but for the color slots of
      the captures of q. */
  ghost predicate Steady(t: Timing, q: seq<Sample>, cs: Captures, im: Images, cs': Captures, im': Images) {
    && (forall c :: c in cs'.live ==> c in cs.live)
    && (forall c :: c in cs'.live && Synced(t, cs, im, c) ==> Synced(t, cs', im', c))
    && (forall c, k: nat :: c in cs'.live && (k == COLOR ==> NotPending(q, c)) ==>
          SlotTime(im', cs'.live, c, k) == SlotTime(im, cs.live, c, k))
  }

  lemma ShownIsSteady(t: Timing, q: seq<Sample>, cs: Captures, im: Images, cs': Captures, im': Images)
    requires Shown(cs, im, cs', im')
    ensures Steady(t, q, cs, im, cs', im')
  {
  }

  /** No capture of later is missing from q. */
  ghost predicate Within(later: seq<Sample>, q: seq<Sample>) {
    forall c :: NotPending(q, c) ==> NotPending(later, c)
  }

  lemma SteadyThrough(t: Timing, q: seq<Sample>, later: seq<Sample>, cs: Captures, im: Images, cs1: Captures, im1: Images,
                      cs2: Captures, im2: Images)
    requires Steady(t, q, cs, im, cs1, im1) && Steady(t, later, cs1, im1, cs2, im2) && Within(later, q)
    ensures Steady(t, q, cs, im, cs2, im2)
  {
    hide Synced, NotPending;
  }

  lemma RelinkedIsSteady(t: Timing, q: seq<Sample>, cs: Captures, im: Images, cs': Captures, im': Images, color: nat)
    requires q != [] && Relinked(cs, im, cs', im', q[0].id, color)
    requires SlotTime(im, cs.live, q[0].id, IR) == Some(q[0].ts) && Matches(t, color, q[0].ts)
    ensures Steady(t, q, cs, im, cs', im')
  {
    hide Matches;
  }

  lemma TurnIsWithin(t: Timing, p: Pending)
    requires p.color != [] && p.depth != []
    ensures Within(Turn(t, p).1.depth, p.depth)
  {
    hide Judge;
  }

  lemma WithinItself(q: seq<Sample>)
    ensures Within(q, q)
  {
  }

  lemma WithinThrough(a: seq<Sample>, b: seq<Sample>, c: seq<Sample>)
    requires Within(a, b) && Within(b, c)
    ensures Within(a, c)
  {
    hide NotPending;
  }

  /** A merge linked the very samples it logged, as long as the capture is alive. */
  ghost predicate Linked(cs: Captures, im: Images, e: Event) {
    e.Merged? && e.depth.id in cs.live ==>
      && SlotTime(im, cs.live, e.depth.id, COLOR) == Some(e.color.ts)
      && SlotTime(im, cs.live, e.depth.id, IR) == Some(e.depth.ts)
  }

  lemma LinkedStill(cs: Captures, im: Images, cs': Captures, im': Images, e: Event)
    requires Linked(cs, im, e) && Shown(cs, im, cs', im')
    ensures Linked(cs', im', e)
  {
  }

  /** The captures of the merges among some events carry images that belong together, as long as they are alive. */
  ghost predicate MergedSynced(t: Timing, cs: Captures, im: Images, es: seq<Event>) {
    forall k :: 0 <= k < |es| && es[k].Merged? && es[k].depth.id in cs.live ==> Synced(t, cs, im, es[k].depth.id)
  }

  lemma MergedOneMore(t: Timing, cs: Captures, im: Images, cs': Captures, im': Images, es: seq<Event>, p: Pending)
    requires p.color != [] && p.depth != []
    requires MergedSynced(t, cs, im, es) && Steady(t, p.depth, cs, im, cs', im') && Linked(cs', im', Turn(t, p).0)
    ensures MergedSynced(t, cs', im', es + [Turn(t, p).0])
  {
    JudgePairsExactlyMatches(t, p.color[0].ts, p.depth[0].ts);
  }

  // ---------- Taking a sample in ----------

  lemma AddBooks(owners: multiset<CaptureId>, clients: multiset<CaptureId>, p: Pending, sync: seq<CaptureId>, color: bool, x: Sample)
    requires Books(owners, clients, p, sync)
    ensures Books(owners + multiset{x.id}, clients, SetSide(p, color, Side(p, color) + [x]), sync)
  {
    IdsSnoc(Side(p, color), x);
  }

  lemma AddIsApart(p: Pending, color: bool, x: Sample)
    requires Apart(p) && NotPending(Side(p, !color), x.id)
    ensures Apart(SetSide(p, color, Side(p, color) + [x]))
  {
  }

  /** One more sample at the end, in the held slot if that was empty and else in the ring. */
  function AfterAdd(s: Snap, color: bool, x: Sample, f: Frame, cs: Captures, im: Images): Snap {
    SetFrame(s, color, f).(cs := cs, im := im, owners := s.owners + multiset{x.id},
      imageOwners := if Side(s.pending, color) == [] then Plus(s.imageOwners, f.image) else s.imageOwners,
      pending := SetSide(s.pending, color, Side(s.pending, color) + [x]))
  }

  ghost predicate TookIn(s: Snap, color: bool, x: Sample, f: Frame, cs: Captures, im: Images) {
    var g := FrameOf(s, color);
    && (Side(s.pending, color) == [] ==>
          && f.capture == Some(x.id) && f.ts == x.ts && f.image.Some? && f.items == g.items
          && Carries(cs, im, x.id, SlotFor(color), f.image.value, x.ts))
    && (Side(s.pending, color) != [] ==> s.enabled && f == g.(items := g.items + [x.id]))
  }

  lemma AddImageBooks(owners: multiset<ImageId>, clients: multiset<ImageId>, a: Option<ImageId>, b: Option<ImageId>,
                      c: Option<ImageId>)
    requires ImageBooks(owners, clients, a, b)
    ensures a == None ==> ImageBooks(Plus(owners, c), clients, c, b)
    ensures b == None ==> ImageBooks(Plus(owners, c), clients, a, c)
  {
    PlusSwap(clients, b, c);
  }

  lemma AddTracks(f: Frame, f': Frame, q: seq<Sample>, x: Sample, slot: nat, cs: Captures, im: Images, cs': Captures, im': Images)
    requires Tracks(f, q, slot, cs, im) && Shown(cs, im, cs', im')
    requires forall k :: 0 <= k < |q| ==> q[k].id in cs'.live
    requires SlotTime(im', cs'.live, x.id, slot) == Some(x.ts)
    requires q == [] ==> f'.capture == Some(x.id) && f'.ts == x.ts && f'.image.Some? && f'.items == f.items
                         && Carries(cs', im', x.id, slot, f'.image.value, x.ts)
    requires q != [] ==> f' == f.(items := f.items + [x.id])
    ensures Tracks(f', q + [x], slot, cs', im')
  {
    TracksAgain(f, q, slot, cs, im, cs', im');
    if q != [] {
      assert (q + [x])[1..] == q[1..] + [x];
      IdsSnoc(q[1..], x);
    } else {
      assert (q + [x])[1..] == [];
    }
  }

  lemma AddKeeps(s: Snap, color: bool, x: Sample, f: Frame, cs: Captures, im: Images)
    requires Sound(s) && Shown(s.cs, s.im, cs, im) && NotPending(Side(s.pending, !color), x.id)
    requires CapturesBalanced(cs, AfterAdd(s, color, x, f, cs, im).owners)
    requires TookIn(s, color, x, f, cs, im) && SlotTime(im, cs.live, x.id, SlotFor(color)) == Some(x.ts)
    ensures Sound(AfterAdd(s, color, x, f, cs, im))
  {
    hide CapturesBalanced, ImageBooks, Books, Plus, Minus, Shown, AllSynced, Apart;
    var s' := AfterAdd(s, color, x, f, cs, im);
    var q := Side(s.pending, color);
    AddBooks(s.owners, s.clients, s.pending, s.sync, color, x);
    AddIsApart(s.pending, color, x);
    BookedIsLive(cs, s'.owners, s.clients, s'.pending, s.sync);
    forall k | 0 <= k < |q| ensures q[k].id in cs.live {
      assert (q + [x])[k] == q[k];
    }
    AddImageBooks(s.imageOwners, s.clientImages, s.color.image, s.depth.image, f.image);
    AddTracks(FrameOf(s, color), f, q, x, SlotFor(color), s.cs, s.im, cs, im);
    OtherTracks(s, !color, cs, im);
    if s.only {
      SyncedAgain(s.t, s.sync, s.cs, s.im, cs, im);
    }
  }

  // ---------- Overflow ----------

  /** The ring was full: its oldest sample has come out, into the caller's hands, and the new one has gone in. */
  function AfterPushOut(s: Snap, color: bool, x: Sample, cs: Captures, im: Images): Snap
    requires |Side(s.pending, color)| > 1
  {
    var q, g := Side(s.pending, color), FrameOf(s, color);
    SetFrame(s, color, g.(items := Ids(q[2..] + [x]))).(cs := cs, im := im, owners := s.owners + multiset{x.id},
      clients := s.clients + multiset{q[1].id}, pending := SetSide(s.pending, color, [q[0]] + (q[2..] + [x])))
  }

  lemma PushOutBooks(owners: multiset<CaptureId>, clients: multiset<CaptureId>, p: Pending, sync: seq<CaptureId>,
                     color: bool, x: Sample)
    requires Books(owners, clients, p, sync) && |Side(p, color)| > 1
    ensures var q := Side(p, color);
            Books(owners + multiset{x.id}, clients + multiset{q[1].id}, SetSide(p, color, [q[0]] + (q[2..] + [x])), sync)
  {
    var q := Side(p, color);
    IdsSplit(q);
    IdsSplit(q[1..]);
    assert q[1..][1..] == q[2..];
    IdsSnoc(q[2..], x);
    var q' := [q[0]] + (q[2..] + [x]);
    IdsSplit(q');
    assert q'[1..] == q[2..] + [x];
  }

  lemma PushOutTracks(f: Frame, q: seq<Sample>, x: Sample, slot: nat, cs: Captures, im: Images, cs': Captures, im': Images)
    requires |q| > 1 && Tracks(f, q, slot, cs, im) && Shown(cs, im, cs', im')
    requires var q' := [q[0]] + (q[2..] + [x]); forall k :: 0 <= k < |q'| ==> q'[k].id in cs'.live
    requires SlotTime(im', cs'.live, x.id, slot) == Some(x.ts)
    ensures Tracks(f.(items := Ids(q[2..] + [x])), [q[0]] + (q[2..] + [x]), slot, cs', im')
  {
    var q' := [q[0]] + (q[2..] + [x]);
    assert q'[1..] == q[2..] + [x] && q'[0] == q[0];
    forall k | 0 <= k < |q'| ensures SlotTime(im', cs'.live, q'[k].id, slot) == Some(q'[k].ts) {
      if 0 < k < |q'| - 1 {
        assert q'[k] == q[k + 1];
      }
    }
  }

  lemma PushOutIsApart(p: Pending, color: bool, x: Sample)
    requires Apart(p) && NotPending(Side(p, !color), x.id) && |Side(p, color)| > 1
    ensures Apart(SetSide(p, color, [Side(p, color)[0]] + (Side(p, color)[2..] + [x])))
  {
  }

  lemma PushOutKeeps(s: Snap, color: bool, x: Sample, cs: Captures, im: Images)
    requires Sound(s) && s.enabled && |Side(s.pending, color)| > 1 && Shown(s.cs, s.im, cs, im)
    requires NotPending(Side(s.pending, !color), x.id)
    requires CapturesBalanced(cs, AfterPushOut(s, color, x, cs, im).owners)
    requires SlotTime(im, cs.live, x.id, SlotFor(color)) == Some(x.ts)
    ensures Sound(AfterPushOut(s, color, x, cs, im))
  {
    hide CapturesBalanced, ImageBooks, Books, Plus, Minus, Shown, AllSynced, Apart, Tracks;
    var s' := AfterPushOut(s, color, x, cs, im);
    PushOutBooks(s.owners, s.clients, s.pending, s.sync, color, x);
    PushOutIsApart(s.pending, color, x);
    BookedIsLive(cs, s'.owners, s'.clients, s'.pending, s.sync);
    PushOutTracks(FrameOf(s, color), Side(s.pending, color), x, SlotFor(color), s.cs, s.im, cs, im);
    OtherTracks(s, !color, cs, im);
    if s.only {
      SyncedAgain(s.t, s.sync, s.cs, s.im, cs, im);
    }
  }

  /** The held sample has gone and y, which the caller had in its hands, has taken its place. */
  function AfterReplace(s: Snap, color: bool, y: Sample, f: Frame, cs: Captures, im: Images): Snap
    requires Side(s.pending, color) != []
  {
    var q := Side(s.pending, color);
    SetFrame(s, color, f).(cs := cs, im := im, owners := s.owners - multiset{q[0].id}, clients := s.clients - multiset{y.id},
      imageOwners := Plus(Minus(s.imageOwners, FrameOf(s, color).image), f.image),
      pending := SetSide(s.pending, color, [y] + q[1..]))
  }

  lemma ReplaceBooks(owners: multiset<CaptureId>, clients: multiset<CaptureId>, p: Pending, sync: seq<CaptureId>,
                     color: bool, y: Sample)
    requires Books(owners, clients, p, sync) && Side(p, color) != [] && y.id in clients
    ensures var q := Side(p, color);
            Books(owners - multiset{q[0].id}, clients - multiset{y.id}, SetSide(p, color, [y] + q[1..]), sync)
  {
    var q := Side(p, color);
    IdsSplit(q);
    IdsSplit([y] + q[1..]);
    assert ([y] + q[1..])[1..] == q[1..];
  }

  lemma ReplaceTracks(f: Frame, f': Frame, q: seq<Sample>, y: Sample, slot: nat, cs: Captures, im: Images,
                      cs': Captures, im': Images)
    requires q != [] && Tracks(f, q, slot, cs, im) && Shown(cs, im, cs', im')
    requires forall k :: 0 <= k < |[y] + q[1..]| ==> ([y] + q[1..])[k].id in cs'.live
    requires f'.capture == Some(y.id) && f'.ts == y.ts && f'.image.Some? && f'.items == f.items
    requires Carries(cs', im', y.id, slot, f'.image.value, y.ts)
    ensures Tracks(f', [y] + q[1..], slot, cs', im')
  {
    var q' := [y] + q[1..];
    assert q'[1..] == q[1..];
    forall k | 0 <= k < |q'| ensures SlotTime(im', cs'.live, q'[k].id, slot) == Some(q'[k].ts) {
      if 0 < k {
        assert q'[k] == q[k];
      }
    }
  }

  lemma ReplaceIsApart(p: Pending, color: bool, y: Sample)
    requires Apart(p) && NotPending(Side(p, !color), y.id) && Side(p, color) != []
    ensures Apart(SetSide(p, color, [y] + Side(p, color)[1..]))
  {
  }

  lemma ReplaceKeeps(s: Snap, color: bool, y: Sample, f: Frame, cs: Captures, im: Images)
    requires Sound(s) && s.enabled && Side(s.pending, color) != [] && Shown(s.cs, s.im, cs, im)
    requires NotPending(Side(s.pending, !color), y.id) && y.id in s.clients
    requires CapturesBalanced(cs, AfterReplace(s, color, y, f, cs, im).owners)
    requires f.capture == Some(y.id) && f.ts == y.ts && f.image.Some? && f.items == FrameOf(s, color).items
    requires Carries(cs, im, y.id, SlotFor(color), f.image.value, y.ts)
    ensures Sound(AfterReplace(s, color, y, f, cs, im))
  {
    hide CapturesBalanced, ImageBooks, Books, Plus, Minus, Shown, AllSynced, Apart, Tracks;
    var s' := AfterReplace(s, color, y, f, cs, im);
    ReplaceBooks(s.owners, s.clients, s.pending, s.sync, color, y);
    ReplaceIsApart(s.pending, color, y);
    BookedIsLive(cs, s'.owners, s'.clients, s'.pending, s.sync);
    DropImageBooks(s.imageOwners, s.clientImages, s.color.image, s.depth.image, f.image);
    ReplaceTracks(FrameOf(s, color), f, Side(s.pending, color), y, SlotFor(color), s.cs, s.im, cs, im);
    OtherTracks(s, !color, cs, im);
    if s.only {
      SyncedAgain(s.t, s.sync, s.cs, s.im, cs, im);
    }
  }

  // ---------- The consumer ----------

  lemma TakeKeeps(s: Snap)
    requires Sound(s) && s.sync != []
    ensures Sound(s.(sync := s.sync[1..], clients := s.clients + multiset{s.sync[0]}))
    ensures s.only ==> Synced(s.t, s.cs, s.im, s.sync[0])
  {
    hide CapturesBalanced, Tracks, ImageBooks;
    assert s.sync == [s.sync[0]] + s.sync[1..];
    assert multiset(s.sync) == multiset{s.sync[0]} + multiset(s.sync[1..]);
  }

  /** What a pop hands to its caller. */
  function Handed(o: PopOutcome): Option<CaptureId> {
    if o.Waiting? then None else o.capture
  }

  /** Pops hand out the oldest capture or nothing, and release nothing, as a disabled queue is empty. */
  ghost predicate Takes(q: Queue, p: PopStep) {
    && p.released == None && p.queue.enabled == q.enabled
    && (Handed(p.outcome) == None ==> p.queue.items == q.items)
    && (Handed(p.outcome) != None ==> q.items != [] && Handed(p.outcome) == Some(q.items[0]) && p.queue.items == q.items[1..])
  }

  lemma StartTakes(q: Queue, wait: int)
    requires !q.enabled ==> q.items == []
    ensures Takes(q, PopStart(q, wait))
  {
  }

  lemma ResumeTakes(q: Queue, posted: bool)
    requires (!q.enabled ==> q.items == []) && 0 < q.blocked
    ensures Takes(q, PopResume(q, posted))
  {
  }

  lemma OutputShare(s: Snap)
    requires Sound(s)
    ensures multiset(s.sync) <= s.owners && (!s.enabled ==> s.sync == []) && Minus(s.owners, None) == s.owners
  {
    hide CapturesBalanced, Tracks, ImageBooks, AllSynced;
  }

  // ---------- Clients giving handles back ----------

  function AfterClientGone(s: Snap, c: CaptureId, cs: Captures, im: Images): Snap {
    s.(cs := cs, im := im, owners := Minus(s.owners, Some(c)), clients := s.clients - multiset{c})
  }

  lemma ClientGone(s: Snap, c: CaptureId, cs: Captures, im: Images)
    requires Sound(s) && c in s.clients && Shown(s.cs, s.im, cs, im)
    requires CapturesBalanced(cs, AfterClientGone(s, c, cs, im).owners)
    ensures Sound(AfterClientGone(s, c, cs, im))
  {
    hide CapturesBalanced, ImageBooks, Shown, Tracks, AllSynced;
    var s' := AfterClientGone(s, c, cs, im);
    BookedIsLive(cs, s'.owners, s'.clients, s.pending, s.sync);
    TracksAgain(s.color, s.pending.color, COLOR, s.cs, s.im, cs, im);
    TracksAgain(s.depth, s.pending.depth, IR, s.cs, s.im, cs, im);
    if s.only {
      SyncedAgain(s.t, s.sync, s.cs, s.im, cs, im);
    }
  }

  function AfterClientImageGone(s: Snap, i: ImageId, cs: Captures, im: Images): Snap {
    s.(cs := cs, im := im, imageOwners := Minus(s.imageOwners, Some(i)), clientImages := s.clientImages - multiset{i})
  }

  lemma ClientImageIsOwned(s: Snap, i: ImageId)
    requires Sound(s) && i in s.clientImages
    ensures i in s.imageOwners
  {
    hide CapturesBalanced, Tracks, AllSynced, Books;
  }

  lemma LessImageBooks(owners: multiset<ImageId>, clients: multiset<ImageId>, a: Option<ImageId>, b: Option<ImageId>, i: ImageId)
    requires ImageBooks(owners, clients, a, b) && i in clients
    ensures ImageBooks(Minus(owners, Some(i)), clients - multiset{i}, a, b)
  {
    assert clients == (clients - multiset{i}) + multiset{i};
    hide Plus, Minus;
    var rest := clients - multiset{i};
    PlusOne(rest, i);
    PlusSwap(rest, Some(i), a);
    PlusSwap(Plus(rest, a), Some(i), b);
    PlusThenMinus(Plus(Plus(rest, a), b), Some(i));
  }

  lemma PlusOne(m: multiset<ImageId>, i: ImageId)
    ensures Plus(m, Some(i)) == m + multiset{i}
  {
  }

  lemma ClientImageGone(s: Snap, i: ImageId, cs: Captures, im: Images)
    requires Sound(s) && i in s.clientImages && Shown(s.cs, s.im, cs, im) && CapturesBalanced(cs, s.owners)
    ensures Sound(AfterClientImageGone(s, i, cs, im))
  {
    hide CapturesBalanced, ImageBooks, Shown, Tracks, AllSynced, Books;
    StillSound(s, cs, im);
    LessImageBooks(s.imageOwners, s.clientImages, s.color.image, s.depth.image, i);
  }

  // ---------- Clients making captures and images, and taking handles ----------

  lemma ClientMore(s: Snap, c: CaptureId, cs: Captures, im: Images)
    requires Sound(s) && Shown(s.cs, s.im, cs, im) && CapturesBalanced(cs, s.owners + multiset{c})
    ensures Sound(s.(cs := cs, im := im, owners := s.owners + multiset{c}, clients := s.clients + multiset{c}))
  {
    hide CapturesBalanced, ImageBooks, Shown, Tracks, AllSynced;
    var owners := s.owners + multiset{c};
    BookedIsLive(cs, owners, s.clients + multiset{c}, s.pending, s.sync);
    TracksAgain(s.color, s.pending.color, COLOR, s.cs, s.im, cs, im);
    TracksAgain(s.depth, s.pending.depth, IR, s.cs, s.im, cs, im);
    if s.only {
      SyncedAgain(s.t, s.sync, s.cs, s.im, cs, im);
    }
  }

  lemma MoreImageBooks(owners: multiset<ImageId>, clients: multiset<ImageId>, a: Option<ImageId>, b: Option<ImageId>,
                       i: Option<ImageId>)
    requires ImageBooks(owners, clients, a, b)
    ensures ImageBooks(Plus(owners, i), Plus(clients, i), a, b)
  {
    hide Plus;
    PlusSwap(clients, i, a);
    PlusSwap(Plus(clients, a), i, b);
  }

  lemma ClientImageMore(s: Snap, i: Option<ImageId>, cs: Captures, im: Images)
    requires Sound(s) && Shown(s.cs, s.im, cs, im) && CapturesBalanced(cs, s.owners)
    ensures Sound(s.(cs := cs, im := im, imageOwners := Plus(s.imageOwners, i), clientImages := Plus(s.clientImages, i)))
  {
    hide CapturesBalanced, ImageBooks, Shown, Tracks, AllSynced, Books;
    StillSound(s, cs, im);
    MoreImageBooks(s.imageOwners, s.clientImages, s.color.image, s.depth.image, i);
  }

  /** Apart from slot k of c, whose image may be another one, nothing that was there shows anything else. */
  ghost predicate ElsewhereSame(cs: Captures, im: Images, cs': Captures, im': Images, c: CaptureId, k: nat) {
    forall d :: d in cs.live && d in cs'.live ==>
      && |cs'.live[d].image| == |cs.live[d].image|
      && (forall m: nat :: !(d == c && m == k) ==> SlotTime(im', cs'.live, d, m) == SlotTime(im, cs.live, d, m))
      && (forall m: nat :: !(d == c && m == k) && m < |cs.live[d].image| ==> cs'.live[d].image[m] == cs.live[d].image[m])
  }

  lemma ElsewhereTracks(f: Frame, q: seq<Sample>, slot: nat, cs: Captures, im: Images, cs': Captures, im': Images,
                        c: CaptureId, k: nat)
    requires Tracks(f, q, slot, cs, im) && ElsewhereSame(cs, im, cs', im', c, k)
    requires k == slot ==> NotPending(q, c)
    requires forall j :: 0 <= j < |q| ==> q[j].id in cs.live && q[j].id in cs'.live
    ensures Tracks(f, q, slot, cs', im')
  {
  }

  lemma ElsewhereSynced(t: Timing, sync: seq<CaptureId>, cs: Captures, im: Images, cs': Captures, im': Images,
                        c: CaptureId, k: nat)
    requires AllSynced(t, cs, im, sync) && ElsewhereSame(cs, im, cs', im', c, k)
    requires k != DEPTH ==> c !in sync
    requires forall j :: 0 <= j < |sync| ==> sync[j] in cs.live && sync[j] in cs'.live
    ensures AllSynced(t, cs', im', sync)
  {
  }

  /** A slot that the synchroniser does not go by: neither the timestamp of a pending sample nor what makes a
      capture of the output a synchronised one. */
  ghost predicate Unwatched(s: Snap, c: CaptureId, k: nat) {
    && (k == COLOR ==> NotPending(s.pending.color, c)) && (k == IR ==> NotPending(s.pending.depth, c))
    && (s.only && k != DEPTH ==> c !in s.sync)
  }

  /** A capture made or a slot set by a client keeps the state sound. */
  lemma ElsewhereSound(s: Snap, made: multiset<CaptureId>, cs: Captures, im: Images, c: CaptureId, k: nat)
    requires Sound(s) && ElsewhereSame(s.cs, s.im, cs, im, c, k) && Unwatched(s, c, k)
    requires CapturesBalanced(cs, s.owners + made)
    ensures Sound(s.(cs := cs, im := im, owners := s.owners + made, clients := s.clients + made))
  {
    hide CapturesBalanced, ImageBooks, Tracks, AllSynced, ElsewhereSame, NotPending;
    BookedIsLive(s.cs, s.owners, s.clients, s.pending, s.sync);
    BookedIsLive(cs, s.owners + made, s.clients + made, s.pending, s.sync);
    ElsewhereTracks(s.color, s.pending.color, COLOR, s.cs, s.im, cs, im, c, k);
    ElsewhereTracks(s.depth, s.pending.depth, IR, s.cs, s.im, cs, im, c, k);
    if s.only {
      ElsewhereSynced(s.t, s.sync, s.cs, s.im, cs, im, c, k);
    }
  }

  /** A new capture is nobody's. */
  lemma MadeIsUnwatched(s: Snap, c: CaptureId)
    requires Sound(s) && c !in s.cs.live
    ensures NotPending(s.pending.color, c) && NotPending(s.pending.depth, c) && c !in s.sync
  {
    hide Tracks, ImageBooks, AllSynced, Books;
    BookedIsLive(s.cs, s.owners, s.clients, s.pending, s.sync);
  }

  lemma MadeElsewhere(cs: Captures, im: Images, cs': Captures, c: CaptureId, e: Capture)
    requires c !in cs.live && cs'.live == cs.live[c := e]
    ensures ElsewhereSame(cs, im, cs', im, c, COLOR)
  {
  }

  lemma SetSound(s: Snap, c: CaptureId, k: nat, i: Option<ImageId>, cs: Captures, im: Images)
    requires Sound(s) && c in s.cs.live && k < |s.cs.live[c].image| && cs.live == WithSlot(s.cs.live, c, k, i)
    requires forall d, m: nat :: !(d == c && m == k) && d in cs.live ==>
               SlotTime(im, cs.live, d, m) == SlotTime(s.im, s.cs.live, d, m)
    requires Unwatched(s, c, k) && CapturesBalanced(cs, s.owners)
    ensures Sound(s.(cs := cs, im := im))
  {
    hide Sound, Unwatched, CapturesBalanced, SlotTime;
    assert s.owners + multiset{} == s.owners && s.clients + multiset{} == s.clients;
    ElsewhereSound(s, multiset{}, cs, im, c, k);
  }

  // ---------- Emptying the queues ----------

  function Head(q: seq<Sample>): seq<Sample> {
    if q == [] then [] else q[..1]
  }

  /** Only the held samples are left. */
  function Held(p: Pending): Pending {
    Pending(Head(p.color), Head(p.depth))
  }

  function AfterHalt(s: Snap, cs: Captures, im: Images): Snap {
    s.(color := s.color.(items := []), depth := s.depth.(items := []), sync := [], enabled := false, cs := cs, im := im,
       owners := s.owners - multiset(s.color.items) - multiset(s.depth.items) - multiset(s.sync), pending := Held(s.pending))
  }

  lemma HeadSplits(f: Frame, q: seq<Sample>, slot: nat, cs: Captures, im: Images)
    requires Tracks(f, q, slot, cs, im)
    ensures multiset(Ids(q)) == multiset(Ids(Head(q))) + multiset(f.items)
  {
    if q != [] {
      IdsSplit(q);
      assert Ids(Head(q)) == [q[0].id];
    }
  }

  /** The queues' shares of the references can be given back one after the other. */
  lemma QueueShares(s: Snap)
    requires Sound(s)
    ensures multiset(s.color.items) <= s.owners
    ensures multiset(s.depth.items) <= s.owners - multiset(s.color.items)
    ensures multiset(s.sync) <= s.owners - multiset(s.color.items) - multiset(s.depth.items)
    ensures multiset(s.sync) <= s.owners
    ensures multiset(s.depth.items) <= s.owners - multiset(s.sync)
    ensures multiset(s.color.items) <= s.owners - multiset(s.sync) - multiset(s.depth.items)
    ensures s.owners - multiset(s.sync) - multiset(s.depth.items) - multiset(s.color.items) == AfterHalt(s, s.cs, s.im).owners
  {
    hide CapturesBalanced, Tracks, ImageBooks, AllSynced;
    HeadSplits(s.color, s.pending.color, COLOR, s.cs, s.im);
    HeadSplits(s.depth, s.pending.depth, IR, s.cs, s.im);
    Remove(s.owners, multiset(s.sync), multiset(s.depth.items), multiset(s.color.items));
  }

  lemma Remove(m: multiset<CaptureId>, a: multiset<CaptureId>, b: multiset<CaptureId>, c: multiset<CaptureId>)
    ensures m - a - b - c == m - c - b - a
  {
  }

  lemma HeldTracks(f: Frame, q: seq<Sample>, slot: nat, cs: Captures, im: Images, cs': Captures, im': Images)
    requires Tracks(f, q, slot, cs, im) && Shown(cs, im, cs', im')
    requires forall k :: 0 <= k < |Head(q)| ==> Head(q)[k].id in cs'.live
    ensures Tracks(f.(items := []), Head(q), slot, cs', im')
  {
    TracksAgain(f.(items := []), Head(q), slot, cs, im, cs', im');
  }

  lemma HaltBooks(s: Snap)
    requires Sound(s)
    ensures var s' := AfterHalt(s, s.cs, s.im); Books(s'.owners, s.clients, s'.pending, [])
  {
    hide CapturesBalanced, Tracks, ImageBooks, AllSynced;
    HeadSplits(s.color, s.pending.color, COLOR, s.cs, s.im);
    HeadSplits(s.depth, s.pending.depth, IR, s.cs, s.im);
  }

  lemma HaltKeeps(s: Snap, cs: Captures, im: Images)
    requires Sound(s) && Shown(s.cs, s.im, cs, im) && CapturesBalanced(cs, AfterHalt(s, cs, im).owners)
    ensures Sound(AfterHalt(s, cs, im))
  {
    hide CapturesBalanced, ImageBooks, Books, Plus, Minus, Shown, Tracks;
    HaltBooks(s);
    var s' := AfterHalt(s, cs, im);
    BookedIsLive(cs, s'.owners, s.clients, s'.pending, []);
    HeldTracks(s.color, s.pending.color, COLOR, s.cs, s.im, cs, im);
    HeldTracks(s.depth, s.pending.depth, IR, s.cs, s.im, cs, im);
  }

  // ---------- Turns of the drain loop, seen from the log and from the output queue ----------

  const OUTPUT_CAPACITY: nat := 7

  /** What the output queue holds after some more captures were pushed: the newest seven, or nothing if disabled. */
  function Kept(enabled: bool, sync: seq<CaptureId>, out: seq<CaptureId>): seq<CaptureId> {
    if enabled then LastOf(sync + out, OUTPUT_CAPACITY) else sync
  }

  lemma KeptMore(enabled: bool, sync: seq<CaptureId>, a: seq<CaptureId>, b: seq<CaptureId>)
    ensures Kept(enabled, Kept(enabled, sync, a), b) == Kept(enabled, sync, a + b)
  {
    assert sync + (a + b) == (sync + a) + b;
  }

  lemma PushKeeps(q: Queue, c: CaptureId)
    requires q.capacity == OUTPUT_CAPACITY && |q.items| <= OUTPUT_CAPACITY
    ensures Push(q, c, false).queue.items == Kept(q.enabled, q.items, [c])
    ensures Kept(q.enabled, q.items, []) == q.items
  {
    assert q.items + [] == q.items;
  }

  function AfterTurn(t: Timing, st: Sync): Sync
    requires st.pending.color != [] && st.pending.depth != []
  {
    var (e, next) := Turn(t, st.pending);
    st.(pending := next, events := st.events + [e])
  }

  lemma TurnSettles(t: Timing, st: Sync)
    requires st.pending.color != [] && st.pending.depth != []
    ensures Settle(t, AfterTurn(t, st)) == Settle(t, st)
    ensures var next := AfterTurn(t, st).pending; |next.color| + |next.depth| < |st.pending.color| + |st.pending.depth|
  {
    var (e, next) := Turn(t, st.pending);
    assert (st.events + [e]) + Drain(t, next).events == st.events + ([e] + Drain(t, next).events);
  }

  lemma DrainedIsSettled(t: Timing, st: Sync)
    requires st.pending.color == [] || st.pending.depth == []
    ensures Settle(t, st) == st
  {
    assert st.events + [] == st.events;
  }

  lemma NothingOut(enabled: bool, sync: seq<CaptureId>, only: bool, es: seq<Event>)
    requires |sync| <= OUTPUT_CAPACITY
    ensures sync == Kept(enabled, sync, Outputs(only, es[|es|..]))
  {
    assert sync + [] == sync;
  }

  lemma OneMoreOut(enabled: bool, sync: seq<CaptureId>, only: bool, es: seq<Event>, now: seq<Event>, e: Event)
    requires es <= now
    ensures es <= now + [e]
    ensures Kept(enabled, Kept(enabled, sync, Outputs(only, now[|es|..])), Published(only, e)) ==
              Kept(enabled, sync, Outputs(only, (now + [e])[|es|..]))
  {
    var out := (now + [e])[|es|..];
    assert out[..|out| - 1] == now[|es|..] && out[|out| - 1] == e;
    KeptMore(enabled, sync, Outputs(only, now[|es|..]), Published(only, e));
  }

  function ArrivalOf(color: bool, x: Sample): Arrival {
    if color then FromColor(x) else FromDepth(x)
  }

  function EarlyEvents(color: bool, out: seq<Sample>): seq<Event> {
    if out == [] then [] else [if color then LoneColor(out[0]) else LoneDepth(out[0])]
  }

  lemma EnterIs(ring: nat, enabled: bool, st: Sync, color: bool, x: Sample)
    requires !color ==> !st.waiting
    ensures var (q, out) := Accept(ring, enabled, Side(st.pending, color), x);
            Enter(ring, enabled, st, ArrivalOf(color, x)) ==
              st.(pending := SetSide(st.pending, color, q), events := st.events + EarlyEvents(color, out))
  {
    hide Accept;
  }

  /** A sample pushed out by a newcomer is published alone. */
  lemma EarlyOut(q: Queue, only: bool, es: seq<Event>, color: bool, out: seq<Sample>)
    requires q.capacity == OUTPUT_CAPACITY && |q.items| <= OUTPUT_CAPACITY
    ensures var es' := es + EarlyEvents(color, out);
            (if out != [] && !only then Push(q, out[0].id, false).queue.items else q.items) ==
              Kept(q.enabled, q.items, Outputs(only, es'[|es|..]))
  {
    var early := EarlyEvents(color, out);
    assert (es + early)[|es|..] == early;
    if out == [] {
      assert Outputs(only, early) == [];
      PushKeeps(q, 0);
    } else {
      PushKeeps(q, out[0].id);
      assert early[..0] == [] && Outputs(only, early) == [] + Published(only, early[0]);
    }
  }

  lemma NothingMerged(t: Timing, cs: Captures, im: Images, es: seq<Event>)
    ensures MergedSynced(t, cs, im, Since(es, es))
  {
  }

  lemma SinceOneMore(es: seq<Event>, now: seq<Event>, e: Event)
    requires es <= now
    ensures Since(es, now + [e]) == Since(es, now) + [e]
  {
  }

  /** Entering a sample merges nothing. */
  lemma EarlyMergesNothing(t: Timing, cs: Captures, im: Images, es: seq<Event>, now: seq<Event>, end: seq<Event>)
    requires es <= now <= end && (forall k :: |es| <= k < |now| ==> !now[k].Merged?)
    requires MergedSynced(t, cs, im, Since(now, end))
    ensures MergedSynced(t, cs, im, Since(es, end))
  {
    hide Synced;
    var later, all := Since(now, end), Since(es, end);
    assert forall k :: 0 <= k < |all| ==> all[k] == end[|es| + k];
    assert forall k :: 0 <= k < |now| ==> end[k] == now[k];
    forall k | 0 <= k < |all| && all[k].Merged? && all[k].depth.id in cs.live ensures Synced(t, cs, im, all[k].depth.id) {
      assert all[k] == later[|es| + k - |now|];
    }
  }

  lemma EnterTrusts(ring: nat, enabled: bool, st: Sync, x: Sample)
    ensures Enter(ring, enabled, st.(waiting := false), FromDepth(x)) == Enter(ring, enabled, st, FromDepth(x))
  {
  }

  /** The depth capture that a call brings, whose color slot may come to be filled. */
  function Linkable(c: Option<CaptureId>, color: bool): seq<Sample> {
    if color || c == None then [] else [Sample(c.value, 0)]
  }

  lemma EnterIsWithin(ring: nat, enabled: bool, st: Sync, color: bool, x: Sample)
    ensures Within(Enter(ring, enabled, st, ArrivalOf(color, x)).pending.depth, st.pending.depth + Linkable(Some(x.id), color))
  {
    var q, later := st.pending.depth + Linkable(Some(x.id), color), Enter(ring, enabled, st, ArrivalOf(color, x)).pending.depth;
    forall c | NotPending(q, c) ensures NotPending(later, c) {
      assert forall k :: 0 <= k < |st.pending.depth| ==> q[k] == st.pending.depth[k];
      assert !color ==> q[|st.pending.depth|].id == x.id;
    }
  }

  /** Entering a sample only ever adds to the log, and so does the drain. */
  lemma EnterAdds(t: Timing, ring: nat, enabled: bool, st: Sync, color: bool, x: Sample)
    ensures var now := Enter(ring, enabled, st, ArrivalOf(color, x));
            && st.events <= now.events <= Settle(t, now).events
            && forall k :: |st.events| <= k < |now.events| ==> !now.events[k].Merged?
  {
  }

  lemma MoreOut(enabled: bool, sync: seq<CaptureId>, only: bool, es: seq<Event>, now: seq<Event>, end: seq<Event>)
    requires es <= now <= end
    ensures Kept(enabled, Kept(enabled, sync, Outputs(only, now[|es|..])), Outputs(only, end[|now|..])) ==
              Kept(enabled, sync, Outputs(only, end[|es|..]))
  {
    OutputsConcat(only, now[|es|..], end[|now|..]);
    assert end[|es|..] == now[|es|..] + end[|now|..];
    KeptMore(enabled, sync, Outputs(only, now[|es|..]), Outputs(only, end[|now|..]));
  }

  // ---------- Whole runs ----------

  /** No capture of the run comes from both sensors. */
  ghost predicate OneSensorEach(arrivals: seq<Arrival>) {
    forall j, k :: 0 <= j < |arrivals| && 0 <= k < |arrivals| && arrivals[j].FromColor? != arrivals[k].FromColor? ==>
      arrivals[j].sample.id != arrivals[k].sample.id
  }

  lemma RunOneMore(t: Timing, ring: nat, st: Sync, arrivals: seq<Arrival>, n: nat)
    requires 0 < t.period && n < |arrivals|
    ensures Run(t, ring, st, arrivals[..n + 1]) == Arrive(t, ring, true, Run(t, ring, st, arrivals[..n]), arrivals[n])
  {
    assert arrivals[..n + 1][..n] == arrivals[..n];
  }

  lemma ArriveAdds(t: Timing, ring: nat, st: Sync, a: Arrival)
    requires 0 < t.period
    ensures st.events <= Arrive(t, ring, true, st, a).events
  {
    hide Accept, Drain;
  }

  lemma {:induction false} DrainLeaves(t: Timing, p: Pending, side: bool, c: CaptureId)
    requires NotPending(Side(p, side), c)
    ensures NotPending(Side(Drain(t, p).rest, side), c)
    decreases |p.color| + |p.depth|
  {
    if p.color != [] && p.depth != [] {
      DrainLeaves(t, Turn(t, p).1, side, c);
    }
  }

  /** Nothing becomes pending for a sensor but what arrives from it. */
  lemma ArrivePending(t: Timing, ring: nat, enabled: bool, st: Sync, a: Arrival, side: bool, c: CaptureId)
    requires 0 < t.period && NotPending(Side(st.pending, side), c) && (a.FromColor? == side ==> a.sample.id != c)
    ensures NotPending(Side(Arrive(t, ring, enabled, st, a).pending, side), c)
  {
    if !Refused(t, st, a) {
      DrainLeaves(t, Enter(ring, enabled, st, a).pending, side, c);
    }
  }

  lemma MergedMore(t: Timing, q: seq<Sample>, cs: Captures, im: Images, cs': Captures, im': Images,
                   es: seq<Event>, now: seq<Event>, end: seq<Event>)
    requires es <= now <= end && Steady(t, q, cs, im, cs', im')
    requires MergedSynced(t, cs, im, Since(es, now)) && MergedSynced(t, cs', im', Since(now, end))
    ensures MergedSynced(t, cs', im', Since(es, end))
  {
    hide Synced, NotPending;
    var before, later, all := Since(es, now), Since(now, end), Since(es, end);
    forall k | 0 <= k < |all| && all[k].Merged? && all[k].depth.id in cs'.live ensures Synced(t, cs', im', all[k].depth.id) {
      if k < |before| {
        assert all[k] == before[k];
      } else {
        assert all[k] == later[k - |before|];
      }
    }
  }
}
