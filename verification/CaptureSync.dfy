/** The synchroniser: depth and color captures come in one by one and leave merged or alone through the output queue.

    Every method runs under the synchroniser's lock, as one step.
 */
module CaptureSync {
  import opened CaptureStore
  import opened QueueModel
  import opened RingQueue
  import opened Frames
  import opened CaptureSyncState
  import opened Pairing

  const QUEUE_DEFAULT_SIZE: nat := 15
  const MICRO_SECONDS: nat := 1000000

  datatype FramesPerSecond = FPS_5 | FPS_15 | FPS_30 | FPS_OTHER

  /** zsa_convert_fps_to_uint, in a build without assertions. */
  function ConvertFps(fps: FramesPerSecond): (rate: nat)
    ensures fps == FPS_OTHER <==> rate == 0
    ensures rate != 0 ==> MICRO_SECONDS / rate == match fps case FPS_5 => 200000 case FPS_15 => 66666 case _ => 33333
  {
    match fps
    case FPS_5 => 5
    case FPS_15 => 15
    case FPS_30 => 30
    case FPS_OTHER => 0
  }

  /** Fifteen samples fit behind the held one. */
  lemma FifteenFit(q: seq<Sample>, x: Sample)
    ensures |q| <= 15 ==> Accept(QUEUE_DEFAULT_SIZE, true, q, x) == (q + [x], [])
    ensures |q| == 16 ==> Accept(QUEUE_DEFAULT_SIZE, true, q, x) == (q[1..] + [x], [q[0]])
  {
    assert q == [] ==> q + [x] == [x];
  }

  class Context {
    const store: Store
    const color: FrameInfo
    const depthIr: FrameInfo
    const syncQueue: Ring
    const disableSync: bool
    var fpsPeriod: nat
    var fpsQuarterPeriod: nat
    var depthDelayOffColorUsec: int
    var syncCaptures: bool
    var synchronizedImagesOnly: bool
    var waitingForCleanDepthTs: bool
    var depthCapturesDropped: nat
    var running: bool
    /** What has been pending, merged, published alone and dropped so far. */
    ghost var log: Sync
    /** The output holds synchronised captures only: the mode asks for it, and the output was empty when it was chosen. */
    ghost var assured: bool
    /** The handles outside the synchroniser. */
    ghost var clients: multiset<CaptureId>
    ghost var clientImages: multiset<ImageId>

    ghost predicate Wired() {
      && color != depthIr && color.colorCapture && !depthIr.colorCapture
      && color.queue != depthIr.queue && color.queue != syncQueue && depthIr.queue != syncQueue
      && color.queue.queue != depthIr.queue.queue && color.queue.queue != syncQueue.queue
      && depthIr.queue.queue != syncQueue.queue
      && color.queue.capacity == QUEUE_DEFAULT_SIZE && depthIr.queue.capacity == QUEUE_DEFAULT_SIZE
      && syncQueue.capacity == QUEUE_DEFAULT_SIZE / 2
    }

    ghost predicate Rings()
      reads color.queue, color.queue.queue, depthIr.queue, depthIr.queue.queue, syncQueue, syncQueue.queue
    {
      && color.queue.Valid() && depthIr.queue.Valid() && syncQueue.Valid()
      && color.queue.enabled == syncQueue.enabled && depthIr.queue.enabled == syncQueue.enabled
    }

    function Clock(): Timing
      reads this
    {
      Timing(fpsPeriod, depthDelayOffColorUsec)
    }

    predicate Synchronising()
      reads this
    {
      syncCaptures && !disableSync
    }

    ghost predicate Config()
      reads this, syncQueue
    {
      && fpsQuarterPeriod == fpsPeriod / 4
      && log.waiting == waitingForCleanDepthTs && log.skipped == depthCapturesDropped
      && (running ==> 0 < fpsPeriod)
      && (assured ==> Synchronising() && synchronizedImagesOnly)
      && (!running ==> !syncQueue.enabled && log.pending == Pending([], []))
    }

    ghost function Snapshot(): Snap
      reads this, color, depthIr, color.queue, depthIr.queue, syncQueue, store
    {
      Snap(color.View(), depthIr.View(), syncQueue.items, syncQueue.enabled, assured, Clock(), store.captures, store.images,
           store.captureOwners, store.imageOwners, clients, clientImages, log.pending)
    }

    /** What holds between any two of the steps below. */
    ghost predicate Inv()
      reads this, color, depthIr, store
      reads color.queue, color.queue.queue, depthIr.queue, depthIr.queue.queue, syncQueue, syncQueue.queue
    {
      Wired() && Rings() && store.Valid() && Config() && Sound(Snapshot())
    }

    /** What holds between any two calls: besides, at most one sensor has anything pending. */
    ghost predicate Valid()
      reads this, color, depthIr, store
      reads color.queue, color.queue.queue, depthIr.queue, depthIr.queue.queue, syncQueue, syncQueue.queue
    {
      Inv() && Quiescent(log)
    }

    /** capturesync_create, for a queue size that queue_create accepts. References that exist already are the clients'. */
    constructor (store: Store, disableSync: bool)
      requires store.Valid()
      ensures Valid() && !running && this.store == store && this.disableSync == disableSync && log == Fresh.(waiting := false)
      ensures clients == store.captureOwners && clientImages == store.imageOwners
      ensures color.queue.capacity == depthIr.queue.capacity == 15 && syncQueue.capacity == 7
      ensures fresh(color) && fresh(depthIr) && fresh(color.queue) && fresh(color.queue.queue)
      ensures fresh(depthIr.queue) && fresh(depthIr.queue.queue) && fresh(syncQueue) && fresh(syncQueue.queue)
    {
      hide Sound, CapturesBalanced, ImagesBalanced, Window;
      var depthQueue := new Ring(QUEUE_DEFAULT_SIZE);
      var colorQueue := new Ring(QUEUE_DEFAULT_SIZE);
      this.store, this.disableSync := store, disableSync;
      color := new FrameInfo(true, colorQueue);
      depthIr := new FrameInfo(false, depthQueue);
      syncQueue := new Ring(QUEUE_DEFAULT_SIZE / 2);
      fpsPeriod, fpsQuarterPeriod, depthDelayOffColorUsec := 0, 0, 0;
      syncCaptures, synchronizedImagesOnly, waitingForCleanDepthTs, depthCapturesDropped := false, false, false, 0;
      running := false;
      log, assured := Fresh.(waiting := false), false;
      clients, clientImages := store.captureOwners, store.imageOwners;
      new;
      assert Wired();
      assert Rings();
      assert Config();
      NothingYet(Snapshot());
    }

    function Frame(colorCapture: bool): FrameInfo {
      if colorCapture then color else depthIr
    }

    // ---------- Steps of the proof ----------

    /** Once the queues and frames have moved, the ghost record follows. */
    ghost method Tell(s: Snap, now: Sync, held: multiset<CaptureId>)
      requires Wired() && Rings() && store.Valid() && Config() && (running || now.pending == Pending([], []))
      requires now.waiting == log.waiting && now.skipped == log.skipped
      requires Sound(s) && s == Snapshot().(pending := now.pending, clients := held)
      modifies this`log, this`clients
      ensures Inv() && log == now && clients == held
    {
      hide Sound, Rings;
      log, clients := now, held;
    }

    ghost method TellLog(s: Snap, now: Sync)
      requires Wired() && Rings() && store.Valid() && Config() && (running || now.pending == Pending([], []))
      requires now.waiting == log.waiting && now.skipped == log.skipped
      requires Sound(s) && s == Snapshot().(pending := now.pending)
      modifies this`log
      ensures Inv() && log == now
    {
      hide Sound, Rings;
      log := now;
    }

    lemma Told(s: Snap)
      requires Wired() && Rings() && store.Valid() && Config() && Sound(s) && s == Snapshot()
      ensures Inv()
    {
      hide Sound, Rings;
    }

    /** A step on one sensor's frame and ring changes the snapshot there and in the store's tables. */
    twostate lemma OnlyThisFrame(colorCapture: bool)
      requires Wired() && old(Rings())
      requires unchanged(this) && unchanged(Frame(!colorCapture)) && unchanged(Frame(!colorCapture).queue)
      requires unchanged(Frame(!colorCapture).queue.queue) && unchanged(syncQueue) && unchanged(syncQueue.queue)
      requires Frame(colorCapture).queue.Valid()
      requires Frame(colorCapture).queue.enabled == old(Frame(colorCapture).queue.enabled)
      ensures Rings()
      ensures Snapshot() == SetFrame(old(Snapshot()), colorCapture, Frame(colorCapture).View())
                              .(cs := store.captures, im := store.images, owners := store.captureOwners,
                                imageOwners := store.imageOwners)
    {
      hide Window;
    }

    // ---------- The output queue ----------

    /** queue_push on the output queue, of a capture that somebody else holds. */
    method Publish(c: CaptureId)
      requires Inv() && (c in clients || c in Ids(log.pending.color) || c in Ids(log.pending.depth))
      requires Snapshot().only ==> Synced(Clock(), store.captures, store.images, c)
      modifies syncQueue, syncQueue.queue, store`captures, store`images, store`captureOwners
      ensures Inv() && store.Shows() && syncQueue.enabled == old(syncQueue.enabled)
      ensures syncQueue.items == Push(old(syncQueue.Model()), c, false).queue.items
    {
      hide Sound, Shown, CapturesBalanced, ImagesBalanced, Push, Window, Plus, Minus, Synced, Ids;
      ghost var s, q := Snapshot(), syncQueue.Model();
      PublishShare(s, c);
      var _ := syncQueue.PushWDropped(store, Some(c), false);
      PublishKeeps(s, q, c, store.captures, store.images);
      PushDisabled(q, c);
      assert Snapshot() == AfterPublish(s, q, c, store.captures, store.images);
    }

    /** drop_sample: the held sample goes, to the output queue if asked for, and the oldest of its ring takes its place. */
    method DropSample(wresult: WaitResult, colorCapture: bool, dropIntoQueue: bool) returns (r: WaitResult)
      requires Inv() && Side(log.pending, colorCapture) != [] && (wresult == FAILED ==> !syncQueue.enabled)
      modifies this`log, Frame(colorCapture), Frame(colorCapture).queue, syncQueue, syncQueue.queue, store
      ensures Inv() && store.Shows() && syncQueue.enabled == old(syncQueue.enabled)
      ensures var q := Side(old(log.pending), colorCapture);
              && log == old(log).(pending := SetSide(old(log.pending), colorCapture, q[1..]))
              && syncQueue.items == (if dropIntoQueue && !synchronizedImagesOnly
                                     then Push(old(syncQueue.Model()), q[0].id, false).queue.items else old(syncQueue.items))
      ensures r == SUCCEEDED <==> Side(log.pending, colorCapture) != []
      ensures r == FAILED ==> !syncQueue.enabled
    {
      hide Sound, Shown, CapturesBalanced, ImagesBalanced, Push, Window, Plus, Minus, Synced, Ids, Drain, Tracks,
        SlotTime, Frames.Carries;
      var f := Frame(colorCapture);
      ghost var q := Side(log.pending, colorCapture);
      HeldIsHead(Snapshot(), colorCapture);
      ghost var cs, im := store.captures, store.images;
      ShownAgain(cs, im);
      if dropIntoQueue && !synchronizedImagesOnly {
        Publish(f.capture.value);
      }
      ghost var cs1, im1 := store.captures, store.images;
      r := Advance(wresult, colorCapture);
      ShownThrough(cs, im, cs1, im1, store.captures, store.images);
    }

    /** The rest of drop_sample. */
    method Advance(wresult: WaitResult, colorCapture: bool) returns (r: WaitResult)
      requires Inv() && Side(log.pending, colorCapture) != [] && (wresult == FAILED ==> !syncQueue.enabled)
      modifies this`log, Frame(colorCapture), Frame(colorCapture).queue, store
      ensures Inv() && store.Shows()
      ensures var q := Side(old(log.pending), colorCapture);
              log == old(log).(pending := SetSide(old(log.pending), colorCapture, q[1..]))
      ensures r == SUCCEEDED <==> Side(log.pending, colorCapture) != []
      ensures r == FAILED ==> !syncQueue.enabled
    {
      hide Sound, Shown, CapturesBalanced, ImagesBalanced, Push, Window, Ring.Valid, Plus, Minus, Synced, Ids, Drain,
        Tracks, SlotTime, Frames.Carries, NotPending, Rings, Advanced;
      ghost var s, q := Snapshot(), Side(log.pending, colorCapture);
      r := MoveUp(s, wresult, colorCapture);
      ghost var v := FrameOf(Snapshot(), colorCapture);
      DropKeeps(s, colorCapture, v, store.captures, store.images);
      ghost var now := log.(pending := SetSide(log.pending, colorCapture, q[1..]));
      TellLog(AfterDrop(s, colorCapture, v, store.captures, store.images), now);
    }

    /** The frame's own part: the pending samples are not yet told. */
    method MoveUp(ghost s: Snap, wresult: WaitResult, colorCapture: bool) returns (r: WaitResult)
      requires Inv() && Side(log.pending, colorCapture) != [] && (wresult == FAILED ==> !syncQueue.enabled)
      requires s == Snapshot()
      modifies Frame(colorCapture), Frame(colorCapture).queue, store
      ensures Rings() && store.Valid() && store.Shows()
      ensures var v := FrameOf(Snapshot(), colorCapture);
              && Advanced(v, Side(s.pending, colorCapture)[1..], SlotFor(colorCapture), store.captures, store.images)
              && Snapshot() == AfterDrop(s, colorCapture, v, store.captures, store.images).(pending := s.pending)
      ensures r == SUCCEEDED <==> Side(log.pending, colorCapture)[1..] != []
      ensures r == FAILED ==> !syncQueue.enabled
    {
      hide Sound, Shown, CapturesBalanced, ImagesBalanced, Push, Window, Ring.Valid, Plus, Minus, Synced, Ids, Drain,
        Tracks, SlotTime, Frames.Carries, NotPending;
      var f := Frame(colorCapture);
      ghost var q := Side(log.pending, colorCapture);
      HeldIsHead(s, colorCapture);
      HeldIsOwned(s, colorCapture);
      if |q| > 1 {
        NextIsTracked(s, colorCapture);
      }
      r := f.Next(store, wresult);
      OnlyThisFrame(colorCapture);
    }

    /** merge_captures: links the held color image into the held depth capture. */
    method MergeCaptures() returns (merged: CaptureId)
      requires Inv() && log.pending.color != [] && log.pending.depth != []
      requires Matches(Clock(), log.pending.color[0].ts, log.pending.depth[0].ts)
      modifies store
      ensures Inv() && merged == old(log.pending.depth)[0].id && Synced(Clock(), store.captures, store.images, merged)
      ensures Steady(Clock(), old(log.pending.depth), old(store.captures), old(store.images), store.captures, store.images)
      ensures Linked(store.captures, store.images, Merged(old(log.pending.color)[0], old(log.pending.depth)[0]))
    {
      hide Sound, Shown, CapturesBalanced, ImagesBalanced, Push, Window, Plus, Minus, Synced, Ids, Drain, Tracks,
        Relinked, Matches, Frames.Carries, Steady, Linked;
      ghost var s := Snapshot();
      HeldIsHead(s, true);
      HeldIsHead(s, false);
      ghost var d, ts := log.pending.depth[0].id, log.pending.color[0].ts;
      var image := store.CaptureGetImage(color.capture, COLOR);
      ghost var cs1, im1 := store.captures, store.images;
      OwnedCapture(cs1, store.captureOwners, log.pending.color[0].id);
      OwnedCapture(cs1, store.captureOwners, d);
      TimeIsShown(s.cs, s.im, cs1, im1, log.pending.color[0].id, COLOR);
      PlusHas(s.imageOwners, image);
      store.CaptureSetImage(depthIr.capture, COLOR, image);
      ghost var cs2, im2 := store.captures, store.images;
      SetRelinks(cs1, im1, cs2, im2, d, image, ts);
      store.ReleaseImage(image);
      OwnedCapture(store.captures, store.captureOwners, d);
      RelinkedBetween(s.cs, s.im, cs1, im1, cs2, im2, store.captures, store.images, d, ts);
      PlusThenMinus(s.imageOwners, image);
      merged := depthIr.capture.value;
      MergeKeeps(s, store.captures, store.images);
      Told(s.(cs := store.captures, im := store.images));
    }

    // ---------- Taking a sample in ----------

    /** A client's capture that can become a sample of the sensor: it carries the sensor's image, with that timestamp,
        and is not pending for the other sensor. */
    ghost predicate Offers(c: CaptureId, colorCapture: bool, ts: nat)
      reads this, store
    {
      && c in clients && NotPending(Side(log.pending, !colorCapture), c)
      && store.TimeOf(c, SlotFor(colorCapture)) == Some(ts)
    }

    /** The sensor has nothing pending: the capture goes straight into the held slot. */
    method Hold(c: CaptureId, colorCapture: bool, ghost ts: nat)
      requires Inv() && running && Side(log.pending, colorCapture) == [] && Offers(c, colorCapture, ts)
      modifies this`log, Frame(colorCapture), store
      ensures Inv() && store.Shows()
      ensures log == old(log).(pending := SetSide(old(log.pending), colorCapture, [Sample(c, ts)]))
    {
      hide Sound, Shown, CapturesBalanced, ImagesBalanced, Push, Window, Ring.Valid, Plus, Minus, Synced, Ids, Drain,
        Tracks, SlotTime, Frames.Carries, NotPending, Rings;
      ghost var s, x := Snapshot(), Sample(c, ts);
      ClientIsOwned(s, c);
      Reference(s, c, colorCapture, ts);
      ghost var v := FrameOf(Snapshot(), colorCapture);
      AddKeeps(s, colorCapture, x, v, store.captures, store.images);
      assert [] + [x] == [x];
      ghost var now := log.(pending := SetSide(log.pending, colorCapture, [x]));
      TellLog(AfterAdd(s, colorCapture, x, v, store.captures, store.images), now);
    }

    /** The frame's own part of Hold. */
    method Reference(ghost s: Snap, c: CaptureId, colorCapture: bool, ghost ts: nat)
      requires Inv() && Side(log.pending, colorCapture) == [] && Offers(c, colorCapture, ts)
      requires s == Snapshot() && c in store.captureOwners
      modifies Frame(colorCapture), store
      ensures Rings() && store.Valid() && store.Shows()
      ensures var v, x := FrameOf(Snapshot(), colorCapture), Sample(c, ts);
              && TookIn(s, colorCapture, x, v, store.captures, store.images)
              && SlotTime(store.images, store.captures.live, c, SlotFor(colorCapture)) == Some(ts)
              && Snapshot() == AfterAdd(s, colorCapture, x, v, store.captures, store.images).(pending := s.pending)
    {
      hide Sound, Shown, CapturesBalanced, ImagesBalanced, Push, Window, Ring.Valid, Synced, Ids, Drain, Tracks,
        SlotTime, NotPending;
      var f := Frame(colorCapture);
      f.Load(store, c);
      ghost var cs, im := store.captures, store.images;
      store.CaptureIncRef(Some(c));
      OwnedCapture(store.captures, store.captureOwners, c);
      ShownThrough(s.cs, s.im, cs, im, store.captures, store.images);
      CarriesStill(cs, im, store.captures, store.images, c, SlotFor(colorCapture), f.image.value, f.ts);
      TimeIsShown(s.cs, s.im, store.captures, store.images, c, SlotFor(colorCapture));
      CarriesTime(store.captures, store.images, c, SlotFor(colorCapture), f.image.value, f.ts);
      OnlyThisFrame(colorCapture);
    }

    /** The sensor has something pending: the capture goes into its ring. A full ring hands back its oldest capture,
        which replaces the held one. */
    method Enqueue(c: CaptureId, colorCapture: bool, ghost ts: nat)
      requires Inv() && running && Side(log.pending, colorCapture) != [] && Offers(c, colorCapture, ts)
      modifies this`log, this`clients, Frame(colorCapture), Frame(colorCapture).queue, Frame(colorCapture).queue.queue
      modifies syncQueue, syncQueue.queue, store
      ensures Inv() && store.Shows() && clients == old(clients) && syncQueue.enabled == old(syncQueue.enabled)
      ensures var (q, out) := Accept(QUEUE_DEFAULT_SIZE, syncQueue.enabled, Side(old(log.pending), colorCapture), Sample(c, ts));
              && log == old(log).(pending := SetSide(old(log.pending), colorCapture, q))
              && syncQueue.items == (if out != [] && !synchronizedImagesOnly
                                     then Push(old(syncQueue.Model()), out[0].id, false).queue.items else old(syncQueue.items))
    {
      hide Sound, Shown, CapturesBalanced, ImagesBalanced, Push, Window, Ring.Valid, Plus, Minus, Synced, Ids, Drain,
        Tracks, SlotTime, Frames.Carries, NotPending, Rings;
      ghost var q, x := Side(log.pending, colorCapture), Sample(c, ts);
      ghost var cs, im := store.captures, store.images;
      var dropped := PushSample(c, colorCapture, ts);
      if dropped != None {
        ghost var cs1, im1 := store.captures, store.images;
        ReplaceSample(dropped.value, colorCapture, q[1].ts);
        ShownThrough(cs, im, cs1, im1, store.captures, store.images);
        assert [q[1]] + (q[2..] + [x]) == q[1..] + [x];
      }
    }

    /** queue_push_w_dropped on the sensor's ring. What comes back is in the caller's hands. */
    method PushSample(c: CaptureId, colorCapture: bool, ghost ts: nat) returns (dropped: Option<CaptureId>)
      requires Inv() && running && Side(log.pending, colorCapture) != [] && Offers(c, colorCapture, ts)
      modifies this`log, this`clients, Frame(colorCapture).queue, Frame(colorCapture).queue.queue, store
      ensures Inv() && store.Shows()
      ensures var q, x := Side(old(log.pending), colorCapture), Sample(c, ts);
              if !syncQueue.enabled then dropped == None && log == old(log) && clients == old(clients)
              else if |q| < QUEUE_DEFAULT_SIZE + 1 then
                && dropped == None && clients == old(clients)
                && log == old(log).(pending := SetSide(old(log.pending), colorCapture, q + [x]))
              else
                && |q| == QUEUE_DEFAULT_SIZE + 1 && dropped == Some(q[1].id) && clients == old(clients) + multiset{q[1].id}
                && log == old(log).(pending := SetSide(old(log.pending), colorCapture, [q[0]] + (q[2..] + [x])))
                && Offers(q[1].id, colorCapture, q[1].ts)
    {
      hide Sound, Shown, CapturesBalanced, ImagesBalanced, Push, Window, Ring.Valid, Plus, Minus, Synced, Ids, Drain,
        Tracks, SlotTime, Frames.Carries, NotPending, Rings;
      ghost var s, q, x := Snapshot(), Side(log.pending, colorCapture), Sample(c, ts);
      dropped := PushRing(s, c, colorCapture, ts);
      ghost var v, cs, im := FrameOf(Snapshot(), colorCapture), store.captures, store.images;
      if !syncQueue.enabled {
        StillSound(s, cs, im);
        TellLog(s.(cs := cs, im := im), log);
      } else if |q| < QUEUE_DEFAULT_SIZE + 1 {
        AddKeeps(s, colorCapture, x, v, cs, im);
        ghost var now := log.(pending := SetSide(log.pending, colorCapture, q + [x]));
        TellLog(AfterAdd(s, colorCapture, x, v, cs, im), now);
      } else {
        PushOutKeeps(s, colorCapture, x, cs, im);
        NextIsTracked(s, colorCapture);
        ghost var now := log.(pending := SetSide(log.pending, colorCapture, [q[0]] + (q[2..] + [x])));
        Tell(AfterPushOut(s, colorCapture, x, cs, im), now, clients + multiset{q[1].id});
        StillOffered(s, q[1].id, colorCapture, q[1].ts);
      }
    }

    /** What a client holds still shows the timestamp it showed. */
    lemma StillOffered(s: Snap, c: CaptureId, colorCapture: bool, ts: nat)
      requires Inv() && c in clients && Shown(s.cs, s.im, store.captures, store.images)
      requires SlotTime(s.im, s.cs.live, c, SlotFor(colorCapture)) == Some(ts)
      ensures store.TimeOf(c, SlotFor(colorCapture)) == Some(ts)
    {
      hide Sound, Shown, CapturesBalanced, ImagesBalanced, Rings, SlotTime;
      ClientIsOwned(Snapshot(), c);
      OwnedCapture(store.captures, store.captureOwners, c);
      TimeIsShown(s.cs, s.im, store.captures, store.images, c, SlotFor(colorCapture));
    }

    /** The ring's own part of PushSample. */
    method PushRing(ghost s: Snap, c: CaptureId, colorCapture: bool, ghost ts: nat) returns (dropped: Option<CaptureId>)
      requires Inv() && Side(log.pending, colorCapture) != [] && Offers(c, colorCapture, ts) && s == Snapshot()
      modifies Frame(colorCapture).queue, Frame(colorCapture).queue.queue, store
      ensures Rings() && store.Valid() && store.Shows()
      ensures SlotTime(store.images, store.captures.live, c, SlotFor(colorCapture)) == Some(ts)
      ensures var q, g, cs, im := Side(s.pending, colorCapture), FrameOf(s, colorCapture), store.captures, store.images;
              if !syncQueue.enabled then dropped == None && Snapshot() == s.(cs := cs, im := im)
              else if |q| < QUEUE_DEFAULT_SIZE + 1 then
                && dropped == None
                && Snapshot() == AfterAdd(s, colorCapture, Sample(c, ts), g.(items := g.items + [c]), cs, im).(pending := s.pending)
              else
                && |q| == QUEUE_DEFAULT_SIZE + 1 && dropped == Some(q[1].id)
                && Snapshot() == AfterPushOut(s, colorCapture, Sample(c, ts), cs, im).(pending := s.pending, clients := s.clients)
    {
      hide Sound, Shown, CapturesBalanced, ImagesBalanced, Push, Window, Ring.Valid, Plus, Minus, Synced, Ids, Drain,
        Tracks, SlotTime, Frames.Carries, NotPending;
      var f := Frame(colorCapture);
      ghost var x, model := Sample(c, ts), f.queue.Model();
      HeldIsHead(s, colorCapture);
      HeldIsOwned(s, colorCapture);
      ClientShare(s, c, colorCapture);
      f.queue.Fits();
      dropped := f.queue.PushWDropped(store, Some(c), true);
      WantedPush(model, c, s.owners);
      PushedItems(s, x, colorCapture);
      ClientIsOwned(s, c);
      OwnedCapture(store.captures, store.captureOwners, c);
      TimeIsShown(s.cs, s.im, store.captures, store.images, c, SlotFor(colorCapture));
      OnlyThisFrame(colorCapture);
    }

    /** replace_sample: the held capture leaves early and another one takes its place. */
    method ReplaceSample(c: CaptureId, colorCapture: bool, ghost ts: nat)
      requires Inv() && running && Side(log.pending, colorCapture) != [] && Offers(c, colorCapture, ts) && syncQueue.enabled
      modifies this`log, this`clients, Frame(colorCapture), syncQueue, syncQueue.queue, store
      ensures Inv() && store.Shows() && clients == old(clients) - multiset{c} && syncQueue.enabled
      ensures var q := Side(old(log.pending), colorCapture);
              && log == old(log).(pending := SetSide(old(log.pending), colorCapture, [Sample(c, ts)] + q[1..]))
              && syncQueue.items == (if !synchronizedImagesOnly
                                     then Push(old(syncQueue.Model()), q[0].id, false).queue.items else old(syncQueue.items))
    {
      hide Sound, Shown, CapturesBalanced, ImagesBalanced, Push, Window, Ring.Valid, Plus, Minus, Synced, Ids, Drain,
        Tracks, SlotTime, Frames.Carries, NotPending, Rings;
      ghost var cs0, im0 := store.captures, store.images;
      PublishEarly(c, colorCapture, ts);
      ghost var s, y, q := Snapshot(), Sample(c, ts), Side(log.pending, colorCapture);
      SwapHeld(s, c, colorCapture, ts);
      ghost var v, cs, im := FrameOf(Snapshot(), colorCapture), store.captures, store.images;
      ShownThrough(cs0, im0, s.cs, s.im, cs, im);
      ReplaceKeeps(s, colorCapture, y, v, cs, im);
      ghost var now := log.(pending := SetSide(log.pending, colorCapture, [y] + q[1..]));
      Tell(AfterReplace(s, colorCapture, y, v, cs, im), now, clients - multiset{c});
    }

    /** The held capture is published first, unless unsynchronised captures are unwanted. */
    method PublishEarly(ghost c: CaptureId, colorCapture: bool, ghost ts: nat)
      requires Inv() && Side(log.pending, colorCapture) != [] && Offers(c, colorCapture, ts)
      modifies syncQueue, syncQueue.queue, store`captures, store`images, store`captureOwners
      ensures Inv() && store.Shows() && Offers(c, colorCapture, ts) && syncQueue.enabled == old(syncQueue.enabled)
      ensures syncQueue.items == (if !synchronizedImagesOnly
                                  then Push(old(syncQueue.Model()), Side(log.pending, colorCapture)[0].id, false).queue.items
                                  else old(syncQueue.items))
    {
      hide Sound, Shown, CapturesBalanced, ImagesBalanced, Push, Window, Ring.Valid, Plus, Minus, Synced, Ids, Drain,
        Tracks, SlotTime, Frames.Carries, NotPending, Rings;
      ghost var s := Snapshot();
      ShownAgain(s.cs, s.im);
      HeldIsHead(s, colorCapture);
      if !synchronizedImagesOnly {
        Publish(Frame(colorCapture).capture.value);
        StillOffered(s, c, colorCapture, ts);
      }
    }

    /** The frame's own part of replace_sample. */
    method SwapHeld(ghost s: Snap, c: CaptureId, colorCapture: bool, ghost ts: nat)
      requires Inv() && Side(log.pending, colorCapture) != [] && Offers(c, colorCapture, ts) && s == Snapshot()
      modifies Frame(colorCapture), store
      ensures Rings() && store.Valid() && store.Shows()
      ensures var v, q := FrameOf(Snapshot(), colorCapture), Side(s.pending, colorCapture);
              && v.capture == Some(c) && v.ts == ts && v.image.Some? && v.items == FrameOf(s, colorCapture).items
              && Frames.Carries(store.captures, store.images, c, SlotFor(colorCapture), v.image.value, ts)
              && Snapshot() == AfterReplace(s, colorCapture, Sample(c, ts), v, store.captures, store.images)
                                 .(pending := s.pending, clients := s.clients)
    {
      hide Sound, Shown, CapturesBalanced, ImagesBalanced, Push, Window, Ring.Valid, Plus, Minus, Synced, Ids, Drain,
        Tracks, SlotTime, NotPending;
      var f := Frame(colorCapture);
      HeldIsHead(s, colorCapture);
      HeldIsOwned(s, colorCapture);
      ClientAndHeld(s, c, colorCapture);
      f.Replace(store, c);
      OwnedCapture(store.captures, store.captureOwners, c);
      TimeIsShown(s.cs, s.im, store.captures, store.images, c, SlotFor(colorCapture));
      CarriesTime(store.captures, store.images, c, SlotFor(colorCapture), f.image.value, f.ts);
      OnlyThisFrame(colorCapture);
    }

    // ---------- The drain loop ----------

    /** A turn of the loop for a negative delay: the depth sample anchors the window. */
    method TurnOnDepth() returns (r: WaitResult)
      requires Inv() && running && log.pending.color != [] && log.pending.depth != [] && depthDelayOffColorUsec < 0
      modifies this`log, color, depthIr, color.queue, depthIr.queue, syncQueue, syncQueue.queue, store
      ensures Inv() && syncQueue.enabled == old(syncQueue.enabled)
      ensures var (e, next) := Turn(Clock(), old(log.pending));
              && log == old(log).(pending := next)
              && syncQueue.items == Kept(syncQueue.enabled, old(syncQueue.items), Published(synchronizedImagesOnly, e))
      ensures Steady(Clock(), old(log.pending.depth), old(store.captures), old(store.images), store.captures, store.images)
      ensures Linked(store.captures, store.images, Turn(Clock(), old(log.pending)).0)
      ensures r != SUCCEEDED ==> log.pending.color == [] || log.pending.depth == []
    {
      hide Sound, Shown, CapturesBalanced, ImagesBalanced, Push, Window, Plus, Minus, Synced, Ids, Drain, Tracks,
        SlotTime, Frames.Carries, NotPending, Kept, Steady;
      ghost var s, q := Snapshot(), syncQueue.Model();
      HeldIsHead(s, true);
      HeldIsHead(s, false);
      syncQueue.Fits();
      ghost var c, d := log.pending.color[0], log.pending.depth[0];
      PushKeeps(q, c.id);
      PushKeeps(q, d.id);
      r := SUCCEEDED;
      ghost var cs, im := store.captures, store.images;
      var beginSyncWindow := TsSubtract(depthIr.ts, fpsQuarterPeriod);
      beginSyncWindow := TsSubtract(beginSyncWindow, depthDelayOffColorUsec);
      var endSyncWindow := beginSyncWindow + fpsPeriod;
      if color.ts > endSyncWindow {
        r := DropSample(r, false, true);
        ShownIsSteady(Clock(), s.pending.depth, cs, im, store.captures, store.images);
      } else if color.ts < beginSyncWindow {
        r := DropSample(r, true, true);
        ShownIsSteady(Clock(), s.pending.depth, cs, im, store.captures, store.images);
      } else {
        r := LinkSamples();
      }
    }

    /** A turn of the loop for a delay that is not negative: the color sample anchors the window. */
    method TurnOnColor() returns (r: WaitResult)
      requires Inv() && running && log.pending.color != [] && log.pending.depth != [] && depthDelayOffColorUsec >= 0
      modifies this`log, color, depthIr, color.queue, depthIr.queue, syncQueue, syncQueue.queue, store
      ensures Inv() && syncQueue.enabled == old(syncQueue.enabled)
      ensures var (e, next) := Turn(Clock(), old(log.pending));
              && log == old(log).(pending := next)
              && syncQueue.items == Kept(syncQueue.enabled, old(syncQueue.items), Published(synchronizedImagesOnly, e))
      ensures Steady(Clock(), old(log.pending.depth), old(store.captures), old(store.images), store.captures, store.images)
      ensures Linked(store.captures, store.images, Turn(Clock(), old(log.pending)).0)
      ensures r != SUCCEEDED ==> log.pending.color == [] || log.pending.depth == []
    {
      hide Sound, Shown, CapturesBalanced, ImagesBalanced, Push, Window, Plus, Minus, Synced, Ids, Drain, Tracks,
        SlotTime, Frames.Carries, NotPending, Kept, Steady;
      ghost var s, q := Snapshot(), syncQueue.Model();
      HeldIsHead(s, true);
      HeldIsHead(s, false);
      syncQueue.Fits();
      ghost var c, d := log.pending.color[0], log.pending.depth[0];
      PushKeeps(q, c.id);
      PushKeeps(q, d.id);
      r := SUCCEEDED;
      ghost var cs, im := store.captures, store.images;
      var beginSyncWindow := TsSubtract(color.ts, fpsQuarterPeriod);
      beginSyncWindow := TsAdd(beginSyncWindow, depthDelayOffColorUsec);
      var endSyncWindow := beginSyncWindow + fpsPeriod;
      if depthIr.ts > endSyncWindow {
        r := DropSample(r, true, true);
        ShownIsSteady(Clock(), s.pending.depth, cs, im, store.captures, store.images);
      } else if depthIr.ts < beginSyncWindow {
        r := DropSample(r, false, true);
        ShownIsSteady(Clock(), s.pending.depth, cs, im, store.captures, store.images);
      } else {
        r := LinkSamples();
      }
    }

    /** One turn of the loop: the two held samples are judged; one leaves, or both leave together. */
    method TurnOnce() returns (r: WaitResult)
      requires Inv() && running && log.pending.color != [] && log.pending.depth != []
      modifies this`log, color, depthIr, color.queue, depthIr.queue, syncQueue, syncQueue.queue, store
      ensures Inv() && syncQueue.enabled == old(syncQueue.enabled)
      ensures log == AfterTurn(Clock(), old(log))
      ensures syncQueue.items == Kept(syncQueue.enabled, old(syncQueue.items),
                                      Published(synchronizedImagesOnly, Turn(Clock(), old(log.pending)).0))
      ensures Steady(Clock(), old(log.pending.depth), old(store.captures), old(store.images), store.captures, store.images)
      ensures Linked(store.captures, store.images, Turn(Clock(), old(log.pending)).0)
      ensures r != SUCCEEDED ==> log.pending.color == [] || log.pending.depth == []
    {
      hide Sound, CapturesBalanced, ImagesBalanced, Window, Turn, Kept, Drain, Steady, Linked;
      ghost var st := log;
      if depthDelayOffColorUsec < 0 {
        r := TurnOnDepth();
      } else {
        r := TurnOnColor();
      }
      log := log.(events := log.events + [Turn(Clock(), st.pending).0]);
    }

    /** The two held samples belong together: they leave as one capture. */
    method LinkSamples() returns (r: WaitResult)
      requires Inv() && running && log.pending.color != [] && log.pending.depth != []
      requires Judge(Clock(), log.pending.color[0].ts, log.pending.depth[0].ts) == Pair
      modifies this`log, color, depthIr, color.queue, depthIr.queue, syncQueue, syncQueue.queue, store
      ensures Inv() && syncQueue.enabled == old(syncQueue.enabled)
      ensures var p := old(log.pending);
              && log == old(log).(pending := Pending(p.color[1..], p.depth[1..]))
              && syncQueue.items == Push(old(syncQueue.Model()), p.depth[0].id, false).queue.items
      ensures Steady(Clock(), old(log.pending.depth), old(store.captures), old(store.images), store.captures, store.images)
      ensures Linked(store.captures, store.images, Merged(old(log.pending).color[0], old(log.pending).depth[0]))
      ensures r != SUCCEEDED ==> log.pending.depth == []
    {
      hide Sound, Shown, CapturesBalanced, ImagesBalanced, Push, Window, Plus, Minus, Synced, Ids, Drain, Tracks,
        SlotTime, Frames.Carries, Judge, Matches, Steady, Linked;
      JudgePairsExactlyMatches(Clock(), log.pending.color[0].ts, log.pending.depth[0].ts);
      HeldIsHead(Snapshot(), false);
      ghost var cs, im, t, e := store.captures, store.images, Clock(), Merged(log.pending.color[0], log.pending.depth[0]);
      ghost var q := log.pending.depth;
      var merged := MergeCaptures();
      ghost var cs1, im1 := store.captures, store.images;
      Publish(merged);
      ghost var cs2, im2 := store.captures, store.images;
      r := DropSample(SUCCEEDED, true, false);
      ghost var cs3, im3 := store.captures, store.images;
      ShownThrough(cs1, im1, cs2, im2, cs3, im3);
      r := DropSample(r, false, false);
      ShownThrough(cs1, im1, cs3, im3, store.captures, store.images);
      LinkedStill(cs1, im1, store.captures, store.images, e);
      ShownIsSteady(t, q, cs1, im1, store.captures, store.images);
      WithinItself(q);
      SteadyThrough(t, q, q, cs, im, cs1, im1, store.captures, store.images);
    }

    /** The loop of capturesync_add_capture: it runs until one sensor has nothing pending. */
    method DrainSamples()
      requires Inv() && running
      modifies this`log, color, depthIr, color.queue, depthIr.queue, syncQueue, syncQueue.queue, store
      ensures Valid() && syncQueue.enabled == old(syncQueue.enabled)
      ensures log == Settle(Clock(), old(log))
      ensures syncQueue.items == Kept(syncQueue.enabled, old(syncQueue.items),
                                      Outputs(synchronizedImagesOnly, Since(old(log.events), log.events)))
      ensures MergedSynced(Clock(), store.captures, store.images, Since(old(log.events), log.events))
      ensures Steady(Clock(), old(log.pending.depth), old(store.captures), old(store.images), store.captures, store.images)
    {
      hide Sound, Shown, CapturesBalanced, ImagesBalanced, Window, Drain, Kept, Turn, MergedSynced, Steady, Linked, Within;
      var wresult := SUCCEEDED;
      ghost var st, items, cs0, im0 := log, syncQueue.items, store.captures, store.images;
      syncQueue.Fits();
      NothingMerged(Clock(), store.captures, store.images, st.events);
      NothingOut(syncQueue.enabled, items, synchronizedImagesOnly, st.events);
      HeldIsHead(Snapshot(), true);
      HeldIsHead(Snapshot(), false);
      ShownAgain(cs0, im0);
      ShownIsSteady(Clock(), st.pending.depth, cs0, im0, cs0, im0);
      WithinItself(st.pending.depth);
      while wresult == SUCCEEDED && depthIr.capture != None && color.capture != None
        invariant Inv() && syncQueue.enabled == old(syncQueue.enabled)
        invariant Draining(st, items)
        invariant MergedSynced(Clock(), store.captures, store.images, Since(st.events, log.events))
        invariant Steady(Clock(), st.pending.depth, cs0, im0, store.captures, store.images)
        invariant Within(log.pending.depth, st.pending.depth)
        invariant color.capture == None <==> log.pending.color == []
        invariant depthIr.capture == None <==> log.pending.depth == []
        invariant wresult != SUCCEEDED ==> log.pending.color == [] || log.pending.depth == []
        decreases |log.pending.color| + |log.pending.depth|
      {
        ghost var now := log;
        TurnSettles(Clock(), now);
        OneMoreOut(syncQueue.enabled, items, synchronizedImagesOnly, st.events, now.events, Turn(Clock(), now.pending).0);
        ghost var cs, im := store.captures, store.images;
        wresult := TurnOnce();
        SinceOneMore(st.events, now.events, Turn(Clock(), now.pending).0);
        MergedOneMore(Clock(), cs, im, store.captures, store.images, Since(st.events, now.events), now.pending);
        SteadyThrough(Clock(), st.pending.depth, now.pending.depth, cs0, im0, cs, im, store.captures, store.images);
        TurnIsWithin(Clock(), now.pending);
        WithinThrough(log.pending.depth, now.pending.depth, st.pending.depth);
        HeldIsHead(Snapshot(), true);
        HeldIsHead(Snapshot(), false);
      }
      DrainedIsSettled(Clock(), log);
    }

    /** The turns so far leave the outcome of the whole loop as it was, and have sent what they logged. */
    ghost predicate Draining(st: Sync, items: seq<CaptureId>)
      reads this, syncQueue
    {
      && Settle(Clock(), log) == Settle(Clock(), st)
      && st.events <= log.events
      && syncQueue.items == Kept(syncQueue.enabled, items, Outputs(synchronizedImagesOnly, log.events[|st.events|..]))
    }

    // ---------- The calls ----------

    /** The sample joins the sensor's pending ones. */
    method TakeIn(c: CaptureId, colorCapture: bool, ghost ts: nat)
      requires Inv() && running && Offers(c, colorCapture, ts) && (!colorCapture ==> !waitingForCleanDepthTs)
      modifies this`log, this`clients, color, depthIr, color.queue, depthIr.queue, color.queue.queue, depthIr.queue.queue
      modifies syncQueue, syncQueue.queue, store
      ensures Inv() && store.Shows() && clients == old(clients) && syncQueue.enabled == old(syncQueue.enabled)
      ensures log == Enter(QUEUE_DEFAULT_SIZE, syncQueue.enabled, old(log), ArrivalOf(colorCapture, Sample(c, ts)))
      ensures syncQueue.items == Kept(syncQueue.enabled, old(syncQueue.items),
                                      Outputs(synchronizedImagesOnly, Since(old(log.events), log.events)))
    {
      hide Sound, Shown, CapturesBalanced, ImagesBalanced, Push, Window, Ring.Valid, Plus, Minus, Synced, Ids, Drain,
        Tracks, SlotTime, Frames.Carries, NotPending, Kept, Outputs, Accept, Enter, Rings;
      ghost var st, q, x := log, syncQueue.Model(), Sample(c, ts);
      OutputFits();
      ghost var taken := Accept(QUEUE_DEFAULT_SIZE, q.enabled, Side(st.pending, colorCapture), x);
      EarlyOut(q, synchronizedImagesOnly, st.events, colorCapture, taken.1);
      Join(c, colorCapture, ts);
      EnterIs(QUEUE_DEFAULT_SIZE, q.enabled, st, colorCapture, x);
      Record(st.events + EarlyEvents(colorCapture, taken.1));
    }

    /** So a sensor never has more than sixteen samples pending. */
    lemma SixteenPending(colorCapture: bool)
      requires Inv()
      ensures |Side(log.pending, colorCapture)| <= 16
    {
      HeldIsHead(Snapshot(), colorCapture);
      hide Sound;
      Frame(colorCapture).queue.Fits();
    }

    lemma OutputFits()
      requires Inv()
      ensures |syncQueue.items| <= OUTPUT_CAPACITY == syncQueue.capacity
    {
      hide Sound;
      syncQueue.Fits();
    }

    /** The log of events tells more than the state does. */
    ghost method Record(events: seq<Event>)
      requires Inv()
      modifies this`log
      ensures Inv() && log == old(log).(events := events)
    {
      hide Sound, Rings;
      log := log.(events := events);
    }

    /** Into the held slot if that is empty, and else into the ring. */
    method Join(c: CaptureId, colorCapture: bool, ghost ts: nat)
      requires Inv() && running && Offers(c, colorCapture, ts)
      modifies this`log, this`clients, color, depthIr, color.queue, depthIr.queue, color.queue.queue, depthIr.queue.queue
      modifies syncQueue, syncQueue.queue, store
      ensures Inv() && store.Shows() && clients == old(clients) && syncQueue.enabled == old(syncQueue.enabled)
      ensures var (q, out) := Accept(QUEUE_DEFAULT_SIZE, syncQueue.enabled, Side(old(log.pending), colorCapture), Sample(c, ts));
              && log == old(log).(pending := SetSide(old(log.pending), colorCapture, q))
              && syncQueue.items == (if out != [] && !synchronizedImagesOnly
                                     then Push(old(syncQueue.Model()), out[0].id, false).queue.items else old(syncQueue.items))
    {
      hide Sound, Shown, CapturesBalanced, ImagesBalanced, Push, Window, Ring.Valid, Plus, Minus, Synced, Ids, Drain,
        Tracks, SlotTime, Frames.Carries, NotPending, Rings;
      HeldIsHead(Snapshot(), colorCapture);
      if Frame(colorCapture).capture == None {
        Hold(c, colorCapture, ts);
      } else {
        Enqueue(c, colorCapture, ts);
      }
    }

    /** Reads the timestamp of the image that the sensor's captures carry. */
    method ReadTimestamp(c: CaptureId, slot: nat) returns (ts: Option<nat>)
      requires Inv() && slot < IMAGE_TYPE_COUNT
      modifies store
      ensures Inv() && store.Shows() && ts == old(store.TimeOf(c, slot)) && store.TimeOf(c, slot) == ts
    {
      hide Sound, Shown, CapturesBalanced, ImagesBalanced, Push, Window, Plus, Minus, Synced, Ids, Drain, Tracks,
        NotPending;
      ghost var s := Snapshot();
      var image := store.CaptureGetImage(Some(c), slot);
      ghost var cs, im := store.captures, store.images;
      TimeStays(s.cs, s.im, cs, im, s.owners, c, slot);
      ts := None;
      if image != None {
        var stamp := store.ImageTimestamp(image);
        ts := Some(stamp);
      }
      PlusHas(s.imageOwners, image);
      store.ReleaseImage(image);
      PlusThenMinus(s.imageOwners, image);
      ShownThrough(s.cs, s.im, cs, im, store.captures, store.images);
      TimeStays(s.cs, s.im, store.captures, store.images, s.owners, c, slot);
      StillSound(s, store.captures, store.images);
      assert Snapshot() == s.(cs := store.captures, im := store.images);
    }

    /** capturesync_add_capture. An invalid handle shows no image and changes nothing. */
    method AddCapture(succeeded: bool, captureRaw: Option<CaptureId>, colorCapture: bool)
      requires Valid()
      requires captureRaw.Some? && captureRaw.value in store.captures.live ==>
                 captureRaw.value in clients && NotPending(Side(log.pending, !colorCapture), captureRaw.value)
      modifies this`log, this`clients, this`waitingForCleanDepthTs, this`depthCapturesDropped
      modifies color, depthIr, color.queue, depthIr.queue, color.queue.queue, depthIr.queue.queue
      modifies syncQueue, syncQueue.queue, store
      ensures Valid() && clients == old(clients)
      ensures Steady(Clock(), old(log.pending.depth) + Linkable(captureRaw, colorCapture), old(store.captures), old(store.images),
                     store.captures, store.images)
      ensures !succeeded ==>
                && !syncQueue.enabled && log == old(log).(pending := Held(old(log.pending)))
                && color.queue.stopped && depthIr.queue.stopped && syncQueue.stopped
      ensures succeeded ==> syncQueue.enabled == old(syncQueue.enabled)
      ensures succeeded && (captureRaw.None? || !running || old(store.TimeOf(captureRaw.value, SlotFor(colorCapture))).None?) ==>
                log == old(log) && syncQueue.items == old(syncQueue.items)
      ensures succeeded && captureRaw.Some? && running && old(store.TimeOf(captureRaw.value, SlotFor(colorCapture))).Some? ==>
                var c, ts := captureRaw.value, old(store.TimeOf(captureRaw.value, SlotFor(colorCapture))).value;
                if !Synchronising() then
                  && log == old(log)
                  && syncQueue.items == Push(old(syncQueue.Model()), c, false).queue.items
                else
                  && log == Arrive(Clock(), QUEUE_DEFAULT_SIZE, syncQueue.enabled, old(log), ArrivalOf(colorCapture, Sample(c, ts)))
                  && syncQueue.items == Kept(syncQueue.enabled, old(syncQueue.items),
                                             Outputs(synchronizedImagesOnly, Since(old(log.events), log.events)))
                  && MergedSynced(Clock(), store.captures, store.images, Since(old(log.events), log.events))
                  && StaleExactly(old(log), colorCapture, Sample(c, ts))
    {
      hide Sound, Shown, CapturesBalanced, ImagesBalanced, Push, Window, Plus, Minus, Synced, Ids, Drain, Tracks,
        SlotTime, Frames.Carries, NotPending, Kept, Outputs, Accept, MergedSynced, Steady, Linkable, StaleExactly;
      ghost var cs, im, q := store.captures, store.images, log.pending.depth + Linkable(captureRaw, colorCapture);
      ShownAgain(cs, im);
      if !succeeded {
        StopQueues();
        ShownIsSteady(Clock(), q, cs, im, store.captures, store.images);
      } else if captureRaw.Some? {
        AddValid(captureRaw.value, colorCapture);
      } else {
        ShownIsSteady(Clock(), q, cs, im, store.captures, store.images);
      }
    }

    /** What a call in synchronising mode has done with its sample. While waiting for a clean depth timestamp, a depth
        sample at eleven periods or more is counted as dropped and changes nothing else. Any other depth sample ends the
        wait. A sample not dropped is the sensor's newest, in the log or pending, unless the queues are disabled and the
        sensor has something pending already. */
    ghost predicate StaleExactly(was: Sync, colorCapture: bool, x: Sample)
      reads this, syncQueue
    {
      if !colorCapture && was.waiting && 11 * fpsPeriod <= x.ts then
        log == was.(skipped := depthCapturesDropped) && depthCapturesDropped == was.skipped + 1 && waitingForCleanDepthTs
      else
        var taken := if syncQueue.enabled || Side(was.pending, colorCapture) == [] then [x] else [];
        && depthCapturesDropped == was.skipped && (waitingForCleanDepthTs <==> was.waiting && colorCapture)
        && ColorsOf(log.events) + log.pending.color
           == ColorsOf(was.events) + was.pending.color + (if colorCapture then taken else [])
        && DepthsOf(log.events) + log.pending.depth
           == DepthsOf(was.events) + was.pending.depth + (if colorCapture then [] else taken)
    }

    lemma ArrivalIsJudged(was: Sync, colorCapture: bool, x: Sample)
      requires Inv() && running
      requires log == Arrive(Clock(), QUEUE_DEFAULT_SIZE, syncQueue.enabled, was, ArrivalOf(colorCapture, x))
      ensures StaleExactly(was, colorCapture, x)
    {
      hide Sound, Rings, Arrive, ColorsOf, DepthsOf;
      ArriveIs(Clock(), QUEUE_DEFAULT_SIZE, syncQueue.enabled, was, ArrivalOf(colorCapture, x));
    }

    /** The part of capturesync_add_capture that has a capture. */
    method AddValid(c: CaptureId, colorCapture: bool)
      requires Valid()
      requires c in store.captures.live ==> c in clients && NotPending(Side(log.pending, !colorCapture), c)
      modifies this`log, this`clients, this`waitingForCleanDepthTs, this`depthCapturesDropped
      modifies color, depthIr, color.queue, depthIr.queue, color.queue.queue, depthIr.queue.queue
      modifies syncQueue, syncQueue.queue, store
      ensures Valid() && clients == old(clients) && syncQueue.enabled == old(syncQueue.enabled)
      ensures Steady(Clock(), old(log.pending.depth) + Linkable(Some(c), colorCapture), old(store.captures), old(store.images),
                     store.captures, store.images)
      ensures !running || old(store.TimeOf(c, SlotFor(colorCapture))).None? ==>
                log == old(log) && syncQueue.items == old(syncQueue.items)
      ensures running && old(store.TimeOf(c, SlotFor(colorCapture))).Some? ==>
                var ts := old(store.TimeOf(c, SlotFor(colorCapture))).value;
                if !Synchronising() then
                  && log == old(log)
                  && syncQueue.items == Push(old(syncQueue.Model()), c, false).queue.items
                else
                  && log == Arrive(Clock(), QUEUE_DEFAULT_SIZE, syncQueue.enabled, old(log), ArrivalOf(colorCapture, Sample(c, ts)))
                  && syncQueue.items == Kept(syncQueue.enabled, old(syncQueue.items),
                                             Outputs(synchronizedImagesOnly, Since(old(log.events), log.events)))
                  && MergedSynced(Clock(), store.captures, store.images, Since(old(log.events), log.events))
                  && StaleExactly(old(log), colorCapture, Sample(c, ts))
    {
      hide Sound, Shown, CapturesBalanced, ImagesBalanced, Push, Window, Plus, Minus, Synced, Ids, Drain, Tracks,
        Frames.Carries, NotPending, Kept, Outputs, Accept, MergedSynced, Steady, Linkable, Rings, Arrive, Ring.Valid, StaleExactly;
      ghost var cs, im, q := store.captures, store.images, log.pending.depth + Linkable(Some(c), colorCapture);
      var ts := ReadTimestamp(c, SlotFor(colorCapture));
      ghost var cs1, im1 := store.captures, store.images;
      ShownIsSteady(Clock(), q, cs, im, cs1, im1);
      if ts != None && running {
        if !syncCaptures || disableSync {
          Publish(c);
          ShownThrough(cs, im, cs1, im1, store.captures, store.images);
          ShownIsSteady(Clock(), q, cs, im, store.captures, store.images);
        } else {
          AddSample(c, ts.value, colorCapture);
          ArrivalIsJudged(old(log), colorCapture, Sample(c, ts.value));
          WithinItself(q);
          SteadyThrough(Clock(), q, q, cs, im, cs1, im1, store.captures, store.images);
        }
      }
    }

    /** The synchronising part of capturesync_add_capture. */
    method AddSample(c: CaptureId, ts: nat, colorCapture: bool)
      requires Valid() && running && Offers(c, colorCapture, ts)
      modifies this`log, this`clients, this`waitingForCleanDepthTs, this`depthCapturesDropped
      modifies color, depthIr, color.queue, depthIr.queue, color.queue.queue, depthIr.queue.queue
      modifies syncQueue, syncQueue.queue, store
      ensures Valid() && clients == old(clients) && syncQueue.enabled == old(syncQueue.enabled)
      ensures log == Arrive(Clock(), QUEUE_DEFAULT_SIZE, syncQueue.enabled, old(log), ArrivalOf(colorCapture, Sample(c, ts)))
      ensures syncQueue.items == Kept(syncQueue.enabled, old(syncQueue.items),
                                      Outputs(synchronizedImagesOnly, Since(old(log.events), log.events)))
      ensures MergedSynced(Clock(), store.captures, store.images, Since(old(log.events), log.events))
      ensures Steady(Clock(), old(log.pending.depth) + Linkable(Some(c), colorCapture), old(store.captures), old(store.images),
                     store.captures, store.images)
    {
      hide Sound, Shown, CapturesBalanced, ImagesBalanced, Push, Window, Ring.Valid, Plus, Minus, Synced, Ids, Drain,
        Tracks, SlotTime, Frames.Carries, NotPending, Kept, Outputs, Accept, Enter, Settle, MergedSynced, Steady, Linkable,
        Rings;
      if !colorCapture && waitingForCleanDepthTs {
        if ts / fpsPeriod > 10 {
          Refuse(c);
          return;
        }
        Trust();
        EnterTrusts(QUEUE_DEFAULT_SIZE, syncQueue.enabled, old(log), Sample(c, ts));
      }
      Process(c, ts, colorCapture);
    }

    /** A depth sample with a stale timestamp is only counted. */
    method Refuse(ghost c: CaptureId)
      requires Valid()
      modifies this`log, this`depthCapturesDropped
      ensures Valid() && log == old(log).(skipped := old(log).skipped + 1)
      ensures syncQueue.items == Kept(syncQueue.enabled, syncQueue.items,
                                      Outputs(synchronizedImagesOnly, Since(log.events, log.events)))
      ensures MergedSynced(Clock(), store.captures, store.images, Since(log.events, log.events))
      ensures Steady(Clock(), log.pending.depth + Linkable(Some(c), false), store.captures, store.images,
                     store.captures, store.images)
    {
      hide Sound, Rings, Steady, MergedSynced, Kept, Outputs, Linkable;
      depthCapturesDropped := depthCapturesDropped + 1;
      log := log.(skipped := log.skipped + 1);
      OutputFits();
      NothingMerged(Clock(), store.captures, store.images, log.events);
      NothingOut(syncQueue.enabled, syncQueue.items, synchronizedImagesOnly, log.events);
      ShownAgain(store.captures, store.images);
      ShownIsSteady(Clock(), log.pending.depth + Linkable(Some(c), false), store.captures, store.images,
                    store.captures, store.images);
    }

    /** From the first depth timestamp that is not stale on, all are trusted. */
    method Trust()
      requires Valid()
      modifies this`log, this`waitingForCleanDepthTs
      ensures Valid() && log == old(log).(waiting := false)
    {
      hide Sound, Rings;
      waitingForCleanDepthTs := false;
      log := log.(waiting := false);
    }

    /** The sample joins the pending ones, and the loop runs. */
    method Process(c: CaptureId, ts: nat, colorCapture: bool)
      requires Valid() && running && Offers(c, colorCapture, ts) && (!colorCapture ==> !waitingForCleanDepthTs)
      modifies this`log, this`clients, color, depthIr, color.queue, depthIr.queue, color.queue.queue, depthIr.queue.queue
      modifies syncQueue, syncQueue.queue, store
      ensures Valid() && clients == old(clients) && syncQueue.enabled == old(syncQueue.enabled)
      ensures log == Settle(Clock(), Enter(QUEUE_DEFAULT_SIZE, syncQueue.enabled, old(log), ArrivalOf(colorCapture, Sample(c, ts))))
      ensures syncQueue.items == Kept(syncQueue.enabled, old(syncQueue.items),
                                      Outputs(synchronizedImagesOnly, Since(old(log.events), log.events)))
      ensures MergedSynced(Clock(), store.captures, store.images, Since(old(log.events), log.events))
      ensures Steady(Clock(), old(log.pending.depth) + Linkable(Some(c), colorCapture), old(store.captures), old(store.images),
                     store.captures, store.images)
    {
      hide Sound, Shown, CapturesBalanced, ImagesBalanced, Push, Window, Ring.Valid, Plus, Minus, Synced, Ids, Drain,
        Tracks, SlotTime, Frames.Carries, NotPending, Kept, Outputs, Accept, Enter, Settle, MergedSynced, Steady, Linkable,
        Rings, Within;
      ghost var st, items, cs, im := log, syncQueue.items, store.captures, store.images;
      ghost var x, q := Sample(c, ts), log.pending.depth + Linkable(Some(c), colorCapture);
      EnterAdds(Clock(), QUEUE_DEFAULT_SIZE, syncQueue.enabled, st, colorCapture, x);
      TakeIn(c, colorCapture, ts);
      ghost var entered, cs1, im1 := log, store.captures, store.images;
      DrainSamples();
      EarlyMergesNothing(Clock(), store.captures, store.images, st.events, entered.events, log.events);
      MoreOut(syncQueue.enabled, items, synchronizedImagesOnly, st.events, entered.events, log.events);
      EnterIsWithin(QUEUE_DEFAULT_SIZE, syncQueue.enabled, st, colorCapture, x);
      ShownIsSteady(Clock(), q, cs, im, cs1, im1);
      SteadyThrough(Clock(), q, entered.pending.depth, cs, im, cs1, im1, store.captures, store.images);
    }

    // ---------- Whole runs ----------

    /** Clients hold the captures of a run, each of one sensor, and they carry the timestamps of the run. */
    ghost predicate Deliverable(arrivals: seq<Arrival>)
      reads this, store
    {
      && OneSensorEach(arrivals)
      && forall k :: 0 <= k < |arrivals| ==> Offers(arrivals[k].sample.id, arrivals[k].FromColor?, arrivals[k].sample.ts)
    }

    /** The calls of a run, one after the other: the synchroniser does what `Run` says. */
    method Feed(arrivals: seq<Arrival>)
      requires Valid() && running && Synchronising() && syncQueue.enabled && Deliverable(arrivals)
      modifies this`log, this`clients, this`waitingForCleanDepthTs, this`depthCapturesDropped
      modifies color, depthIr, color.queue, depthIr.queue, color.queue.queue, depthIr.queue.queue
      modifies syncQueue, syncQueue.queue, store
      ensures Valid() && clients == old(clients) && syncQueue.enabled && Deliverable(arrivals)
      ensures log == Run(Clock(), QUEUE_DEFAULT_SIZE, old(log), arrivals)
      ensures syncQueue.items == Kept(true, old(syncQueue.items),
                                      Outputs(synchronizedImagesOnly, Since(old(log.events), log.events)))
      ensures MergedSynced(Clock(), store.captures, store.images, Since(old(log.events), log.events))
    {
      hide Sound, Rings, Wired, Steady, MergedSynced, Kept, Outputs, Deliverable, Run, Synced, NotPending, SlotTime;
      ghost var st, items := log, syncQueue.items;
      StartsFed(arrivals);
      for n := 0 to |arrivals|
        invariant Valid() && clients == old(clients) && syncQueue.enabled && Deliverable(arrivals)
        invariant Fed(st, items, arrivals[..n])
      {
        FeedOne(st, items, arrivals, n);
      }
      assert arrivals[..|arrivals|] == arrivals;
    }

    /** The log and the output are those of a run from st so far. */
    ghost predicate Fed(st: Sync, items: seq<CaptureId>, arrivals: seq<Arrival>)
      requires Clock().period > 0
      reads this, store, syncQueue
    {
      && log == Run(Clock(), QUEUE_DEFAULT_SIZE, st, arrivals) && st.events <= log.events
      && syncQueue.items == Kept(true, items, Outputs(synchronizedImagesOnly, Since(st.events, log.events)))
      && MergedSynced(Clock(), store.captures, store.images, Since(st.events, log.events))
    }

    lemma StartsFed(arrivals: seq<Arrival>)
      requires Valid() && running
      ensures Fed(log, syncQueue.items, arrivals[..0])
    {
      hide Sound, Rings;
      OutputFits();
      NothingMerged(Clock(), store.captures, store.images, log.events);
      NothingOut(true, syncQueue.items, synchronizedImagesOnly, log.events);
    }

    method FeedOne(ghost st: Sync, ghost items: seq<CaptureId>, arrivals: seq<Arrival>, n: nat)
      requires Valid() && running && Synchronising() && syncQueue.enabled && Deliverable(arrivals)
      requires n < |arrivals| && Fed(st, items, arrivals[..n])
      modifies this`log, this`clients, this`waitingForCleanDepthTs, this`depthCapturesDropped
      modifies color, depthIr, color.queue, depthIr.queue, color.queue.queue, depthIr.queue.queue
      modifies syncQueue, syncQueue.queue, store
      ensures Valid() && clients == old(clients) && syncQueue.enabled && Deliverable(arrivals)
      ensures Fed(st, items, arrivals[..n + 1])
    {
      hide Sound, Rings, Steady, MergedSynced, Kept, Outputs, Run, Arrive, Synced, NotPending, SlotTime, Linkable;
      var a := arrivals[n];
      ghost var now, cs, im := log, store.captures, store.images;
      AddCapture(true, Some(a.sample.id), a.FromColor?);
      ArriveAdds(Clock(), QUEUE_DEFAULT_SIZE, now, a);
      RunOneMore(Clock(), QUEUE_DEFAULT_SIZE, st, arrivals, n);
      MoreOut(true, items, synchronizedImagesOnly, st.events, now.events, log.events);
      MergedMore(Clock(), now.pending.depth + Linkable(Some(a.sample.id), a.FromColor?), cs, im, store.captures, store.images,
                 st.events, now.events, log.events);
      StillDeliverable(now, cs, im, arrivals, n);
    }

    lemma StillDeliverable(now: Sync, cs: Captures, im: Images, arrivals: seq<Arrival>, n: nat)
      requires Valid() && running && OneSensorEach(arrivals) && n < |arrivals|
      requires log == Arrive(Clock(), QUEUE_DEFAULT_SIZE, true, now, arrivals[n])
      requires Steady(Clock(), now.pending.depth + Linkable(Some(arrivals[n].sample.id), arrivals[n].FromColor?), cs, im,
                      store.captures, store.images)
      requires forall k :: 0 <= k < |arrivals| ==>
                 && arrivals[k].sample.id in clients
                 && NotPending(Side(now.pending, !arrivals[k].FromColor?), arrivals[k].sample.id)
                 && SlotTime(im, cs.live, arrivals[k].sample.id, SlotFor(arrivals[k].FromColor?)) == Some(arrivals[k].sample.ts)
      ensures Deliverable(arrivals)
    {
      hide Sound, Rings, Synced, NotPending, SlotTime, Linkable, Arrive, Steady;
      forall k | 0 <= k < |arrivals|
        ensures Offers(arrivals[k].sample.id, arrivals[k].FromColor?, arrivals[k].sample.ts)
      {
        StillOffers(now, cs, im, arrivals[n], arrivals[k]);
      }
    }

    lemma StillOffers(now: Sync, cs: Captures, im: Images, a: Arrival, b: Arrival)
      requires Valid() && running && (a.FromColor? != b.FromColor? ==> a.sample.id != b.sample.id)
      requires log == Arrive(Clock(), QUEUE_DEFAULT_SIZE, true, now, a)
      requires Steady(Clock(), now.pending.depth + Linkable(Some(a.sample.id), a.FromColor?), cs, im,
                      store.captures, store.images)
      requires b.sample.id in clients && NotPending(Side(now.pending, !b.FromColor?), b.sample.id)
      requires SlotTime(im, cs.live, b.sample.id, SlotFor(b.FromColor?)) == Some(b.sample.ts)
      ensures Offers(b.sample.id, b.FromColor?, b.sample.ts)
    {
      hide Sound, Rings, Synced, SlotTime, Arrive;
      ArrivePending(Clock(), QUEUE_DEFAULT_SIZE, true, now, a, !b.FromColor?, b.sample.id);
      ClientIsOwned(Snapshot(), b.sample.id);
      OwnedCapture(store.captures, store.captureOwners, b.sample.id);
    }

    // ---------- The end of a session ----------

    /** The queues are stopped one after the other; what they held is released. */
    method StopQueues()
      requires Inv()
      modifies this`log, color.queue, depthIr.queue, syncQueue, store
      ensures Inv() && store.Shows() && !syncQueue.enabled && log == old(log).(pending := Held(old(log.pending)))
      ensures color.queue.stopped && depthIr.queue.stopped && syncQueue.stopped
    {
      hide Sound, Shown, CapturesBalanced, ImagesBalanced, Push, Window, Plus, Minus, Synced, Ids, Drain, Tracks,
        SlotTime, Frames.Carries, NotPending;
      ghost var s := Snapshot();
      StopEach(s);
      HaltKeeps(s, store.captures, store.images);
      ghost var now := log.(pending := Held(log.pending));
      TellLog(AfterHalt(s, store.captures, store.images), now);
    }

    method StopEach(ghost s: Snap)
      requires Inv() && s == Snapshot()
      modifies color.queue, depthIr.queue, syncQueue, store`captures, store`images, store`captureOwners
      ensures Rings() && store.Valid() && store.Shows() && !syncQueue.enabled
      ensures Snapshot() == AfterHalt(s, store.captures, store.images).(pending := s.pending)
      ensures color.queue.stopped && depthIr.queue.stopped && syncQueue.stopped
    {
      hide Sound, Shown, CapturesBalanced, ImagesBalanced, Push, Window, Ring.Valid, Plus, Minus, Synced, Ids, Drain,
        Tracks, SlotTime, Frames.Carries, NotPending;
      QueueShares(s);
      StopInTurn(s);
    }

    method StopInTurn(ghost s: Snap)
      requires Wired() && Rings() && store.Valid() && s == Snapshot()
      requires multiset(s.sync) <= s.owners && multiset(s.depth.items) <= s.owners - multiset(s.sync)
      requires multiset(s.color.items) <= s.owners - multiset(s.sync) - multiset(s.depth.items)
      modifies color.queue, depthIr.queue, syncQueue, store`captures, store`images, store`captureOwners
      ensures Rings() && store.Valid() && store.Shows() && !syncQueue.enabled
      ensures color.View() == s.color.(items := []) && depthIr.View() == s.depth.(items := []) && syncQueue.items == []
      ensures store.captureOwners == s.owners - multiset(s.sync) - multiset(s.depth.items) - multiset(s.color.items)
      ensures color.queue.stopped && depthIr.queue.stopped && syncQueue.stopped
    {
      hide Sound, Shown, CapturesBalanced, ImagesBalanced, Window;
      syncQueue.Stop(store);
      ghost var cs1, im1 := store.captures, store.images;
      depthIr.queue.Stop(store);
      ghost var cs2, im2 := store.captures, store.images;
      ShownThrough(s.cs, s.im, cs1, im1, cs2, im2);
      color.queue.Stop(store);
      ShownThrough(s.cs, s.im, cs2, im2, store.captures, store.images);
    }

    /** capturesync_start, also while it is running: the output promises synchronised captures only if nothing is in it
        yet. */
    method Start(fps: FramesPerSecond, imagesOnly: bool, delay: int, colorOff: bool, depthOff: bool) returns (started: bool)
      requires Valid()
      modifies this`log, this`assured, this`fpsPeriod, this`fpsQuarterPeriod, this`depthDelayOffColorUsec, this`syncCaptures
      modifies this`synchronizedImagesOnly, this`waitingForCleanDepthTs, this`running
      modifies color.queue, depthIr.queue, syncQueue
      ensures Valid() && started == (fps != FPS_OTHER) && running == (started || old(running))
      ensures synchronizedImagesOnly == imagesOnly && log == old(log).(waiting := true)
      ensures syncQueue.items == old(syncQueue.items)
      ensures if started then
                && fpsPeriod == (match fps case FPS_5 => 200000 case FPS_15 => 66666 case _ => 33333)
                && fpsQuarterPeriod == (match fps case FPS_5 => 50000 case FPS_15 => 16666 case _ => 8333)
                && depthDelayOffColorUsec == delay && syncQueue.enabled
                && Synchronising() == (!colorOff && !depthOff && !disableSync)
                && assured == (imagesOnly && Synchronising() && syncQueue.items == [])
              else
                && Clock() == old(Clock()) && syncQueue.enabled == old(syncQueue.enabled)
                && assured == (old(assured) && imagesOnly)
    {
      hide Sound, Rings, Wired, Store.Valid, Quiescent, Config;
      ResetFrames(imagesOnly);
      var rate := ConvertFps(fps);
      started := 0 < rate;
      if started {
        var period := MICRO_SECONDS / rate;
        Begin(period, delay, colorOff || depthOff);
      }
    }

    /** The part of capturesync_start for a rate that is known. */
    method Begin(period: nat, delay: int, oneSensorOff: bool)
      requires Valid() && 0 < period
      modifies this`assured, this`fpsPeriod, this`fpsQuarterPeriod, this`depthDelayOffColorUsec, this`syncCaptures
      modifies this`running, color.queue, depthIr.queue, syncQueue
      ensures Valid() && running && syncQueue.enabled && syncQueue.items == old(syncQueue.items)
      ensures fpsPeriod == period && fpsQuarterPeriod == period / 4 && depthDelayOffColorUsec == delay
      ensures Synchronising() == (!oneSensorOff && !disableSync)
      ensures assured == (synchronizedImagesOnly && Synchronising() && syncQueue.items == [])
    {
      hide Sound, Rings, Wired, Store.Valid, Quiescent, Config;
      SetClock(period, delay);
      ChooseMode(oneSensorOff);
      Enable();
    }

    /** The beginning of capturesync_start, which a failed start has done, too. */
    method ResetFrames(imagesOnly: bool)
      requires Valid()
      modifies this`log, this`assured, this`synchronizedImagesOnly, this`waitingForCleanDepthTs
      ensures Valid() && synchronizedImagesOnly == imagesOnly && log == old(log).(waiting := true)
      ensures assured == (old(assured) && imagesOnly)
    {
      hide Sound, Rings, Wired, Store.Valid, Ring.Valid;
      ghost var s := Snapshot();
      waitingForCleanDepthTs := true;
      log := log.(waiting := true);
      synchronizedImagesOnly := imagesOnly;
      assured := assured && imagesOnly;
      assert Config();
      StartIsSound(s, s.enabled, assured, s.t);
      assert Snapshot() == s.(enabled := s.enabled, only := assured, t := s.t);
    }

    /** The timing of a start whose rate is known. What is in the output no longer goes by it. */
    method SetClock(period: nat, delay: int)
      requires Valid() && 0 < period
      modifies this`assured, this`fpsPeriod, this`fpsQuarterPeriod, this`depthDelayOffColorUsec
      ensures Valid() && Clock() == Timing(period, delay) && fpsQuarterPeriod == period / 4 && !assured
    {
      hide Sound, Rings, Wired, Store.Valid, Quiescent, Ring.Valid;
      ghost var s := Snapshot();
      fpsPeriod := period;
      fpsQuarterPeriod := fpsPeriod / 4;
      depthDelayOffColorUsec := delay;
      assured := false;
      assert Config();
      StartIsSound(s, s.enabled, false, Clock());
      assert Snapshot() == s.(enabled := s.enabled, only := false, t := Clock());
    }

    /** With one sensor only there is nothing to synchronise. */
    method ChooseMode(oneSensorOff: bool)
      requires Valid() && !assured
      modifies this`assured, this`syncCaptures
      ensures Valid() && Synchronising() == (!oneSensorOff && !disableSync)
      ensures assured == (synchronizedImagesOnly && Synchronising() && syncQueue.items == [])
    {
      hide Sound, Rings, Wired, Store.Valid, Quiescent, Ring.Valid;
      ghost var s := Snapshot();
      syncCaptures := true;
      if oneSensorOff {
        syncCaptures := false;
      }
      assured := synchronizedImagesOnly && Synchronising() && syncQueue.items == [];
      StartIsSound(s, s.enabled, assured, s.t);
      assert Snapshot() == s.(enabled := s.enabled, only := assured, t := s.t);
    }

    /** The end of capturesync_start. */
    method Enable()
      requires Valid() && 0 < fpsPeriod
      modifies this`running, color.queue, depthIr.queue, syncQueue
      ensures Valid() && running && syncQueue.enabled && syncQueue.items == old(syncQueue.items)
    {
      hide Rings, Sound, CapturesBalanced, ImagesBalanced, Window, Ring.Valid;
      ghost var s := Snapshot();
      EnableQueues(s);
      running := true;
      StartIsSound(s, true, s.only, s.t);
      assert Snapshot() == s.(enabled := true, only := s.only, t := s.t);
    }

    method EnableQueues(ghost s: Snap)
      requires Wired() && Rings() && s == Snapshot()
      modifies color.queue, depthIr.queue, syncQueue
      ensures Rings() && Snapshot() == s.(enabled := true)
    {
      hide Window, Sound;
      color.queue.SetEnabled();
      depthIr.queue.SetEnabled();
      syncQueue.SetEnabled();
      assert color.View() == s.color && depthIr.View() == s.depth;
    }

    /** capturesync_stop */
    method Stop()
      requires Inv()
      modifies this`log, this`running, color, depthIr, color.queue, depthIr.queue, syncQueue, store
      ensures Valid() && !running && !syncQueue.enabled && log == old(log).(pending := Pending([], []))
      ensures store.captureOwners == clients && store.imageOwners == clientImages
    {
      hide Sound, Shown, CapturesBalanced, ImagesBalanced, Push, Window, Plus, Minus, Synced, Ids, Drain, Tracks,
        SlotTime, Frames.Carries, NotPending;
      DisableQueues();
      ReleaseHeld(true);
      ReleaseHeld(false);
      running := false;
      OnlyClients(Snapshot());
    }

    method DisableQueues()
      requires Inv()
      modifies this`log, color.queue, depthIr.queue, syncQueue, store
      ensures Inv() && !syncQueue.enabled && log == old(log).(pending := Held(old(log.pending)))
    {
      hide Sound, Shown, CapturesBalanced, ImagesBalanced, Push, Window, Plus, Minus, Synced, Ids, Drain, Tracks,
        SlotTime, Frames.Carries, NotPending;
      ghost var s := Snapshot();
      DisableEach(s);
      HaltKeeps(s, store.captures, store.images);
      ghost var now := log.(pending := Held(log.pending));
      TellLog(AfterHalt(s, store.captures, store.images), now);
    }

    method DisableEach(ghost s: Snap)
      requires Inv() && s == Snapshot()
      modifies color.queue, depthIr.queue, syncQueue, store`captures, store`images, store`captureOwners
      ensures Rings() && store.Valid() && store.Shows() && !syncQueue.enabled
      ensures Snapshot() == AfterHalt(s, store.captures, store.images).(pending := s.pending)
    {
      hide Sound, Shown, CapturesBalanced, ImagesBalanced, Push, Window, Ring.Valid, Plus, Minus, Synced, Ids, Drain,
        Tracks, SlotTime, Frames.Carries, NotPending;
      QueueShares(s);
      DisableInTurn(s);
    }

    method DisableInTurn(ghost s: Snap)
      requires Wired() && Rings() && store.Valid() && s == Snapshot()
      requires multiset(s.color.items) <= s.owners && multiset(s.depth.items) <= s.owners - multiset(s.color.items)
      requires multiset(s.sync) <= s.owners - multiset(s.color.items) - multiset(s.depth.items)
      modifies color.queue, depthIr.queue, syncQueue, store`captures, store`images, store`captureOwners
      ensures Rings() && store.Valid() && store.Shows() && !syncQueue.enabled
      ensures color.View() == s.color.(items := []) && depthIr.View() == s.depth.(items := []) && syncQueue.items == []
      ensures store.captureOwners == s.owners - multiset(s.color.items) - multiset(s.depth.items) - multiset(s.sync)
    {
      hide Sound, Shown, CapturesBalanced, ImagesBalanced, Window;
      color.queue.Disable(store);
      ghost var cs1, im1 := store.captures, store.images;
      depthIr.queue.Disable(store);
      ghost var cs2, im2 := store.captures, store.images;
      ShownThrough(s.cs, s.im, cs1, im1, cs2, im2);
      syncQueue.Disable(store);
      ShownThrough(s.cs, s.im, cs2, im2, store.captures, store.images);
    }

    /** The held sample is released, if there is one; its ring is empty already. */
    method ReleaseHeld(colorCapture: bool)
      requires Inv() && !syncQueue.enabled
      modifies this`log, Frame(colorCapture), store
      ensures Inv() && log == old(log).(pending := SetSide(old(log.pending), colorCapture, []))
    {
      hide Sound, Shown, CapturesBalanced, ImagesBalanced, Push, Window, Plus, Minus, Synced, Ids, Drain, Tracks,
        SlotTime, Frames.Carries, NotPending, Advanced;
      ghost var s, q := Snapshot(), Side(log.pending, colorCapture);
      LetGoOf(s, colorCapture);
      ghost var v, cs, im := FrameOf(Snapshot(), colorCapture), store.captures, store.images;
      if q != [] {
        assert q[1..] == [];
        DropKeeps(s, colorCapture, v, cs, im);
        ghost var now := log.(pending := SetSide(log.pending, colorCapture, []));
        TellLog(AfterDrop(s, colorCapture, v, cs, im), now);
      } else {
        StillSound(s, cs, im);
        TellLog(s.(cs := cs, im := im), log);
      }
    }

    /** The frame's own part. */
    method LetGoOf(ghost s: Snap, colorCapture: bool)
      requires Inv() && !syncQueue.enabled && s == Snapshot()
      modifies Frame(colorCapture), store
      ensures store.Valid() && store.Shows() && |Side(s.pending, colorCapture)| <= 1
      ensures var v, q := FrameOf(Snapshot(), colorCapture), Side(s.pending, colorCapture);
              if q == [] then Snapshot() == s.(cs := store.captures, im := store.images)
              else
                && Advanced(v, [], SlotFor(colorCapture), store.captures, store.images)
                && Snapshot() == AfterDrop(s, colorCapture, v, store.captures, store.images).(pending := s.pending)
    {
      hide Sound, Shown, CapturesBalanced, ImagesBalanced, Push, Window, Ring.Valid, Plus, Minus, Synced, Ids, Drain,
        Tracks, SlotTime, Frames.Carries, NotPending;
      var f := Frame(colorCapture);
      HeldIsHead(s, colorCapture);
      HeldIsOwned(s, colorCapture);
      f.LetGo(store);
      NoneLeft(s, colorCapture);
      if colorCapture {
        assert depthIr.View() == s.depth;
      } else {
        assert color.View() == s.color;
      }
    }

    // ---------- The consumer and the owners of handles ----------

    /** capturesync_get_capture up to its return or to the wait for a capture. What is handed out becomes a client's. */
    method GetCapture(timeout: int) returns (o: PopOutcome)
      requires Valid()
      modifies this`clients, syncQueue, store
      ensures Valid() && syncQueue.Is(PopStart(old(syncQueue.Model()), timeout).queue)
      ensures o == PopStart(old(syncQueue.Model()), timeout).outcome && clients == Plus(old(clients), Handed(o))
      ensures Handed(o).Some? && Snapshot().only ==> IsSynced(Handed(o).value)
      ensures syncQueue.enabled == old(syncQueue.enabled)
      ensures o == Waiting <==> syncQueue.enabled && old(syncQueue.items) == [] && timeout != 0
      ensures !syncQueue.enabled ==> o == Returned(FAILED, None)
      ensures syncQueue.enabled && old(syncQueue.items) != [] ==>
                o == Returned(SUCCEEDED, Some(old(syncQueue.items)[0])) && syncQueue.items == old(syncQueue.items)[1..]
      ensures syncQueue.enabled && old(syncQueue.items) == [] ==>
                syncQueue.items == [] && (timeout == 0 ==> o == Returned(TIMEOUT, None))
    {
      hide Sound, Shown, CapturesBalanced, ImagesBalanced, Window, Minus, Synced, Ids, Drain, Tracks, SlotTime,
        NotPending, PopStart;
      ghost var s, q := Snapshot(), syncQueue.Model();
      OutputShare(s);
      StartTakes(q, timeout);
      o := syncQueue.PopEnter(store, timeout);
      HandOut(s, Handed(o));
    }

    /** The rest of a capturesync_get_capture that had to wait. */
    method ResumeGetCapture(posted: bool) returns (o: PopOutcome)
      requires Valid() && 0 < syncQueue.popBlocked
      modifies this`clients, syncQueue, store
      ensures Valid() && syncQueue.Is(PopResume(old(syncQueue.Model()), posted).queue)
      ensures o == PopResume(old(syncQueue.Model()), posted).outcome && clients == Plus(old(clients), Handed(o))
      ensures Handed(o).Some? && Snapshot().only ==> IsSynced(Handed(o).value)
      ensures syncQueue.enabled == old(syncQueue.enabled)
      ensures !syncQueue.enabled ==> o == Returned(FAILED, None)
      ensures syncQueue.enabled && !posted ==> o == Returned(TIMEOUT, None) && syncQueue.items == old(syncQueue.items)
      ensures syncQueue.enabled && posted && old(syncQueue.items) != [] ==>
                o == Returned(SUCCEEDED, Some(old(syncQueue.items)[0])) && syncQueue.items == old(syncQueue.items)[1..]
      ensures syncQueue.enabled && posted && old(syncQueue.items) == [] ==>
                o == Returned(SUCCEEDED, None) && syncQueue.items == []
    {
      hide Sound, Shown, CapturesBalanced, ImagesBalanced, Window, Minus, Synced, Ids, Drain, Tracks, SlotTime,
        NotPending, PopResume;
      ghost var s, q := Snapshot(), syncQueue.Model();
      OutputShare(s);
      ResumeTakes(q, posted);
      o := syncQueue.PopContinue(store, posted);
      HandOut(s, Handed(o));
    }

    /** In the synchronised-images-only mode: the capture carries a color and an IR image that belong together. */
    ghost predicate IsSynced(c: CaptureId)
      reads this, store
    {
      Synced(Clock(), store.captures, store.images, c)
    }

    ghost method HandOut(s: Snap, c: Option<CaptureId>)
      requires Wired() && Rings() && store.Valid() && Config() && Quiescent(log) && Sound(s)
      requires Shown(s.cs, s.im, store.captures, store.images)
      requires Snapshot() == s.(cs := store.captures, im := store.images, sync := syncQueue.items)
      requires if c == None then syncQueue.items == s.sync else s.sync != [] && c.value == s.sync[0] && syncQueue.items == s.sync[1..]
      modifies this`clients
      ensures Valid() && clients == Plus(old(clients), c)
      ensures c.Some? && s.only ==> IsSynced(c.value)
    {
      hide Sound, Shown, CapturesBalanced, ImagesBalanced, Window, Minus, Synced, Tracks, SlotTime;
      ghost var now := s.(cs := store.captures, im := store.images);
      StillSound(s, store.captures, store.images);
      clients := Plus(clients, c);
      if c.Some? {
        TakeKeeps(now);
        assert Snapshot() == now.(sync := now.sync[1..], clients := now.clients + multiset{c.value});
      } else {
        assert Snapshot() == now;
      }
    }

    /** A client makes a capture, whose one reference is its own. */
    method ClientCreates() returns (c: CaptureId)
      requires Valid()
      modifies this`clients, store`captures, store`captureOwners
      ensures Valid() && clients == old(clients) + multiset{c} && c !in old(store.captures.live)
      ensures store.captures.live == old(store.captures.live)[c := Capture(1, [None, None, None])]
      ensures NotPending(log.pending.color, c) && NotPending(log.pending.depth, c) && c !in syncQueue.items
    {
      hide Rings, Sound, CapturesBalanced, ImagesBalanced, ElsewhereSame, NotPending;
      ghost var s := Snapshot();
      c := store.CaptureCreate();
      MadeIsUnwatched(s, c);
      MadeElsewhere(s.cs, s.im, store.captures, c, Capture(1, [None, None, None]));
      ElsewhereSound(s, multiset{c}, store.captures, store.images, c, COLOR);
      clients := clients + multiset{c};
      assert Snapshot() == s.(cs := store.captures, im := store.images, owners := s.owners + multiset{c},
                              clients := s.clients + multiset{c});
    }

    /** A client takes one more reference to a capture; an invalid handle is ignored. */
    method ClientRetains(c: CaptureId)
      requires Valid()
      modifies this`clients, store`captures, store`captureOwners
      ensures Valid() && store.Shows()
      ensures clients == old(clients) + if c in old(store.captures.live) then multiset{c} else multiset{}
    {
      hide Rings, Sound, Shown, CapturesBalanced, ImagesBalanced;
      ghost var s := Snapshot();
      LiveIffOwned(s.cs, s.owners, Some(c));
      store.CaptureIncRef(Some(c));
      if c in s.cs.live {
        CaptureGained(s, c);
      } else {
        StillSound(s, store.captures, store.images);
        assert Snapshot() == s.(cs := store.captures, im := store.images);
      }
    }

    /** A client has come to own one more capture reference. */
    ghost method CaptureGained(s: Snap, c: CaptureId)
      requires Wired() && Rings() && store.Valid() && Config() && Quiescent(log) && Sound(s)
      requires Shown(s.cs, s.im, store.captures, store.images)
      requires Snapshot() == s.(cs := store.captures, im := store.images, owners := s.owners + multiset{c})
      modifies this`clients
      ensures Valid() && clients == old(clients) + multiset{c}
    {
      hide Rings, Sound, Shown, CapturesBalanced, ImagesBalanced;
      clients := clients + multiset{c};
      ClientMore(s, c, store.captures, store.images);
      assert Snapshot() == s.(cs := store.captures, im := store.images, owners := s.owners + multiset{c},
                              clients := s.clients + multiset{c});
    }

    /** A client makes an image, whose one reference is its own. */
    method ClientCreatesImage(format: int, width: int, height: int, buffer: nat, size: nat,
                              callback: Option<(nat, nat)>, timestamp: nat) returns (i: Option<ImageId>)
      requires Valid()
      modifies this`clientImages, store`images, store`imageOwners
      ensures Valid() && store.Shows() && clientImages == Plus(old(clientImages), i)
      ensures i.Some? <==> 0 <= format <= 8 && 0 < width <= 20000 && 0 < height <= 20000 && buffer != 0 && size != 0
      ensures i.Some? ==> i.value !in old(store.images.live)
                          && store.images.live == old(store.images.live)[i.value := Image(1, timestamp, buffer, callback)]
    {
      hide Rings, Sound, Shown, CapturesBalanced, ImagesBalanced, Plus;
      ghost var s := Snapshot();
      i := store.ImageCreateFromBuffer(format, width, height, buffer, size, callback, timestamp);
      ImageGained(s, i);
    }

    /** A client takes one more reference to an image; an invalid handle is ignored. */
    method ClientRetainsImage(i: ImageId)
      requires Valid()
      modifies this`clientImages, store`images, store`imageOwners
      ensures Valid() && store.Shows()
      ensures clientImages == old(clientImages) + if i in old(store.images.live) then multiset{i} else multiset{}
    {
      hide Rings, Sound, Shown, CapturesBalanced, ImagesBalanced;
      ghost var s := Snapshot();
      ShownAgain(s.cs, s.im);
      if i in store.images.live {
        store.RetainImage(Some(i));
        ImageGained(s, Some(i));
      }
    }

    /** A client asks for an image of a capture and gets a reference of its own to it. */
    method ClientGetsImage(c: CaptureId, k: nat) returns (i: Option<ImageId>)
      requires Valid() && k < IMAGE_TYPE_COUNT
      modifies this`clientImages, store`images, store`imageOwners
      ensures Valid() && store.Shows() && clientImages == Plus(old(clientImages), i)
      ensures i == if c in store.captures.live && k < |store.captures.live[c].image| then store.captures.live[c].image[k] else None
    {
      hide Rings, Sound, Shown, CapturesBalanced, ImagesBalanced, Plus;
      ghost var s := Snapshot();
      LiveIffOwned(s.cs, s.owners, Some(c));
      i := store.CaptureGetImage(Some(c), k);
      ImageGained(s, i);
    }

    /** A client has come to own one more image reference. */
    ghost method ImageGained(s: Snap, i: Option<ImageId>)
      requires Wired() && Rings() && store.Valid() && Config() && Quiescent(log) && Sound(s)
      requires Shown(s.cs, s.im, store.captures, store.images)
      requires Snapshot() == s.(cs := store.captures, im := store.images, imageOwners := Plus(s.imageOwners, i))
      modifies this`clientImages
      ensures Valid() && clientImages == Plus(old(clientImages), i)
    {
      hide Rings, Sound, Shown, CapturesBalanced, ImagesBalanced, Plus;
      clientImages := Plus(clientImages, i);
      ClientImageMore(s, i, store.captures, store.images);
      assert Snapshot() == s.(cs := store.captures, im := store.images, imageOwners := Plus(s.imageOwners, i),
                              clientImages := Plus(s.clientImages, i));
    }

    /** A client sets an image of a capture, as the camera readers do before they hand the capture over; an invalid
        capture handle is ignored. The capture holds the image from then on, besides the client. */
    method ClientSetsImage(c: CaptureId, k: nat, i: Option<ImageId>)
      requires Valid() && k < IMAGE_TYPE_COUNT && (i.Some? ==> i.value in clientImages)
      requires Unwatched(Snapshot(), c, k)
      modifies store`captures, store`images
      ensures Valid()
      ensures i.Some? ==> i.value in old(store.images.live)
      ensures var live := old(store.captures.live); c in live ==>
                && k < |live[c].image| && store.captures.live == WithSlot(live, c, k, i)
                && store.TimeOf(c, k) == (if i == None then None else Some(old(store.images.live)[i.value].timestamp))
      ensures c !in old(store.captures.live) ==> store.captures == old(store.captures) && store.images == old(store.images)
    {
      hide Rings, Sound, Shown, CapturesBalanced, ImagesBalanced, Unwatched, ElsewhereSame, SlotTime, Wired, Config, Quiescent;
      ghost var s := Snapshot();
      LiveIffOwned(s.cs, s.owners, Some(c));
      if i.Some? {
        ClientImageIsOwned(s, i.value);
        OwnedImageIsLive(s.im, s.cs.live, s.imageOwners, i.value);
      }
      store.CaptureSetImage(Some(c), k, i);
      if c in s.cs.live {
        SetSound(s, c, k, i, store.captures, store.images);
      }
      assert Snapshot() == s.(cs := store.captures, im := store.images);
    }

    /** A client gives a capture handle back. */
    method ClientReleases(c: CaptureId)
      requires Valid() && c in clients
      modifies this`clients, store`captures, store`images, store`captureOwners
      ensures Valid() && clients == old(clients) - multiset{c} && store.Shows()
    {
      hide Sound, Shown, CapturesBalanced, ImagesBalanced, Push, Window, Plus, Minus, Synced, Ids, Drain, Tracks,
        SlotTime, Frames.Carries, NotPending;
      ghost var s := Snapshot();
      ClientIsOwned(s, c);
      store.CaptureDecRef(Some(c));
      clients := clients - multiset{c};
      ClientGone(s, c, store.captures, store.images);
      assert Snapshot() == AfterClientGone(s, c, store.captures, store.images);
    }

    /** A client gives an image handle back. */
    method ClientReleasesImage(i: ImageId)
      requires Valid() && i in clientImages
      modifies this`clientImages, store`images, store`imageOwners
      ensures Valid() && clientImages == old(clientImages) - multiset{i} && store.Shows()
    {
      hide Sound, Shown, CapturesBalanced, ImagesBalanced, Push, Window, Plus, Minus, Synced, Ids, Drain, Tracks,
        SlotTime, Frames.Carries, NotPending;
      ghost var s := Snapshot();
      ClientImageIsOwned(s, i);
      store.ReleaseImage(Some(i));
      clientImages := clientImages - multiset{i};
      ClientImageGone(s, i, store.captures, store.images);
      assert Snapshot() == AfterClientImageGone(s, i, store.captures, store.images);
    }

    /** A color reader's frame: the reader makes an image and a capture that shows it, hands the capture over, and
        keeps nothing. A frame that makes no image is handed over as a failure. */
    method DeliverColor(format: int, width: int, height: int, buffer: nat, size: nat, callback: Option<(nat, nat)>,
                        timestamp: nat) returns (capture: Option<CaptureId>)
      requires Valid()
      modifies this`log, this`clients, this`clientImages, this`waitingForCleanDepthTs, this`depthCapturesDropped
      modifies color, depthIr, color.queue, depthIr.queue, color.queue.queue, depthIr.queue.queue
      modifies syncQueue, syncQueue.queue, store
      ensures Valid() && clients == old(clients) && clientImages == old(clientImages)
      ensures capture.Some? <==> 0 <= format <= 8 && 0 < width <= 20000 && 0 < height <= 20000 && buffer != 0 && size != 0
      ensures capture.None? ==> !syncQueue.enabled && log == old(log).(pending := Held(old(log.pending)))
      ensures capture.Some? ==> capture.value !in old(store.captures.live) && syncQueue.enabled == old(syncQueue.enabled)
      ensures capture.Some? && running ==>
                if !Synchronising() then
                  && log == old(log)
                  && syncQueue.items == Push(old(syncQueue.Model()), capture.value, false).queue.items
                else
                  && log == Arrive(Clock(), QUEUE_DEFAULT_SIZE, syncQueue.enabled, old(log),
                                   FromColor(Sample(capture.value, timestamp)))
                  && syncQueue.items == Kept(syncQueue.enabled, old(syncQueue.items),
                                             Outputs(synchronizedImagesOnly, Since(old(log.events), log.events)))
    {
      hide Rings, Sound, Wired, Config, Store.Valid, Shown, CapturesBalanced, ImagesBalanced, Plus, Steady,
        MergedSynced, Kept, Outputs, Arrive, SlotTime, Push, Ring.Valid, Linkable, Held;
      ghost var images := clientImages;
      var image := ClientCreatesImage(format, width, height, buffer, size, callback, timestamp);
      PlusHas(images, image);
      PlusThenMinus(images, image);
      if image.None? {
        AddCapture(false, None, true);
        return None;
      }
      var c := Deliver(image.value);
      capture := Some(c);
    }

    /** The reader's image goes to the synchroniser in a capture, and the reader gives both up. */
    method Deliver(i: ImageId) returns (c: CaptureId)
      requires Valid() && i in clientImages
      modifies this`log, this`clients, this`clientImages, this`waitingForCleanDepthTs, this`depthCapturesDropped
      modifies color, depthIr, color.queue, depthIr.queue, color.queue.queue, depthIr.queue.queue
      modifies syncQueue, syncQueue.queue, store
      ensures Valid() && clients == old(clients) && clientImages == Minus(old(clientImages), Some(i))
      ensures syncQueue.enabled == old(syncQueue.enabled)
      ensures c !in old(store.captures.live) && i in old(store.images.live)
      ensures running && !Synchronising() ==>
                log == old(log) && syncQueue.items == Push(old(syncQueue.Model()), c, false).queue.items
      ensures running && Synchronising() ==>
                var ts := old(store.images.live)[i].timestamp;
                && log == Arrive(Clock(), QUEUE_DEFAULT_SIZE, syncQueue.enabled, old(log), FromColor(Sample(c, ts)))
                && syncQueue.items == Kept(syncQueue.enabled, old(syncQueue.items),
                                           Outputs(synchronizedImagesOnly, Since(old(log.events), log.events)))
    {
      hide Rings, Sound, Wired, Store.Valid, Shown, CapturesBalanced, ImagesBalanced, Plus, Minus, Kept, Outputs, Arrive,
        Push, Ring.Valid, SlotTime;
      c := HandOver(i);
      GiveBack(i, c);
    }

    /** The reader's image goes into a new capture, and that to the synchroniser. */
    method HandOver(i: ImageId) returns (c: CaptureId)
      requires Valid() && i in clientImages
      modifies this`log, this`clients, this`waitingForCleanDepthTs, this`depthCapturesDropped
      modifies color, depthIr, color.queue, depthIr.queue, color.queue.queue, depthIr.queue.queue
      modifies syncQueue, syncQueue.queue, store
      ensures Valid() && clients == old(clients) + multiset{c} && syncQueue.enabled == old(syncQueue.enabled)
      ensures c !in old(store.captures.live) && i in old(store.images.live)
      ensures running && !Synchronising() ==>
                log == old(log) && syncQueue.items == Push(old(syncQueue.Model()), c, false).queue.items
      ensures running && Synchronising() ==>
                var ts := old(store.images.live)[i].timestamp;
                && log == Arrive(Clock(), QUEUE_DEFAULT_SIZE, syncQueue.enabled, old(log), FromColor(Sample(c, ts)))
                && syncQueue.items == Kept(syncQueue.enabled, old(syncQueue.items),
                                           Outputs(synchronizedImagesOnly, Since(old(log.events), log.events)))
    {
      hide Rings, Sound, Wired, Store.Valid, Shown, CapturesBalanced, ImagesBalanced, Plus, Steady, MergedSynced, Kept,
        Outputs, Arrive, NotPending, SlotTime, Push, Ring.Valid, Linkable;
      c := Wrap(i);
      AddCapture(true, Some(c), true);
    }

    /** A new capture that shows a client's image as its color image. */
    method Wrap(i: ImageId) returns (c: CaptureId)
      requires Valid() && i in clientImages
      modifies this`clients, store`captures, store`captureOwners, store`images
      ensures Valid() && clients == old(clients) + multiset{c} && c !in old(store.captures.live)
      ensures NotPending(log.pending.depth, c)
      ensures i in old(store.images.live) && store.TimeOf(c, COLOR) == Some(old(store.images.live)[i].timestamp)
    {
      hide Rings, Sound, Wired, Config, Store.Valid, Shown, CapturesBalanced, ImagesBalanced, NotPending, SlotTime, WithSlot;
      c := ClientCreates();
      ClientSetsImage(c, COLOR, Some(i));
    }

    /** image_dec_ref and capture_dec_ref at the end of the reader's callback. */
    method GiveBack(i: ImageId, c: CaptureId)
      requires Valid() && i in clientImages && c in clients
      modifies this`clients, this`clientImages, store
      ensures Valid() && clients == old(clients) - multiset{c} && clientImages == Minus(old(clientImages), Some(i))
    {
      hide Rings, Sound, Wired, Config, Store.Valid, Shown, CapturesBalanced, ImagesBalanced;
      ClientReleasesImage(i);
      ClientReleases(c);
    }

    /** After a stop and the release of the clients' handles no capture and no image survives, and each one ever
        created was destroyed exactly once. */
    lemma NothingIsLeaked()
      requires Valid() && !running && clients == multiset{} && clientImages == multiset{}
      ensures store.captures.live == map[] && store.images.live == map[]
      ensures forall c: CaptureId :: c < store.captures.next ==> multiset(store.captures.destroyed)[c] == 1
      ensures forall i: ImageId :: i < store.images.next ==> multiset(store.images.destroyed)[i] == 1
    {
      hide Sound;
      OnlyClients(Snapshot());
      NothingSurvives(store.images, store.captures);
    }
  }
}
