/** One sensor of the synchroniser: the oldest pending capture, held outside the ring with its image and timestamp. */
module Frames {
  import opened CaptureStore
  import opened QueueModel
  import opened RingQueue

  const UINT64_MAX: nat := 0xFFFF_FFFF_FFFF_FFFF

  /** A sensor's fields as a value. */
  datatype Frame = Frame(capture: Option<CaptureId>, image: Option<ImageId>, ts: nat, items: seq<CaptureId>)

  /** What a capture shows in the slot that carries the sensor's timestamp. */
  ghost predicate Carries(cs: Captures, im: Images, c: CaptureId, slot: nat, image: ImageId, ts: nat) {
    && c in cs.live && slot < |cs.live[c].image| && cs.live[c].image[slot] == Some(image)
    && SlotTime(im, cs.live, c, slot) == Some(ts)
  }

  lemma TimeIsShown(cs: Captures, im: Images, cs': Captures, im': Images, c: CaptureId, k: nat)
    requires Shown(cs, im, cs', im') && c in cs'.live
    ensures SlotTime(im', cs'.live, c, k) == SlotTime(im, cs.live, c, k)
  {
  }

  lemma CarriesStill(cs: Captures, im: Images, cs': Captures, im': Images, c: CaptureId, slot: nat, image: ImageId, ts: nat)
    requires Carries(cs, im, c, slot, image, ts) && Shown(cs, im, cs', im') && c in cs'.live
    ensures Carries(cs', im', c, slot, image, ts)
  {
  }

  lemma CarriesTime(cs: Captures, im: Images, c: CaptureId, slot: nat, image: ImageId, ts: nat)
    requires Carries(cs, im, c, slot, image, ts)
    ensures SlotTime(im, cs.live, c, slot) == Some(ts)
  {
  }

  class FrameInfo {
    const colorCapture: bool
    const queue: Ring
    var capture: Option<CaptureId>
    var image: Option<ImageId>
    var ts: nat

    constructor (colorCapture: bool, queue: Ring)
      ensures this.colorCapture == colorCapture && this.queue == queue
      ensures capture == None && image == None && ts == 0
    {
      this.colorCapture, this.queue := colorCapture, queue;
      capture, image, ts := None, None, 0;
    }

    /** get_typed_image: the color image of color captures, the IR image of depth captures. */
    function Slot(): nat {
      if colorCapture then COLOR else IR
    }

    ghost function View(): Frame
      reads this, queue
    {
      Frame(capture, image, ts, queue.items)
    }

    /** The frame comes to hold c, which must bring its own reference. */
    method Load(store: Store, c: CaptureId)
      requires store.Valid() && c in store.captureOwners
      modifies this, store`images, store`imageOwners
      ensures store.Valid() && store.Shows() && store.imageOwners == Plus(old(store.imageOwners), image)
      ensures capture == Some(c) && image.Some? == old(store.TimeOf(c, Slot())).Some?
      ensures image.Some? ==> Carries(store.captures, store.images, c, Slot(), image.value, ts)
      ensures image.None? ==> ts == 0
    {
      hide CapturesBalanced, ImagesBalanced;
      OwnedCapture(store.captures, store.captureOwners, c);
      image := store.CaptureGetImage(Some(c), Slot());
      ts := store.ImageTimestamp(image);
      capture := Some(c);
    }

    /** Both references go. */
    method Release(store: Store)
      requires store.Valid() && (capture.Some? ==> capture.value in store.captureOwners)
      requires image.Some? ==> image.value in store.imageOwners
      modifies this`capture, this`image, store`captures, store`images, store`captureOwners, store`imageOwners
      ensures store.Valid() && store.Shows() && capture == None && image == None
      ensures store.captureOwners == Minus(old(store.captureOwners), old(capture))
      ensures store.imageOwners == Minus(old(store.imageOwners), old(image))
    {
      hide CapturesBalanced, ImagesBalanced, Shown;
      ghost var cs, im := store.captures, store.images;
      store.CaptureDecRef(capture);
      capture := None;
      ghost var cs1, im1 := store.captures, store.images;
      store.ReleaseImage(image);
      image := None;
      ShownThrough(cs, im, cs1, im1, store.captures, store.images);
    }

    /** What capturesync_stop does with the frame. */
    method LetGo(store: Store)
      requires store.Valid() && (capture.Some? ==> capture.value in store.captureOwners)
      requires image.Some? ==> image.value in store.imageOwners
      modifies this, store`captures, store`images, store`captureOwners, store`imageOwners
      ensures store.Valid() && store.Shows() && capture == None && image == None
      ensures ts == if old(capture).Some? then UINT64_MAX else old(ts)
      ensures store.captureOwners == Minus(old(store.captureOwners), old(capture))
      ensures store.imageOwners == Minus(old(store.imageOwners), old(image))
    {
      hide CapturesBalanced, ImagesBalanced, Shown;
      ghost var cs, im := store.captures, store.images;
      ShownAgain(cs, im);
      if capture.Some? {
        store.CaptureDecRef(capture);
        capture := None;
        ts := UINT64_MAX;
      }
      ghost var cs1, im1 := store.captures, store.images;
      if image.Some? {
        store.ReleaseImage(image);
        image := None;
        ShownThrough(cs, im, cs1, im1, store.captures, store.images);
      }
    }

    /** The second half of replace_sample: the held capture makes place for another one. */
    method Replace(store: Store, c: CaptureId)
      requires store.Valid() && (capture.Some? ==> capture.value in store.captureOwners)
      requires image.Some? ==> image.value in store.imageOwners
      requires c in Minus(store.captureOwners, capture)
      modifies this, store`captures, store`images, store`captureOwners, store`imageOwners
      ensures store.Valid() && store.Shows()
      ensures store.captureOwners == Minus(old(store.captureOwners), old(capture))
      ensures store.imageOwners == Plus(Minus(old(store.imageOwners), old(image)), image)
      ensures old(capture).None? ==> capture == None && image == None && ts == 0
      ensures old(capture).Some? ==>
                && capture == Some(c) && image.Some? == old(store.TimeOf(c, Slot())).Some?
                && (image.Some? ==> Carries(store.captures, store.images, c, Slot(), image.value, ts))
                && (image.None? ==> ts == 0)
    {
      hide CapturesBalanced, ImagesBalanced, Shown, SlotTime, Carries, Minus;
      var held := capture;
      ghost var cs, im := store.captures, store.images;
      Release(store);
      ghost var cs1, im1 := store.captures, store.images;
      OwnedCapture(cs1, store.captureOwners, c);
      ghost var slot := Slot();
      TimeIsShown(cs, im, cs1, im1, c, slot);
      if held.Some? {
        Load(store, c);
        ShownThrough(cs, im, cs1, im1, store.captures, store.images);
      } else {
        Clear();
      }
    }

    method Clear()
      modifies this
      ensures View() == Frame(None, None, 0, queue.items)
    {
      capture, image, ts := None, None, 0;
    }

    /** drop_sample without the publishing, for a ring whose captures carry the images they should. */
    method Next(store: Store, wresult: WaitResult) returns (r: WaitResult)
      requires queue.Valid() && store.Valid() && capture.Some? && capture.value in store.captureOwners
      requires image.Some? && image.value in store.imageOwners
      requires multiset(queue.items) <= store.captureOwners - multiset{capture.value}
      requires queue.items != [] ==> wresult != FAILED && queue.enabled && store.TimeOf(queue.items[0], Slot()).Some?
      requires wresult == FAILED ==> !queue.enabled
      modifies this, queue, store
      ensures queue.Valid() && store.Valid() && store.Shows() && queue.enabled == old(queue.enabled)
      ensures store.captureOwners == old(store.captureOwners) - multiset{old(capture).value}
      ensures store.imageOwners == Plus(Minus(old(store.imageOwners), old(image)), image)
      ensures old(queue.items) == [] ==>
                && capture == None && image == None && queue.items == []
                && r != SUCCEEDED && (r == FAILED ==> !queue.enabled)
      ensures old(queue.items) != [] ==>
                && r == SUCCEEDED && capture == Some(old(queue.items[0])) && queue.items == old(queue.items[1..])
                && image.Some? && Carries(store.captures, store.images, capture.value, Slot(), image.value, ts)
    {
      hide CapturesBalanced, ImagesBalanced, Shown, Window, SlotTime, Carries;
      ghost var cs, im := store.captures, store.images;
      ghost var slot := Slot();
      Release(store);
      ghost var cs1, im1 := store.captures, store.images;
      if queue.items != [] {
        OldestIsOwned(queue.items, store.captureOwners);
        OwnedCapture(cs1, store.captureOwners, queue.items[0]);
        TimeIsShown(cs, im, cs1, im1, queue.items[0], slot);
      }
      r := Refill(store, wresult);
      ShownThrough(cs, im, cs1, im1, store.captures, store.images);
    }

    /** The end of drop_sample: the oldest capture of the ring takes the empty place, if it can. */
    method Refill(store: Store, wresult: WaitResult) returns (r: WaitResult)
      requires queue.Valid() && store.Valid() && multiset(queue.items) <= store.captureOwners
      requires capture == None && image == None
      modifies this, queue, store
      ensures queue.Valid() && store.Valid() && store.Shows()
      ensures queue.enabled == old(queue.enabled) && queue.popBlocked == old(queue.popBlocked)
      ensures wresult == FAILED || !queue.enabled || old(queue.items) == [] ==>
                && View() == Frame(None, None, 0, old(queue.items))
                && r == (if wresult == FAILED || !queue.enabled then FAILED else TIMEOUT)
                && store.captureOwners == old(store.captureOwners) && store.imageOwners == old(store.imageOwners)
      ensures wresult != FAILED && queue.enabled && old(queue.items) != [] ==>
                var c := old(queue.items[0]);
                && queue.items == old(queue.items[1..])
                && if old(store.TimeOf(c, Slot())).Some? then
                     && r == SUCCEEDED && capture == Some(c) && image.Some?
                     && Carries(store.captures, store.images, c, Slot(), image.value, ts)
                     && store.captureOwners == old(store.captureOwners)
                     && store.imageOwners == Plus(old(store.imageOwners), image)
                   else
                     && r == FAILED && capture == None && image == None && ts == 0
                     && store.captureOwners == Minus(old(store.captureOwners), Some(c))
                     && store.imageOwners == old(store.imageOwners)
    {
      hide CapturesBalanced, ImagesBalanced, Shown;
      r := wresult;
      ghost var cs, im := store.captures, store.images;
      ShownAgain(cs, im);
      if wresult != FAILED {
        r := Pull(store);
        if r == SUCCEEDED {
          ghost var cs1, im1 := store.captures, store.images;
          var found := Inspect(store);
          ShownThrough(cs, im, cs1, im1, store.captures, store.images);
          ghost var c, k := capture.value, Slot();
          TimeIsShown(cs, im, cs1, im1, c, k);
          if !found {
            r := FAILED;
          }
        }
      }
      if r != SUCCEEDED {
        GiveUp(store, cs, im);
      }
    }

    /** Pops without waiting. */
    method Pull(store: Store) returns (r: WaitResult)
      requires queue.Valid() && store.Valid() && multiset(queue.items) <= store.captureOwners && capture == None
      modifies this`capture, queue, store`captures, store`images, store`captureOwners
      ensures queue.Valid() && store.Valid() && store.Shows()
      ensures queue.enabled == old(queue.enabled) && queue.popBlocked == old(queue.popBlocked)
      ensures store.captureOwners == old(store.captureOwners)
      ensures r == if !queue.enabled then FAILED else if old(queue.items) == [] then TIMEOUT else SUCCEEDED
      ensures r != SUCCEEDED ==> queue.items == old(queue.items) && capture == None
      ensures r == SUCCEEDED ==> queue.items == old(queue.items[1..]) && capture == Some(old(queue.items[0]))
      ensures r == SUCCEEDED ==> capture.value in store.captureOwners
    {
      hide CapturesBalanced, ImagesBalanced, Shown;
      if queue.items != [] {
        OldestIsOwned(queue.items, store.captureOwners);
      }
      var o := queue.PopEnter(store, 0);
      r, capture := o.result, o.capture;
    }

    /** Looks for the image that carries the timestamp. */
    method Inspect(store: Store) returns (found: bool)
      requires store.Valid() && capture.Some? && capture.value in store.captureOwners && image == None
      modifies this`image, this`ts, store`images, store`imageOwners
      ensures store.Valid() && store.Shows() && found == old(store.TimeOf(capture.value, Slot())).Some?
      ensures found == image.Some? && store.imageOwners == Plus(old(store.imageOwners), image)
      ensures capture.value in store.captures.live
      ensures found ==> Carries(store.captures, store.images, capture.value, Slot(), image.value, ts)
      ensures !found ==> ts == old(ts)
    {
      OwnedCapture(store.captures, store.captureOwners, capture.value);
      image := store.CaptureGetImage(capture, Slot());
      if image != None {
        ts := store.ImageTimestamp(image);
      }
      found := image != None;
    }

    /** Releases what a failed refill has popped. */
    method GiveUp(store: Store, ghost cs: Captures, ghost im: Images)
      requires store.Valid() && (capture.Some? ==> capture.value in store.captureOwners)
      requires Shown(cs, im, store.captures, store.images)
      modifies this, store`captures, store`images, store`captureOwners
      ensures store.Valid() && Shown(cs, im, store.captures, store.images)
      ensures store.captureOwners == Minus(old(store.captureOwners), old(capture))
      ensures capture == None && image == None && ts == 0
    {
      hide CapturesBalanced, ImagesBalanced, Shown;
      ghost var cs1, im1 := store.captures, store.images;
      store.CaptureDecRef(capture);
      ShownThrough(cs, im, cs1, im1, store.captures, store.images);
      Clear();
    }
  }
}
