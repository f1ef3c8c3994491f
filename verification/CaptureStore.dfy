/** Captures and images behind counted handles.

    A handle is valid exactly while its object exists, so the tables below are the heap of the two kinds of
    object: releasing the last reference removes the entry. Identifiers are never reused, which lets the logs of
    destroyed objects say "exactly once". Allocation of a table entry is taken to succeed.
 */
module CaptureStore {

  type CaptureId = nat
  type ImageId = nat

  datatype Option<+T> = None | Some(value: T)

  const COLOR: nat := 0
  const DEPTH: nat := 1
  const IR: nat := 2
  const IMAGE_TYPE_COUNT: nat := 3

  /** callback: the destroy callback and its context, if the image has one. */
  datatype Image = Image(refCount: int, timestamp: nat, buffer: nat, callback: Option<(nat, nat)>)

  datatype Capture = Capture(refCount: int, image: seq<Option<ImageId>>)

  /** destroyed: the images whose last reference has gone, in that order; their callbacks have run. */
  datatype Images = Images(live: map<ImageId, Image>, destroyed: seq<ImageId>, next: ImageId)

  datatype Captures = Captures(live: map<CaptureId, Capture>, destroyed: seq<CaptureId>, next: CaptureId)

  // ---------- Reference counting on images ----------

  /** image_inc_ref: an invalid handle is ignored. */
  function IncImage(im: Images, i: Option<ImageId>): Images {
    if i == None || i.value !in im.live then im
    else
      var e := im.live[i.value];
      im.(live := im.live[i.value := e.(refCount := e.refCount + 1)])
  }

  /** image_dec_ref: at zero the callback runs and the handle dies. */
  function DecImage(im: Images, i: Option<ImageId>): Images {
    if i == None || i.value !in im.live then im
    else
      var e := im.live[i.value];
      if e.refCount - 1 == 0 then im.(live := im.live - {i.value}, destroyed := im.destroyed + [i.value])
      else im.(live := im.live[i.value := e.(refCount := e.refCount - 1)])
  }

  // ---------- Who holds an image ----------

  /** The capture slots that refer to image i. */
  ghost function Slots(caps: map<CaptureId, Capture>, i: ImageId): set<(CaptureId, nat)> {
    set c, k | c in caps && 0 <= k < |caps[c].image| && caps[c].image[k] == Some(i) :: (c, k)
  }

  /** References to image i: handles outside the captures plus capture slots. */
  ghost function Holders(caps: map<CaptureId, Capture>, owners: multiset<ImageId>, i: ImageId): nat {
    owners[i] + |Slots(caps, i)|
  }

  /** Identifiers are handed out in order and each is either alive or was destroyed exactly once. */
  ghost predicate OnceDestroyed(live: set<nat>, destroyed: seq<nat>, next: nat) {
    && (forall i, j :: 0 <= i < j < |destroyed| ==> destroyed[i] != destroyed[j])
    && (forall x: nat :: x in live || x in destroyed <==> x < next)
    && (forall x: nat :: x in live ==> x !in destroyed)
  }

  ghost predicate ImagesBalanced(im: Images, caps: map<CaptureId, Capture>, owners: multiset<ImageId>) {
    && (forall i :: i in im.live <==> 0 < Holders(caps, owners, i))
    && (forall i :: i in im.live ==> im.live[i].refCount == Holders(caps, owners, i))
    && OnceDestroyed(im.live.Keys, im.destroyed, im.next)
  }

  ghost predicate CapturesBalanced(cs: Captures, owners: multiset<CaptureId>) {
    && (forall c :: c in cs.live <==> c in owners)
    && (forall c :: c in cs.live ==> cs.live[c].refCount == owners[c] && |cs.live[c].image| == IMAGE_TYPE_COUNT)
    && OnceDestroyed(cs.live.Keys, cs.destroyed, cs.next)
  }

  lemma DestroyOne(live: set<nat>, destroyed: seq<nat>, next: nat, x: nat)
    requires OnceDestroyed(live, destroyed, next) && x in live
    ensures OnceDestroyed(live - {x}, destroyed + [x], next)
  {
  }

  lemma CreateOne(live: set<nat>, destroyed: seq<nat>, next: nat)
    requires OnceDestroyed(live, destroyed, next)
    ensures next !in live && OnceDestroyed(live + {next}, destroyed, next + 1)
  {
  }

  /** One reference more or less, on whatever side it is held. */
  lemma IncImageBalance(im: Images, i: ImageId, caps: map<CaptureId, Capture>, owners: multiset<ImageId>,
                        caps': map<CaptureId, Capture>, owners': multiset<ImageId>)
    requires ImagesBalanced(im, caps, owners) && i in im.live
    requires forall x: ImageId :: Holders(caps', owners', x) == Holders(caps, owners, x) + (if x == i then 1 else 0)
    ensures ImagesBalanced(IncImage(im, Some(i)), caps', owners')
  {
    assert IncImage(im, Some(i)).live.Keys == im.live.Keys;
  }

  lemma DecImageBalance(im: Images, i: ImageId, caps: map<CaptureId, Capture>, owners: multiset<ImageId>,
                        caps': map<CaptureId, Capture>, owners': multiset<ImageId>)
    requires ImagesBalanced(im, caps, owners) && 0 < Holders(caps, owners, i)
    requires forall x: ImageId :: Holders(caps', owners', x) == Holders(caps, owners, x) - (if x == i then 1 else 0)
    ensures ImagesBalanced(DecImage(im, Some(i)), caps', owners')
  {
    var im' := DecImage(im, Some(i));
    if im.live[i].refCount == 1 {
      DestroyOne(im.live.Keys, im.destroyed, im.next, i);
      assert im'.live.Keys == im.live.Keys - {i};
    } else {
      assert im'.live.Keys == im.live.Keys;
    }
  }

  // ---------- How slot changes move the holders ----------

  ghost function WithSlot(caps: map<CaptureId, Capture>, c: CaptureId, k: nat, i: Option<ImageId>): map<CaptureId, Capture>
    requires c in caps && k < |caps[c].image|
  {
    caps[c := caps[c].(image := caps[c].image[k := i])]
  }

  lemma SlotsAfterSet(caps: map<CaptureId, Capture>, c: CaptureId, k: nat, i: Option<ImageId>, x: ImageId)
    requires c in caps && k < |caps[c].image|
    ensures Slots(WithSlot(caps, c, k, i), x) ==
              Slots(caps, x) - {(c, k)} + (if i == Some(x) then {(c, k)} else {})
  {
    var caps' := WithSlot(caps, c, k, i);
    forall d, m ensures (d, m) in Slots(caps', x) <==>
                        (d, m) in Slots(caps, x) - {(c, k)} + (if i == Some(x) then {(c, k)} else {}) {
    }
  }

  /** Writing a slot takes one holder from the old image and gives one to the new. */
  lemma HoldersAfterSet(caps: map<CaptureId, Capture>, owners: multiset<ImageId>, c: CaptureId, k: nat, i: Option<ImageId>)
    requires c in caps && k < |caps[c].image|
    ensures forall x: ImageId :: Holders(WithSlot(caps, c, k, i), owners, x) ==
              Holders(caps, owners, x) - (if caps[c].image[k] == Some(x) then 1 else 0) + (if i == Some(x) then 1 else 0)
  {
    forall x: ImageId ensures Holders(WithSlot(caps, c, k, i), owners, x) ==
              Holders(caps, owners, x) - (if caps[c].image[k] == Some(x) then 1 else 0) + (if i == Some(x) then 1 else 0) {
      SlotsAfterSet(caps, c, k, i, x);
      assert (c, k) in Slots(caps, x) <==> caps[c].image[k] == Some(x);
      assert |Slots(caps, x) - {(c, k)}| == |Slots(caps, x)| - (if caps[c].image[k] == Some(x) then 1 else 0);
    }
  }

  /** Counts, additions and removals of captures without images leave the holders alone. */
  lemma HoldersIgnore(caps: map<CaptureId, Capture>, caps': map<CaptureId, Capture>, owners: multiset<ImageId>)
    requires forall c :: c in caps && c in caps' ==> caps[c].image == caps'[c].image
    requires forall c :: c in caps && c !in caps' ==> forall k :: 0 <= k < |caps[c].image| ==> caps[c].image[k] == None
    requires forall c :: c in caps' && c !in caps ==> forall k :: 0 <= k < |caps'[c].image| ==> caps'[c].image[k] == None
    ensures forall x: ImageId :: Holders(caps', owners, x) == Holders(caps, owners, x)
  {
    forall x: ImageId ensures Holders(caps', owners, x) == Holders(caps, owners, x) {
      assert Slots(caps', x) == Slots(caps, x);
    }
  }

  lemma BalanceIgnores(im: Images, caps: map<CaptureId, Capture>, caps': map<CaptureId, Capture>, owners: multiset<ImageId>)
    requires ImagesBalanced(im, caps, owners)
    requires forall c :: c in caps && c in caps' ==> caps[c].image == caps'[c].image
    requires forall c :: c in caps && c !in caps' ==> forall k :: 0 <= k < |caps[c].image| ==> caps[c].image[k] == None
    requires forall c :: c in caps' && c !in caps ==> forall k :: 0 <= k < |caps'[c].image| ==> caps'[c].image[k] == None
    ensures ImagesBalanced(im, caps', owners)
  {
    HoldersIgnore(caps, caps', owners);
  }

  /** What nobody owns cannot be given back. */
  lemma LiveIffOwned(cs: Captures, owners: multiset<CaptureId>, c: Option<CaptureId>)
    requires CapturesBalanced(cs, owners)
    ensures c.Some? ==> (c.value in cs.live <==> c.value in owners)
    ensures c.Some? && c.value !in owners ==> Minus(owners, c) == owners
    ensures c.Some? && c.value in cs.live ==> |cs.live[c.value].image| == IMAGE_TYPE_COUNT
  {
  }

  lemma SetSlotBalance(cs: Captures, owners: multiset<CaptureId>, c: CaptureId, k: nat, i: Option<ImageId>)
    requires CapturesBalanced(cs, owners) && c in cs.live && k < |cs.live[c].image|
    ensures CapturesBalanced(cs.(live := WithSlot(cs.live, c, k, i)), owners)
  {
    assert WithSlot(cs.live, c, k, i).Keys == cs.live.Keys;
  }

  lemma OwnedCapture(cs: Captures, owners: multiset<CaptureId>, c: CaptureId)
    requires CapturesBalanced(cs, owners) && c in owners
    ensures c in cs.live && |cs.live[c].image| == IMAGE_TYPE_COUNT && OnceDestroyed(cs.live.Keys, cs.destroyed, cs.next)
  {
  }

  /** One reference to c less: at zero the capture is gone, otherwise only its count changes. */
  lemma DecCaptureBalance(cs: Captures, cs': Captures, owners: multiset<CaptureId>, c: CaptureId)
    requires CapturesBalanced(cs, owners) && c in owners
    requires var count := cs.live[c].refCount - 1;
             if count == 0 then cs'.live == cs.live - {c} && OnceDestroyed(cs'.live.Keys, cs'.destroyed, cs'.next)
             else cs' == cs.(live := cs.live[c := cs.live[c].(refCount := count)])
    ensures CapturesBalanced(cs', owners - multiset{c})
  {
    if cs.live[c].refCount != 1 {
      assert cs'.live.Keys == cs.live.Keys;
    }
  }

  /** An image in a slot of a live capture is alive. */
  lemma SlotImageIsLive(im: Images, caps: map<CaptureId, Capture>, owners: multiset<ImageId>, c: CaptureId, k: nat)
    requires ImagesBalanced(im, caps, owners)
    requires c in caps && k < |caps[c].image| && caps[c].image[k].Some?
    ensures caps[c].image[k].value in im.live
  {
    assert (c, k) in Slots(caps, caps[c].image[k].value);
  }

  lemma OwnedImageIsLive(im: Images, caps: map<CaptureId, Capture>, owners: multiset<ImageId>, i: ImageId)
    requires ImagesBalanced(im, caps, owners) && i in owners
    ensures i in im.live
  {
  }

  /** When the last references are gone, no object survives and each was destroyed exactly once. */
  lemma NothingSurvives(im: Images, cs: Captures)
    requires CapturesBalanced(cs, multiset{}) && ImagesBalanced(im, cs.live, multiset{})
    ensures cs.live == map[] && im.live == map[]
    ensures forall c: CaptureId :: c < cs.next ==> multiset(cs.destroyed)[c] == 1
    ensures forall i: ImageId :: i < im.next ==> multiset(im.destroyed)[i] == 1
  {
    assert cs.live == map[];
    assert forall i: ImageId :: Slots(cs.live, i) == {};
    assert im.live == map[];
    forall x: nat | x < cs.next ensures multiset(cs.destroyed)[x] == 1 {
      DestroyedOnce(cs.live.Keys, cs.destroyed, cs.next, x);
    }
    forall x: nat | x < im.next ensures multiset(im.destroyed)[x] == 1 {
      DestroyedOnce(im.live.Keys, im.destroyed, im.next, x);
    }
  }

  lemma DestroyedOnce(live: set<nat>, destroyed: seq<nat>, next: nat, x: nat)
    requires OnceDestroyed(live, destroyed, next) && x < next && x !in live
    ensures multiset(destroyed)[x] == 1
  {
    assert x in destroyed;
    var k :| 0 <= k < |destroyed| && destroyed[k] == x;
    assert destroyed == destroyed[..k] + [x] + destroyed[k + 1..];
    assert x !in destroyed[..k] && x !in destroyed[k + 1..];
  }

  /** Timestamp of the image in a slot, if there is one. */
  ghost function SlotTime(im: Images, caps: map<CaptureId, Capture>, c: CaptureId, k: nat): Option<nat> {
    if c in caps && k < |caps[c].image| && caps[c].image[k].Some? && caps[c].image[k].value in im.live
    then Some(im.live[caps[c].image[k].value].timestamp) else None
  }

  /** Every capture alive in the second state shows the images it showed in the first. */
  ghost predicate SameImages(im: Images, caps: map<CaptureId, Capture>, im': Images, caps': map<CaptureId, Capture>) {
    && (forall c :: c in caps' ==> c in caps && caps'[c].image == caps[c].image)
    && (forall i :: i in im.live && i in im'.live ==> im'.live[i].timestamp == im.live[i].timestamp)
  }

  lemma SameImagesSameTimes(im: Images, caps: map<CaptureId, Capture>, im': Images, caps': map<CaptureId, Capture>,
                            owners: multiset<ImageId>, owners': multiset<ImageId>)
    requires ImagesBalanced(im, caps, owners) && ImagesBalanced(im', caps', owners') && SameImages(im, caps, im', caps')
    ensures forall c, k: nat :: c in caps' ==> SlotTime(im', caps', c, k) == SlotTime(im, caps, c, k)
  {
    forall c, k: nat | c in caps' ensures SlotTime(im', caps', c, k) == SlotTime(im, caps, c, k) {
      if k < |caps[c].image| && caps[c].image[k].Some? {
        SlotImageIsLive(im, caps, owners, c, k);
        SlotImageIsLive(im', caps', owners', c, k);
      }
    }
  }

  /** No capture appears, and those that survive show the same images with the same timestamps. */
  ghost predicate Shown(cs: Captures, im: Images, cs': Captures, im': Images) {
    && (forall c :: c in cs'.live ==> c in cs.live && cs'.live[c].image == cs.live[c].image)
    && (forall c, k: nat :: c in cs'.live ==> SlotTime(im', cs'.live, c, k) == SlotTime(im, cs.live, c, k))
  }

  lemma ShownAgain(cs: Captures, im: Images)
    ensures Shown(cs, im, cs, im)
  {
  }

  lemma ShownThrough(cs: Captures, im: Images, cs1: Captures, im1: Images, cs2: Captures, im2: Images)
    requires Shown(cs, im, cs1, im1) && Shown(cs1, im1, cs2, im2)
    ensures Shown(cs, im, cs2, im2)
  {
  }

  lemma ReleaseBalance(im: Images, caps: map<CaptureId, Capture>, owners: multiset<ImageId>, i: Option<ImageId>)
    requires ImagesBalanced(im, caps, owners) && (i.Some? ==> i.value in owners)
    ensures ImagesBalanced(DecImage(im, i), caps, Minus(owners, i))
    ensures SameImages(im, caps, DecImage(im, i), caps)
  {
    if i.Some? {
      DecImageBalance(im, i.value, caps, owners, caps, Minus(owners, i));
    }
  }

  lemma RetainBalance(im: Images, caps: map<CaptureId, Capture>, owners: multiset<ImageId>, i: Option<ImageId>)
    requires ImagesBalanced(im, caps, owners) && (i.Some? ==> i.value in im.live)
    ensures ImagesBalanced(IncImage(im, i), caps, Plus(owners, i))
    ensures SameImages(im, caps, IncImage(im, i), caps)
  {
    if i.Some? {
      IncImageBalance(im, i.value, caps, owners, caps, Plus(owners, i));
    }
  }

  ghost function Cleared(image: seq<Option<ImageId>>, n: nat): seq<Option<ImageId>> {
    seq(|image|, k requires 0 <= k < |image| => if k < n then None else image[k])
  }

  /** The captures as if the first n slots of c were empty. */
  ghost function ClearedTo(caps: map<CaptureId, Capture>, c: CaptureId, n: nat): map<CaptureId, Capture>
    requires c in caps
  {
    caps[c := caps[c].(image := Cleared(caps[c].image, n))]
  }

  lemma NothingCleared(caps: map<CaptureId, Capture>, c: CaptureId)
    requires c in caps
    ensures ClearedTo(caps, c, 0) == caps
  {
    assert Cleared(caps[c].image, 0) == caps[c].image;
  }

  lemma ClearedStep(caps: map<CaptureId, Capture>, c: CaptureId, n: nat)
    requires c in caps && n < |caps[c].image|
    ensures ClearedTo(caps, c, n + 1) == WithSlot(ClearedTo(caps, c, n), c, n, None)
    ensures ClearedTo(caps, c, n)[c].image[n] == caps[c].image[n]
  {
    assert Cleared(caps[c].image, n + 1) == Cleared(caps[c].image, n)[n := None];
  }

  lemma ReleaseSlotBalance(im: Images, caps: map<CaptureId, Capture>, owners: multiset<ImageId>, c: CaptureId, n: nat, n': nat)
    requires c in caps && n < |caps[c].image| && n' == n + 1 && ImagesBalanced(im, ClearedTo(caps, c, n), owners)
    ensures ImagesBalanced(DecImage(im, caps[c].image[n]), ClearedTo(caps, c, n'), owners)
    ensures SameTimestamps(im, DecImage(im, caps[c].image[n]))
  {
    var now, i := ClearedTo(caps, c, n), caps[c].image[n];
    ClearedStep(caps, c, n);
    HoldersAfterSet(now, owners, c, n, None);
    if i.Some? {
      SlotImageIsLive(im, now, owners, c, n);
      DecImageBalance(im, i.value, now, owners, ClearedTo(caps, c, n'), owners);
    } else {
      assert now[c].image[n := None] == now[c].image;
    }
  }

  /** One reference more, or one less, for an optional handle. */
  function Plus(m: multiset<nat>, x: Option<nat>): multiset<nat> {
    if x == None then m else m + multiset{x.value}
  }

  function Minus(m: multiset<nat>, x: Option<nat>): multiset<nat> {
    if x == None then m else m - multiset{x.value}
  }

  /** The tables with the source's operations on them. The two ghost multisets say who holds references: a capture
      is held by handles (client, ring slots, held samples), an image by handles outside the captures. */
  class Store {
    var captures: Captures
    var images: Images
    ghost var captureOwners: multiset<CaptureId>
    ghost var imageOwners: multiset<ImageId>

    /** Every count equals the references that exist; what nobody holds is gone, destroyed exactly once. */
    ghost predicate Valid()
      reads this
    {
      CapturesBalanced(captures, captureOwners) && ImagesBalanced(images, captures.live, imageOwners)
    }

    ghost function TimeOf(c: CaptureId, k: nat): Option<nat>
      reads this
    {
      SlotTime(images, captures.live, c, k)
    }

    twostate predicate Shows()
      reads this
    {
      Shown(old(captures), old(images), captures, images)
    }

    constructor ()
      ensures Valid() && captureOwners == multiset{} && imageOwners == multiset{}
      ensures captures.destroyed == [] && images.destroyed == []
    {
      captures := Captures(map[], [], 0);
      images := Images(map[], [], 0);
      captureOwners, imageOwners := multiset{}, multiset{};
    }

    // ---------- image.c ----------

    /** image_dec_ref on its own: the holder that gives up its reference is the caller's business. */
    method ImageDecRef(i: Option<ImageId>)
      modifies this`images
      ensures images == DecImage(old(images), i)
    {
      if i.Some? && i.value in images.live {
        var e := images.live[i.value];
        var count := e.refCount - 1;
        images := images.(live := images.live[i.value := e.(refCount := count)]);
        if count == 0 {
          images := images.(live := images.live - {i.value}, destroyed := images.destroyed + [i.value]);
          assert images.live == old(images.live) - {i.value};
        }
      }
    }

    method ImageIncRef(i: Option<ImageId>)
      modifies this`images
      ensures images == IncImage(old(images), i)
    {
      if i.Some? && i.value in images.live {
        var e := images.live[i.value];
        images := images.(live := images.live[i.value := e.(refCount := e.refCount + 1)]);
      }
    }

    /** A handle outside the captures gives up its reference. */
    method ReleaseImage(i: Option<ImageId>)
      requires Valid() && (i.Some? ==> i.value in imageOwners)
      modifies this`images, this`imageOwners
      ensures Valid() && imageOwners == Minus(old(imageOwners), i) && Shows()
    {
      ImageDecRef(i);
      imageOwners := Minus(imageOwners, i);
      ReleaseBalance(old(images), captures.live, old(imageOwners), i);
      SameImagesSameTimes(old(images), captures.live, images, captures.live, old(imageOwners), imageOwners);
    }

    /** A live image gains a handle outside the captures. */
    method RetainImage(i: Option<ImageId>)
      requires Valid() && (i.Some? ==> i.value in images.live)
      modifies this`images, this`imageOwners
      ensures Valid() && imageOwners == Plus(old(imageOwners), i) && Shows()
    {
      ImageIncRef(i);
      imageOwners := Plus(imageOwners, i);
      RetainBalance(old(images), captures.live, old(imageOwners), i);
      SameImagesSameTimes(old(images), captures.live, images, captures.live, old(imageOwners), imageOwners);
    }

    /** image_create_from_buffer: rejects bad arguments and otherwise hands the caller the only reference. */
    method ImageCreateFromBuffer(format: int, width: int, height: int, buffer: nat, size: nat,
                                 callback: Option<(nat, nat)>, timestamp: nat) returns (i: Option<ImageId>)
      requires Valid()
      modifies this`images, this`imageOwners
      ensures Valid() && Shows() && imageOwners == Plus(old(imageOwners), i)
      ensures i.Some? <==> 0 <= format <= 8 && 0 < width <= 20000 && 0 < height <= 20000 && buffer != 0 && size != 0
      ensures i.Some? ==> i.value !in old(images.live) && i.value !in old(images.destroyed)
                          && images.live == old(images.live)[i.value := Image(1, timestamp, buffer, callback)]
      ensures i.None? ==> images == old(images)
    {
      if format < 0 || format > 8 || width <= 0 || width > 20000 || height <= 0 || height > 20000
         || buffer == 0 || size == 0 {
        return None;
      }
      var id := images.next;
      CreateOne(images.live.Keys, images.destroyed, id);
      images := images.(live := images.live[id := Image(1, timestamp, buffer, callback)], next := id + 1);
      imageOwners := imageOwners + multiset{id};
      assert images.live.Keys == old(images.live.Keys) + {id};
      assert forall x: ImageId :: Holders(captures.live, imageOwners, x)
                                  == Holders(captures.live, old(imageOwners), x) + (if x == id then 1 else 0);
      SameImagesSameTimes(old(images), captures.live, images, captures.live, old(imageOwners), imageOwners);
      i := Some(id);
    }

    /** image_get_device_timestamp_usec */
    method ImageTimestamp(i: Option<ImageId>) returns (ts: nat)
      ensures ts == if i.Some? && i.value in images.live then images.live[i.value].timestamp else 0
    {
      ts := if i.Some? && i.value in images.live then images.live[i.value].timestamp else 0;
    }

    // ---------- Captures ----------

    /** The caller gets the only reference to a capture without images. */
    method CaptureCreate() returns (c: CaptureId)
      requires Valid()
      modifies this`captures, this`captureOwners
      ensures Valid() && captureOwners == old(captureOwners) + multiset{c}
      ensures c !in old(captures.live) && c !in old(captures.destroyed)
      ensures captures.live == old(captures.live)[c := Capture(1, [None, None, None])]
      ensures captures.destroyed == old(captures.destroyed)
    {
      hide Slots, Holders, ImagesBalanced;
      c := captures.next;
      var e := Capture(1, [None, None, None]);
      CreateOne(captures.live.Keys, captures.destroyed, c);
      captures := captures.(live := captures.live[c := e], next := c + 1);
      captureOwners := captureOwners + multiset{c};
      assert captures.live.Keys == old(captures.live.Keys) + {c};
      BalanceIgnores(images, old(captures.live), captures.live, imageOwners);
    }

    /** A handle is valid exactly if somebody owns it. */
    ghost predicate Owned(c: Option<CaptureId>)
      reads this`captureOwners
    {
      c.Some? && c.value in captureOwners
    }

    /** capture_inc_ref: an invalid handle is ignored. */
    method CaptureIncRef(c: Option<CaptureId>)
      requires Valid()
      modifies this`captures, this`captureOwners
      ensures Valid() && Shows()
      ensures captureOwners == if old(Owned(c)) then Plus(old(captureOwners), c) else old(captureOwners)
    {
      if c.Some? && c.value in captures.live {
        var e := captures.live[c.value];
        captures := captures.(live := captures.live[c.value := e.(refCount := e.refCount + 1)]);
        captureOwners := captureOwners + multiset{c.value};
        assert captures.live.Keys == old(captures.live.Keys);
        BalanceIgnores(images, old(captures.live), captures.live, imageOwners);
      }
    }

    /** capture_dec_ref: at zero the images are released one by one and the capture dies; an invalid handle is
        ignored. */
    method CaptureDecRef(c: Option<CaptureId>)
      requires Valid()
      modifies this`captures, this`images, this`captureOwners
      ensures Valid() && captureOwners == Minus(old(captureOwners), c) && Shows()
    {
      hide Slots, Holders, SlotTime, OnceDestroyed, ImagesBalanced, CapturesBalanced, Shown;
      LiveIffOwned(captures, captureOwners, c);
      if c.Some? && c.value in captures.live {
        LessOneReference(c.value);
      } else {
        ShownAgain(captures, images);
      }
    }

    method LessOneReference(c: CaptureId)
      requires Valid() && c in captureOwners
      modifies this`captures, this`images, this`captureOwners
      ensures Valid() && captureOwners == old(captureOwners) - multiset{c} && Shows()
    {
      hide Slots, Holders, SlotTime, OnceDestroyed, ImagesBalanced, CapturesBalanced;
      OwnedCapture(captures, captureOwners, c);
      var e := captures.live[c];
      var count := e.refCount - 1;
      captures := captures.(live := captures.live[c := e.(refCount := count)]);
      captureOwners := captureOwners - multiset{c};
      BalanceIgnores(images, old(captures.live), captures.live, imageOwners);
      assert captures.live.Keys == old(captures.live.Keys);
      if count == 0 {
        ReleaseSlots(c);
        CaptureDestroy(c);
        assert captures.live == old(captures.live) - {c};
      }
      DecCaptureBalance(old(captures), captures, old(captureOwners), c);
      SameImagesSameTimes(old(images), old(captures.live), images, captures.live, imageOwners, imageOwners);
    }

    /** The handle of a capture whose images have been released dies. */
    method CaptureDestroy(c: CaptureId)
      requires c in captures.live && |captures.live[c].image| == IMAGE_TYPE_COUNT
      requires ImagesBalanced(images, ClearedTo(captures.live, c, IMAGE_TYPE_COUNT), imageOwners)
      requires OnceDestroyed(captures.live.Keys, captures.destroyed, captures.next)
      modifies this`captures
      ensures captures.live == old(captures.live) - {c} && ImagesBalanced(images, captures.live, imageOwners)
      ensures OnceDestroyed(captures.live.Keys, captures.destroyed, captures.next)
    {
      ghost var last := captures.live;
      DestroyOne(last.Keys, captures.destroyed, captures.next, c);
      captures := captures.(live := captures.live - {c}, destroyed := captures.destroyed + [c]);
      assert captures.live.Keys == last.Keys - {c};
      BalanceIgnores(images, ClearedTo(last, c, IMAGE_TYPE_COUNT), captures.live, imageOwners);
    }

    /** Releases the images of a capture that is about to die. */
    method ReleaseSlots(c: CaptureId)
      requires c in captures.live && |captures.live[c].image| == IMAGE_TYPE_COUNT
      requires ImagesBalanced(images, captures.live, imageOwners)
      modifies this`images
      ensures ImagesBalanced(images, ClearedTo(captures.live, c, IMAGE_TYPE_COUNT), imageOwners)
      ensures SameTimestamps(old(images), images)
    {
      var image := captures.live[c].image;
      ghost var caps := captures.live;
      NothingCleared(caps, c);
      for x := 0 to IMAGE_TYPE_COUNT
        invariant ImagesBalanced(images, ClearedTo(caps, c, x), imageOwners)
        invariant SameTimestamps(old(images), images)
      {
        ReleaseSlotBalance(images, caps, imageOwners, c, x, x + 1);
        if image[x] != None {
          ImageDecRef(image[x]);
        }
      }
    }

    /** capture_get_*_image: hands out one more reference to the image in the slot, if there is one. */
    method CaptureGetImage(c: Option<CaptureId>, k: nat) returns (i: Option<ImageId>)
      requires Valid() && k < IMAGE_TYPE_COUNT
      modifies this`images, this`imageOwners
      ensures Valid() && imageOwners == Plus(old(imageOwners), i) && Shows()
      ensures !Owned(c) ==> i == None
      ensures Owned(c) ==> c.value in captures.live && k < |captures.live[c.value].image| && i == captures.live[c.value].image[k]
      ensures c.Some? ==> (i.Some? <==> TimeOf(c.value, k).Some?)
      ensures i.Some? ==> i.value in images.live && TimeOf(c.value, k) == Some(images.live[i.value].timestamp)
    {
      LiveIffOwned(captures, captureOwners, c);
      ShownAgain(captures, images);
      i := None;
      if c.Some? && c.value in captures.live {
        i := captures.live[c.value].image[k];
        if i.Some? {
          SlotImageIsLive(images, captures.live, imageOwners, c.value, k);
          RetainImage(i);
        }
      }
    }

    /** capture_set_*_image: drops the image that was in the slot and takes a reference to the new one. */
    method CaptureSetImage(c: Option<CaptureId>, k: nat, i: Option<ImageId>)
      requires Valid() && k < IMAGE_TYPE_COUNT
      requires i.Some? ==> i.value in imageOwners
      modifies this`captures, this`images
      ensures Valid()
      ensures Owned(c) ==> TimeOf(c.value, k) == (if i == None then None else Some(old(images).live[i.value].timestamp))
      ensures Owned(c) ==> forall d, m: nat :: !(d == c.value && m == k) && d in captures.live ==>
                SlotTime(images, captures.live, d, m) == SlotTime(old(images), old(captures).live, d, m)
      ensures Owned(c) ==> captures.live == WithSlot(old(captures.live), c.value, k, i)
      ensures !Owned(c) ==> captures == old(captures) && images == old(images)
    {
      hide Slots, Holders, OnceDestroyed, CapturesBalanced;
      LiveIffOwned(captures, captureOwners, c);
      if c.Some? && c.value in captures.live {
        if i.Some? {
          OwnedImageIsLive(images, captures.live, imageOwners, i.value);
        }
        ghost var caps, im := captures.live, images;
        SetSlotBalance(captures, captureOwners, c.value, k, i);
        DropSlot(c.value, k);
        var e := captures.live[c.value];
        captures := captures.(live := captures.live[c.value := e.(image := e.image[k := i])]);
        FillSlot(caps, c.value, k, i);
        SetTimes(im, caps, images, captures.live, imageOwners, c.value, k, i);
      }
    }

    /** The slot's reference goes; the slot itself still shows the old image. */
    method DropSlot(c: CaptureId, k: nat)
      requires Valid() && c in captures.live && k < IMAGE_TYPE_COUNT
      modifies this`images
      ensures ImagesBalanced(images, WithSlot(captures.live, c, k, None), imageOwners)
      ensures SameTimestamps(old(images), images)
      ensures forall x :: x in imageOwners ==> x in images.live
    {
      var e := captures.live[c];
      ghost var caps, im := captures.live, images;
      ghost var emptied := WithSlot(caps, c, k, None);
      HoldersAfterSet(caps, imageOwners, c, k, None);
      if e.image[k].Some? {
        SlotImageIsLive(images, caps, imageOwners, c, k);
        ImageDecRef(e.image[k]);
        DecImageBalance(im, e.image[k].value, caps, imageOwners, emptied, imageOwners);
      } else {
        assert e.image[k := None] == e.image;
        assert emptied == caps;
      }
    }

    /** The slot's new image gains its reference. */
    method FillSlot(ghost caps: map<CaptureId, Capture>, c: CaptureId, k: nat, i: Option<ImageId>)
      requires c in caps && k < |caps[c].image| && captures.live == WithSlot(caps, c, k, i)
      requires ImagesBalanced(images, WithSlot(caps, c, k, None), imageOwners)
      requires i.Some? ==> i.value in images.live
      modifies this`images
      ensures ImagesBalanced(images, captures.live, imageOwners)
      ensures SameTimestamps(old(images), images)
    {
      ghost var im, emptied := images, WithSlot(caps, c, k, None);
      HoldersAfterSet(emptied, imageOwners, c, k, i);
      assert captures.live == WithSlot(emptied, c, k, i) by {
        assert caps[c].image[k := None][k := i] == caps[c].image[k := i];
      }
      if i != None {
        ImageIncRef(i);
        IncImageBalance(im, i.value, emptied, imageOwners, captures.live, imageOwners);
      } else {
        assert captures.live == emptied;
      }
    }
  }

  /** Images only ever disappear; their timestamps stay. */
  ghost predicate SameTimestamps(im: Images, im': Images) {
    forall i :: i in im'.live ==> i in im.live && im'.live[i].timestamp == im.live[i].timestamp
  }

  lemma SetTimes(im: Images, caps: map<CaptureId, Capture>, im': Images, caps': map<CaptureId, Capture>,
                 owners: multiset<ImageId>, c: CaptureId, k: nat, i: Option<ImageId>)
    requires ImagesBalanced(im, caps, owners) && ImagesBalanced(im', caps', owners)
    requires c in caps && k < |caps[c].image| && caps' == WithSlot(caps, c, k, i) && SameTimestamps(im, im')
    ensures SlotTime(im', caps', c, k) == if i.Some? && i.value in im.live then Some(im.live[i.value].timestamp) else None
    ensures forall d, m: nat :: (d != c || m != k) && d in caps' ==> SlotTime(im', caps', d, m) == SlotTime(im, caps, d, m)
  {
    if i.Some? {
      SlotImageIsLive(im', caps', owners, c, k);
    }
    forall d, m: nat | (d != c || m != k) && d in caps'
      ensures SlotTime(im', caps', d, m) == SlotTime(im, caps, d, m)
    {
      if m < |caps[d].image| && caps[d].image[m].Some? {
        SlotImageIsLive(im, caps, owners, d, m);
        SlotImageIsLive(im', caps', owners, d, m);
      }
    }
  }
}
