/** One capture queue as its users see it: the critical sections as functions on a bounded FIFO. */
module QueueModel {
  import opened CaptureStore

  datatype WaitResult = SUCCEEDED | FAILED | TIMEOUT

  /** blocked: pops inside Condition_Wait; items: the ring from the oldest capture to the newest. */
  datatype Queue = Queue(enabled: bool, stopped: bool, blocked: nat, items: seq<CaptureId>, capacity: nat,
                         droppedCount: nat)

  /** What a critical section of a pop ends with. */
  datatype PopOutcome = Waiting | Returned(result: WaitResult, capture: Option<CaptureId>)

  /** released: captures whose reference the queue gives up in this step. */
  datatype PushStep = PushStep(queue: Queue, dropped: Option<CaptureId>, accepted: bool,
                               released: Option<CaptureId>)

  datatype PopStep = PopStep(queue: Queue, outcome: PopOutcome, released: Option<CaptureId>)

  /** A full queue gives up its oldest capture: to the caller if it is wanted, otherwise for good. */
  function Room(q: Queue, wanted: bool): PushStep {
    if |q.items| != q.capacity || q.items == [] then PushStep(q, None, false, None)
    else
      var rest := q.(items := q.items[1..]);
      if wanted then PushStep(rest, Some(q.items[0]), false, None)
      else PushStep(rest.(droppedCount := (q.droppedCount + 1) % 0x1_0000_0000), None, false, Some(q.items[0]))
  }

  /** queue_push_w_dropped; `wanted` says that the caller takes over the capture that has to make room. */
  function Push(q: Queue, c: CaptureId, wanted: bool): PushStep {
    if !q.enabled then PushStep(q, None, false, None)
    else
      var room := Room(q, wanted);
      room.(queue := room.queue.(items := room.queue.items + [c]), accepted := true)
  }

  function Oldest(q: Queue): (Queue, Option<CaptureId>) {
    if q.items == [] then (q, None) else (q.(items := q.items[1..]), Some(q.items[0]))
  }

  /** The end of every pop: a disabled queue turns any result into FAILED and drops the capture. */
  function Finish(q: Queue, result: WaitResult, capture: Option<CaptureId>): PopStep {
    var q' := q.(droppedCount := 0);
    if q.enabled then PopStep(q', Returned(result, capture), None)
    else PopStep(q', Returned(FAILED, None), capture)
  }

  /** queue_pop up to its end or up to Condition_Wait. */
  function PopStart(q: Queue, wait: int): PopStep {
    if !q.enabled then Finish(q, FAILED, None)
    else
      var (q', capture) := Oldest(q);
      if capture != None then Finish(q', SUCCEEDED, capture)
      else if wait == 0 then Finish(q', TIMEOUT, None)
      else PopStep(q'.(blocked := q.blocked + 1), Waiting, None)
  }

  /** queue_pop from the return of Condition_Wait on; `posted` distinguishes COND_OK from COND_TIMEOUT. */
  function PopResume(q: Queue, posted: bool): PopStep
    requires 0 < q.blocked
  {
    if posted then
      var (q', capture) := Oldest(q);
      Finish(q'.(blocked := q.blocked - 1), SUCCEEDED, capture)
    else Finish(q.(blocked := q.blocked - 1), TIMEOUT, None)
  }

  /** What a pop comes to, branch by branch. */
  lemma PopStartIs(q: Queue, wait: int)
    ensures var p := PopStart(q, wait);
            && p.queue.enabled == q.enabled && p.queue.stopped == q.stopped && p.queue.capacity == q.capacity
            && p.queue.blocked == q.blocked + (if p.outcome == Waiting then 1 else 0)
            && p.queue.droppedCount == (if p.outcome == Waiting then q.droppedCount else 0)
            && if !q.enabled then p.outcome == Returned(FAILED, None) && p.queue.items == q.items
               else if q.items != [] then p.outcome == Returned(SUCCEEDED, Some(q.items[0])) && p.queue.items == q.items[1..]
               else p.outcome == (if wait == 0 then Returned(TIMEOUT, None) else Waiting) && p.queue.items == []
  {
  }

  lemma PopResumeIs(q: Queue, posted: bool)
    requires 0 < q.blocked
    ensures var p := PopResume(q, posted);
            && p.queue.enabled == q.enabled && p.queue.stopped == q.stopped && p.queue.capacity == q.capacity
            && p.queue.blocked == q.blocked - 1 && p.queue.droppedCount == 0
            && p.queue.items == (if posted && q.items != [] then q.items[1..] else q.items)
            && if !q.enabled then p.outcome == Returned(FAILED, None)
               else if !posted then p.outcome == Returned(TIMEOUT, None)
               else p.outcome == Returned(SUCCEEDED, if q.items == [] then None else Some(q.items[0]))
  {
  }

  /** What a push comes to, branch by branch. */
  lemma PushIs(q: Queue, c: CaptureId, wanted: bool)
    requires 0 < q.capacity
    ensures var p, full := Push(q, c, wanted), |q.items| == q.capacity;
            if !q.enabled then p == PushStep(q, None, false, None)
            else
              && p.accepted && p.queue.items == (if full then q.items[1..] else q.items) + [c]
              && p.dropped == (if full && wanted then Some(q.items[0]) else None)
              && p.released == (if full && !wanted then Some(q.items[0]) else None)
              && p.queue.droppedCount == (if full && !wanted then (q.droppedCount + 1) % 0x1_0000_0000 else q.droppedCount)
  {
  }

  function Enable(q: Queue): Queue {
    q.(enabled := true, stopped := false)
  }

  function DisableStart(q: Queue): Queue {
    q.(enabled := false)
  }

  /** The rest of queue_disable once no pop is blocked: every capture still in the ring is released. */
  function DisableEnd(q: Queue): (Queue, seq<CaptureId>)
    requires q.blocked == 0
  {
    (q.(items := []), q.items)
  }

  /** A run of pushes keeps the newest captures, in order; the others were released, also in order. */
  function PushAll(q: Queue, cs: seq<CaptureId>): Queue
    decreases cs
  {
    if cs == [] then q else PushAll(Push(q, cs[0], false).queue, cs[1..])
  }

  function LastOf(cs: seq<CaptureId>, n: nat): seq<CaptureId> {
    if |cs| <= n then cs else cs[|cs| - n..]
  }

  lemma {:induction false} PushAllKeepsNewest(q: Queue, cs: seq<CaptureId>)
    requires q.enabled && 0 < q.capacity && |q.items| <= q.capacity
    ensures PushAll(q, cs).items == LastOf(q.items + cs, q.capacity)
    ensures PushAll(q, cs).enabled && PushAll(q, cs).capacity == q.capacity
    decreases cs
  {
    if cs == [] {
      assert q.items + cs == q.items;
    } else {
      var q' := Push(q, cs[0], false).queue;
      PushAllKeepsNewest(q', cs[1..]);
      assert q.items + cs == (q.items + [cs[0]]) + cs[1..];
    }
  }
}

/** Producers, consumers and stoppers on one queue, in every interleaving of their critical sections.

    A post wakes one waiter and nothing else does; waits may time out.
 */
module QueueProtocol {
  import opened CaptureStore
  import opened QueueModel

  type Thread = nat

  /** waiting: threads inside Condition_Wait, with whether a post has already picked them; disabling: threads inside
      queue_disable; closed: a disable has returned on the disabled queue and no enable has come since;
      the logs record every reference the queue took, handed to a caller or gave up. */
  datatype System = System(q: Queue, waiting: map<Thread, bool>, disabling: set<Thread>, closed: bool,
                           taken: multiset<CaptureId>, handed: multiset<CaptureId>, released: multiset<CaptureId>)

  datatype Step =
    | DoPush(c: CaptureId, wanted: bool, wake: Option<Thread>)
    | DoPop(th: Thread, wait: int)
    | DoWake(th: Thread)
    | DoTimeout(th: Thread)
    | DoEnable
    | DoDisableStart(th: Thread)
    | DoDisablePoll(th: Thread, wake: Option<Thread>)
    | DoDisableEnd(th: Thread)

  /** A post picks one of the waiters not picked yet, if there is any. */
  predicate CanWake(s: System, wake: Option<Thread>) {
    if wake == None then forall th :: th in s.waiting ==> s.waiting[th]
    else wake.value in s.waiting && !s.waiting[wake.value]
  }

  function Wake(s: System, wake: Option<Thread>): System {
    if wake == None then s else s.(waiting := s.waiting[wake.value := true])
  }

  predicate CanStep(s: System, step: Step) {
    match step
    case DoPush(_, _, wake) => if s.q.enabled then CanWake(s, wake) else wake == None
    case DoPop(th, _) => th !in s.waiting
    case DoWake(th) => th in s.waiting && s.waiting[th] && 0 < s.q.blocked
    case DoTimeout(th) => th in s.waiting && !s.waiting[th] && 0 < s.q.blocked
    case DoEnable => true
    case DoDisableStart(th) => th !in s.disabling
    case DoDisablePoll(th, wake) => th in s.disabling && s.q.blocked != 0 && CanWake(s, wake)
    case DoDisableEnd(th) => th in s.disabling && s.q.blocked == 0
  }

  function AfterPop(s: System, p: PopStep, waiting: map<Thread, bool>): System {
    s.(q := p.queue, waiting := waiting, released := Plus(s.released, p.released),
       handed := if p.outcome.Waiting? then s.handed else Plus(s.handed, p.outcome.capture))
  }

  function Apply(s: System, step: Step): System
    requires CanStep(s, step)
  {
    match step
    case DoPush(c, wanted, wake) =>
      var p := Push(s.q, c, wanted);
      Wake(s.(q := p.queue, taken := s.taken + (if p.accepted then multiset{c} else multiset{}),
              handed := Plus(s.handed, p.dropped), released := Plus(s.released, p.released)), wake)
    case DoPop(th, wait) =>
      var p := PopStart(s.q, wait);
      AfterPop(s, p, if p.outcome.Waiting? then s.waiting[th := false] else s.waiting)
    case DoWake(th) => AfterPop(s, PopResume(s.q, true), s.waiting - {th})
    case DoTimeout(th) => AfterPop(s, PopResume(s.q, false), s.waiting - {th})
    case DoEnable => s.(q := Enable(s.q), closed := false)
    case DoDisableStart(th) => s.(q := DisableStart(s.q), disabling := s.disabling + {th})
    case DoDisablePoll(th, wake) => Wake(s, wake)
    case DoDisableEnd(th) =>
      var (q, out) := DisableEnd(s.q);
      s.(q := q, disabling := s.disabling - {th}, closed := s.closed || !q.enabled,
         released := s.released + multiset(out))
  }

  function Created(capacity: nat): System {
    System(Queue(false, false, 0, [], capacity, 0), map[], {}, true, multiset{}, multiset{}, multiset{})
  }

  ghost predicate IsRun(states: seq<System>, steps: seq<Step>, capacity: nat) {
    && |states| == |steps| + 1 && states[0] == Created(capacity)
    && forall k :: 0 <= k < |steps| ==> CanStep(states[k], steps[k]) && states[k + 1] == Apply(states[k], steps[k])
  }

  // ---------- What holds in every reachable state ----------

  /** Waiters are counted exactly, the ring never exceeds its capacity, a closed queue is empty and nobody waits on
      it, and every reference the queue ever took is in the ring, was handed out, or was given up. */
  ghost predicate Inv(s: System) {
    && s.q.blocked == |s.waiting|
    && |s.q.items| <= s.q.capacity && 0 < s.q.capacity
    && (s.closed ==> !s.q.enabled && s.waiting == map[] && s.q.items == [])
    && (!s.q.enabled && s.disabling == {} ==> s.closed)
    && s.taken == multiset(s.q.items) + s.handed + s.released
  }

  lemma OldestSplits(q: Queue)
    ensures multiset(q.items) == Plus(multiset(Oldest(q).0.items), Oldest(q).1)
  {
    if q.items != [] {
      assert q.items == [q.items[0]] + q.items[1..];
    }
  }

  lemma InvStep(s: System, step: Step)
    requires Inv(s) && CanStep(s, step)
    ensures Inv(Apply(s, step))
  {
    match step
    case DoPush(c, wanted, wake) => InvPush(s, c, wanted, wake);
    case DoPop(th, wait) => InvPop(s, th, wait);
    case DoWake(th) => InvResume(s, th, true);
    case DoTimeout(th) => InvResume(s, th, false);
    case DoDisablePoll(th, wake) => WakeKeepsInv(s, wake);
    case _ =>
  }

  lemma WakeKeepsInv(s: System, wake: Option<Thread>)
    requires Inv(s) && (wake != None ==> wake.value in s.waiting)
    ensures Inv(Wake(s, wake))
  {
    if wake != None {
      assert s.waiting[wake.value := true].Keys == s.waiting.Keys;
      assert |s.waiting[wake.value := true].Keys| == |s.waiting.Keys|;
    }
  }

  lemma InvPop(s: System, th: Thread, wait: int)
    requires Inv(s) && th !in s.waiting
    ensures Inv(Apply(s, DoPop(th, wait)))
  {
    OldestSplits(s.q);
    var more := s.waiting[th := false];
    assert more.Keys == s.waiting.Keys + {th} && |more.Keys| == |more| && |s.waiting.Keys| == |s.waiting|;
  }

  lemma InvResume(s: System, th: Thread, posted: bool)
    requires Inv(s) && th in s.waiting && 0 < s.q.blocked
    ensures Inv(AfterPop(s, PopResume(s.q, posted), s.waiting - {th}))
  {
    OldestSplits(s.q);
    FewerWaiters(s.waiting, th);
  }

  lemma FewerWaiters(waiting: map<Thread, bool>, th: Thread)
    requires th in waiting
    ensures |waiting - {th}| == |waiting| - 1
  {
    assert (waiting - {th}).Keys == waiting.Keys - {th};
    assert |waiting.Keys| == |waiting| && |(waiting - {th}).Keys| == |waiting - {th}|;
  }

  /** A push keeps the capacity and the books: what it takes is stored, and what has to leave leaves once. */
  lemma PushBalance(q: Queue, c: CaptureId, wanted: bool)
    requires |q.items| <= q.capacity && 0 < q.capacity
    ensures var p := Push(q, c, wanted);
            && |p.queue.items| <= q.capacity && p.queue.blocked == q.blocked && p.queue.capacity == q.capacity
            && p.queue.enabled == q.enabled && (!q.enabled ==> p == PushStep(q, None, false, None))
            && multiset(q.items) + (if p.accepted then multiset{c} else multiset{})
               == Plus(Plus(multiset(p.queue.items), p.dropped), p.released)
  {
    if q.enabled && |q.items| == q.capacity {
      assert q.items == [q.items[0]] + q.items[1..];
      assert multiset(q.items) == multiset{q.items[0]} + multiset(q.items[1..]);
    }
  }

  lemma PlusMoves(items: multiset<CaptureId>, handed: multiset<CaptureId>, released: multiset<CaptureId>,
                  out: Option<CaptureId>, gone: Option<CaptureId>)
    ensures items + Plus(handed, out) + Plus(released, gone) == Plus(Plus(items, out), gone) + handed + released
  {
  }

  lemma InvPush(s: System, c: CaptureId, wanted: bool, wake: Option<Thread>)
    requires Inv(s) && CanStep(s, DoPush(c, wanted, wake))
    ensures Inv(Apply(s, DoPush(c, wanted, wake)))
  {
    hide Push, Plus;
    PushBalance(s.q, c, wanted);
    var p := Push(s.q, c, wanted);
    PlusMoves(multiset(p.queue.items), s.handed, s.released, p.dropped, p.released);
    WakeKeepsInv(s.(q := p.queue, taken := s.taken + (if p.accepted then multiset{c} else multiset{}),
                    handed := Plus(s.handed, p.dropped), released := Plus(s.released, p.released)), wake);
  }

  lemma {:induction false} RunKeepsInv(states: seq<System>, steps: seq<Step>, capacity: nat, k: nat)
    requires 0 < capacity && IsRun(states, steps, capacity) && k < |states|
    ensures Inv(states[k])
  {
    if k > 0 {
      RunKeepsInv(states, steps, capacity, k - 1);
      InvStep(states[k - 1], steps[k - 1]);
    }
  }

  // ---------- The shutdown guarantees ----------

  /** In every interleaving queue_disable returns only when no pop is blocked, with the ring empty and every
      reference the queue took handed out or given up. */
  lemma DisableReturnsClean(states: seq<System>, steps: seq<Step>, capacity: nat, k: nat)
    requires 0 < capacity && IsRun(states, steps, capacity) && k < |steps| && steps[k].DoDisableEnd?
    ensures var s := states[k + 1];
            s.q.blocked == 0 && s.waiting == map[] && s.q.items == [] && s.taken == s.handed + s.released
  {
    RunKeepsInv(states, steps, capacity, k);
    RunKeepsInv(states, steps, capacity, k + 1);
  }

  /** From then until the next enable nothing enters, nothing is referenced, and every pop fails without a capture. */
  lemma {:induction false} ClosedUntilEnabled(states: seq<System>, steps: seq<Step>, capacity: nat, from: nat, k: nat)
    requires 0 < capacity && IsRun(states, steps, capacity) && from <= k < |states|
    requires states[from].closed && forall m :: from <= m < k ==> !steps[m].DoEnable?
    ensures states[k].closed && states[k].q.items == [] && states[k].taken == states[from].taken
    ensures k < |steps| && steps[k].DoPop? ==> PopStart(states[k].q, steps[k].wait).outcome == Returned(FAILED, None)
    ensures k < |steps| && steps[k].DoPush? ==> states[k + 1] == states[k]
  {
    RunKeepsInv(states, steps, capacity, k);
    if k > from {
      ClosedUntilEnabled(states, steps, capacity, from, k - 1);
    }
  }

  // ---------- A successful pop has a capture ----------

  /** A discipline: who may pop, and whether an enable has to wait until no disable is under way. */
  predicate Allowed(s: System, step: Step, consumers: set<Thread>, calm: bool) {
    && (step.DoPop? ==> step.th in consumers)
    && (calm && step.DoEnable? ==> s.disabling == {})
  }

  ghost predicate IsRunUnder(states: seq<System>, steps: seq<Step>, capacity: nat, consumers: set<Thread>, calm: bool) {
    IsRun(states, steps, capacity) && forall k :: 0 <= k < |steps| ==> Allowed(states[k], steps[k], consumers, calm)
  }

  /** A picked waiter finds a capture, unless the queue is being shut down. */
  ghost predicate NoEmptyWake(s: System, consumer: Thread) {
    && s.waiting.Keys <= {consumer}
    && (consumer in s.waiting && s.waiting[consumer] ==> s.q.items != [] || !s.q.enabled)
    && (!s.q.enabled && s.waiting != map[] ==> s.disabling != {})
    && (s.disabling != {} ==> !s.q.enabled)
  }

  lemma NoEmptyWakeStep(s: System, step: Step, consumer: Thread)
    requires Inv(s) && NoEmptyWake(s, consumer) && CanStep(s, step) && Allowed(s, step, {consumer}, true)
    ensures NoEmptyWake(Apply(s, step), consumer)
  {
    match step
    case DoDisableEnd(th) => assert s.waiting == map[];
    case DoWake(th) => assert (s.waiting - {th}).Keys == {};
    case DoTimeout(th) => assert (s.waiting - {th}).Keys == {};
    case DoPush(c, wanted, wake) => assert |Push(s.q, c, wanted).queue.items| > 0 || !s.q.enabled;
    case DoEnable => assert consumer in s.waiting ==> s.waiting != map[];
    case _ =>
  }

  lemma {:induction false} RunKeepsNoEmptyWake(states: seq<System>, steps: seq<Step>, capacity: nat, consumer: Thread, k: nat)
    requires 0 < capacity && IsRunUnder(states, steps, capacity, {consumer}, true) && k < |states|
    ensures NoEmptyWake(states[k], consumer)
  {
    if k > 0 {
      RunKeepsNoEmptyWake(states, steps, capacity, consumer, k - 1);
      RunKeepsInv(states, steps, capacity, k - 1);
      NoEmptyWakeStep(states[k - 1], steps[k - 1], consumer);
    }
  }

  /** The assertion after Condition_Wait holds: a woken pop has a capture or the queue is disabled; so a pop never
      reports success without one. */
  lemma WokenPopHasCapture(states: seq<System>, steps: seq<Step>, capacity: nat, consumer: Thread, k: nat)
    requires 0 < capacity && IsRunUnder(states, steps, capacity, {consumer}, true) && k < |steps| && steps[k].DoWake?
    ensures Oldest(states[k].q).1 != None || !states[k].q.enabled
    ensures PopResume(states[k].q, true).outcome != Returned(SUCCEEDED, None)
  {
    RunKeepsNoEmptyWake(states, steps, capacity, consumer, k);
  }

  lemma {:induction false} NobodyWaits(states: seq<System>, steps: seq<Step>, capacity: nat, calm: bool, k: nat)
    requires IsRunUnder(states, steps, capacity, {}, calm) && k < |states|
    ensures states[k].waiting == map[]
  {
    if k > 0 {
      NobodyWaits(states, steps, capacity, calm, k - 1);
    }
  }

  // ---------- The exact discipline ----------

  /** Step k of the run is a wake-up after which the pop reports success without a capture. */
  ghost predicate EmptyHanded(states: seq<System>, steps: seq<Step>, capacity: nat, k: nat)
    requires IsRun(states, steps, capacity)
  {
    k < |steps| && steps[k].DoWake? && PopResume(states[k].q, true).outcome == Returned(SUCCEEDED, None)
  }

  /** The assertion holds in every run under the discipline. */
  ghost predicate NeverEmptyHanded(capacity: nat, consumers: set<Thread>, calm: bool) {
    forall states, steps, k: nat :: IsRunUnder(states, steps, capacity, consumers, calm) ==>
      !EmptyHanded(states, steps, capacity, k)
  }

  /** The state is the last one of a run under the discipline. */
  ghost predicate Reached(s: System, capacity: nat, consumers: set<Thread>, calm: bool) {
    exists states: seq<System>, steps: seq<Step> ::
      IsRunUnder(states, steps, capacity, consumers, calm) && states[|steps|] == s
  }

  lemma StartReached(capacity: nat, consumers: set<Thread>, calm: bool)
    ensures Reached(Created(capacity), capacity, consumers, calm)
  {
    var steps: seq<Step> := [];
    assert IsRunUnder([Created(capacity)], steps, capacity, consumers, calm);
    assert [Created(capacity)][|steps|] == Created(capacity);
  }

  lemma StepReached(s: System, step: Step, next: System, capacity: nat, consumers: set<Thread>, calm: bool)
    requires Reached(s, capacity, consumers, calm) && CanStep(s, step) && Allowed(s, step, consumers, calm)
    requires next == Apply(s, step)
    ensures Reached(next, capacity, consumers, calm)
  {
    hide CanStep, Apply, Allowed;
    var states, steps :| IsRunUnder(states, steps, capacity, consumers, calm) && states[|steps|] == s;
    assert IsRunUnder(states + [next], steps + [step], capacity, consumers, calm);
  }

  lemma WakeBreaks(s: System, a: Thread, capacity: nat, consumers: set<Thread>, calm: bool)
    returns (states: seq<System>, steps: seq<Step>, k: nat)
    requires Reached(s, capacity, consumers, calm) && CanStep(s, DoWake(a)) && s.q.enabled && s.q.items == []
    ensures IsRunUnder(states, steps, capacity, consumers, calm) && EmptyHanded(states, steps, capacity, k)
    ensures |states| > k && states[k] == s
  {
    var before, done :| IsRunUnder(before, done, capacity, consumers, calm) && before[|done|] == s;
    k := |done|;
    hide Apply;
    states, steps := before + [Apply(s, DoWake(a))], done + [DoWake(a)];
    assert IsRunUnder(states, steps, capacity, consumers, calm);
  }

  /** With two consumers the assertion fails, also when no enable overtakes a disable: the second takes the capture the
      first was woken for. */
  lemma TwoConsumersBreakIt(a: Thread, b: Thread, c: CaptureId, capacity: nat)
    returns (states: seq<System>, steps: seq<Step>, k: nat)
    requires a != b && 0 < capacity
    ensures IsRunUnder(states, steps, capacity, {a, b}, true) && EmptyHanded(states, steps, capacity, k)
  {
    hide Reached;
    var both := {a, b};
    StartReached(capacity, both, true);
    var s := Created(capacity);
    var s1 := s.(q := Enable(s.q), closed := false);
    StepReached(s, DoEnable, s1, capacity, both, true);
    var s2 := s1.(q := s1.q.(blocked := 1), waiting := map[a := false]);
    StepReached(s1, DoPop(a, -1), s2, capacity, both, true);
    var s3 := s2.(q := s2.q.(items := [c]), waiting := map[a := true], taken := multiset{c});
    StepReached(s2, DoPush(c, false, Some(a)), s3, capacity, both, true);
    var s4 := s3.(q := s3.q.(items := []), handed := multiset{c});
    StepReached(s3, DoPop(b, 0), s4, capacity, both, true);
    states, steps, k := WakeBreaks(s4, a, capacity, both, true);
  }

  /** With a single consumer it fails when an enable comes while a disable waits for the consumer it has woken. */
  lemma EnableDuringDisableBreaksIt(a: Thread, b: Thread, capacity: nat)
    returns (states: seq<System>, steps: seq<Step>, k: nat)
    requires 0 < capacity
    ensures IsRunUnder(states, steps, capacity, {a}, false) && EmptyHanded(states, steps, capacity, k)
  {
    hide Reached;
    var one := {a};
    StartReached(capacity, one, false);
    var s := Created(capacity);
    var s1 := s.(q := Enable(s.q), closed := false);
    StepReached(s, DoEnable, s1, capacity, one, false);
    var s2 := s1.(q := s1.q.(blocked := 1), waiting := map[a := false]);
    StepReached(s1, DoPop(a, -1), s2, capacity, one, false);
    var s3 := s2.(q := s2.q.(enabled := false), disabling := {b});
    StepReached(s2, DoDisableStart(b), s3, capacity, one, false);
    var s4 := s3.(waiting := map[a := true]);
    StepReached(s3, DoDisablePoll(b, Some(a)), s4, capacity, one, false);
    var s5 := s4.(q := s4.q.(enabled := true));
    StepReached(s4, DoEnable, s5, capacity, one, false);
    states, steps, k := WakeBreaks(s5, a, capacity, one, false);
  }

  lemma MoreFreedom(states: seq<System>, steps: seq<Step>, capacity: nat, few: set<Thread>, many: set<Thread>, calm: bool,
                    calm': bool)
    requires IsRunUnder(states, steps, capacity, few, calm) && few <= many && (calm' ==> calm)
    ensures IsRunUnder(states, steps, capacity, many, calm')
  {
  }

  /** The assertion holds in every run under a discipline exactly if nobody pops, or one thread does and no enable
      overtakes a disable. */
  lemma NeverEmptyHandedIff(capacity: nat, consumers: set<Thread>, calm: bool)
    requires 0 < capacity
    ensures NeverEmptyHanded(capacity, consumers, calm) <==> consumers == {} || (|consumers| == 1 && calm)
  {
    if consumers == {} {
      forall states: seq<System>, steps: seq<Step>, k: nat | IsRunUnder(states, steps, capacity, consumers, calm)
        ensures !EmptyHanded(states, steps, capacity, k)
      {
        if k < |steps| {
          NobodyWaits(states, steps, capacity, calm, k);
        }
      }
    } else {
      var a: Thread :| a in consumers;
      if |consumers| == 1 {
        SoleMember(consumers, a);
        if calm {
          OneCalmConsumer(capacity, a);
        } else {
          var states, steps, k := EnableDuringDisableBreaksIt(a, a, capacity);
        }
      } else {
        var b := AnotherMember(consumers, a);
        var states, steps, k := TwoConsumersBreakIt(a, b, 0, capacity);
        MoreFreedom(states, steps, capacity, {a, b}, consumers, true, calm);
      }
    }
  }

  lemma OneCalmConsumer(capacity: nat, a: Thread)
    requires 0 < capacity
    ensures NeverEmptyHanded(capacity, {a}, true)
  {
    forall states: seq<System>, steps: seq<Step>, k: nat | IsRunUnder(states, steps, capacity, {a}, true)
      ensures !EmptyHanded(states, steps, capacity, k)
    {
      if k < |steps| && steps[k].DoWake? {
        WokenPopHasCapture(states, steps, capacity, a, k);
      }
    }
  }

  lemma SoleMember(s: set<Thread>, a: Thread)
    requires |s| == 1 && a in s
    ensures s == {a}
  {
    assert |s - {a}| == 0;
  }

  lemma AnotherMember(s: set<Thread>, a: Thread) returns (b: Thread)
    requires 1 < |s| && a in s
    ensures b in s && b != a
  {
    assert |s - {a}| > 0;
    b :| b in s - {a};
  }
}
