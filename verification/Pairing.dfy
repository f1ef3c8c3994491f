/** Pairing of two timestamped streams: what the synchroniser computes, freed of queues and reference counts.

    A sensor's pending samples form a sequence: the held sample followed by its ring. Arrivals append to it and
    the drain loop consumes from the front. Timestamps are natural numbers; sums and casts of the original are
    taken to stay below 2^63.
 */
module Pairing {

  datatype Sample = Sample(id: nat, ts: nat)

  /** period: the slowest sample period in microseconds; delay: depth_delay_off_color_usec. */
  datatype Timing = Timing(period: nat, delay: int)

  // ---------- The synchronisation window ----------

  /** TS_SUBTRACT: the difference, clamped at 0. */
  function TsSubtract(ts: int, val: int): int {
    if ts <= val then 0 else ts - val
  }

  /** TS_ADD: the sum, clamped at 0. */
  function TsAdd(ts: int, val: int): int {
    if ts + val <= 0 then 0 else ts + val
  }

  /** Start of the window around an anchor timestamp: a quarter period early, then shifted by the delay. */
  function WindowBegin(t: Timing, anchor: nat): int {
    var early := TsSubtract(anchor, t.period / 4);
    if t.delay < 0 then TsSubtract(early, t.delay) else TsAdd(early, t.delay)
  }

  datatype Verdict = DropDepth | DropColor | Pair

  /** The two window tests of the drain loop. With a negative delay the depth sample anchors the window,
      otherwise the color sample does. */
  function Judge(t: Timing, color: nat, depth: nat): Verdict {
    if t.delay < 0 then
      var begin := WindowBegin(t, depth);
      var end := begin + t.period;
      if color > end then DropDepth else if color < begin then DropColor else Pair
    else
      var begin := WindowBegin(t, color);
      var end := begin + t.period;
      if depth > end then DropColor else if depth < begin then DropDepth else Pair
  }

  /** The two samples belong together. */
  ghost predicate Matches(t: Timing, color: nat, depth: nat) {
    var anchor, other := if t.delay < 0 then depth else color, if t.delay < 0 then color else depth;
    WindowBegin(t, anchor) <= other <= WindowBegin(t, anchor) + t.period
  }

  /** The clamped quarter-period window, written out: both clamps only ever act on the early start. */
  lemma WindowIs(t: Timing, anchor: nat)
    ensures var quarter := t.period / 4;
            WindowBegin(t, anchor) ==
              (if anchor <= quarter then 0 else anchor - quarter) + (if t.delay < 0 then -t.delay else t.delay)
  {
  }

  lemma JudgePairsExactlyMatches(t: Timing, color: nat, depth: nat)
    ensures Judge(t, color, depth) == Pair <==> Matches(t, color, depth)
  {
  }

  /** Later partners do not help: a dropped sample matches nothing at or after the sample that condemned it. */
  lemma DroppedForGood(t: Timing, color: nat, depth: nat, later: nat)
    ensures Judge(t, color, depth) == DropColor && depth <= later ==> !Matches(t, color, later)
    ensures Judge(t, color, depth) == DropDepth && color <= later ==> !Matches(t, later, depth)
  {
  }

  /** Two crossing matches can be uncrossed: this is what makes taking the first pair safe. */
  lemma Exchange(t: Timing, c0: nat, c1: nat, d0: nat, d1: nat)
    requires c0 <= c1 && d0 <= d1
    requires Matches(t, c0, d0) && Matches(t, c0, d1) && Matches(t, c1, d0)
    ensures Matches(t, c1, d1)
  {
  }

  // ---------- The drain loop ----------

  datatype Pending = Pending(color: seq<Sample>, depth: seq<Sample>)

  datatype Event = Merged(color: Sample, depth: Sample) | LoneColor(sample: Sample) | LoneDepth(sample: Sample)

  datatype Outcome = Outcome(events: seq<Event>, rest: Pending)

  /** One turn of the loop. */
  function Turn(t: Timing, p: Pending): (Event, Pending)
    requires p.color != [] && p.depth != []
  {
    match Judge(t, p.color[0].ts, p.depth[0].ts)
    case DropDepth => (LoneDepth(p.depth[0]), Pending(p.color, p.depth[1..]))
    case DropColor => (LoneColor(p.color[0]), Pending(p.color[1..], p.depth))
    case Pair => (Merged(p.color[0], p.depth[0]), Pending(p.color[1..], p.depth[1..]))
  }

  /** The loop runs until one sensor has nothing pending. */
  function Drain(t: Timing, p: Pending): Outcome
    decreases |p.color| + |p.depth|
  {
    if p.color == [] || p.depth == [] then Outcome([], p)
    else
      var (e, next) := Turn(t, p);
      var o := Drain(t, next);
      Outcome([e] + o.events, o.rest)
  }

  // ---------- Projections of an event log ----------

  function ColorOf(e: Event): seq<Sample> {
    match e
    case Merged(c, _) => [c]
    case LoneColor(c) => [c]
    case LoneDepth(_) => []
  }

  function DepthOf(e: Event): seq<Sample> {
    match e
    case Merged(_, d) => [d]
    case LoneColor(_) => []
    case LoneDepth(d) => [d]
  }

  function ColorsOf(es: seq<Event>): seq<Sample> {
    if es == [] then [] else ColorOf(es[0]) + ColorsOf(es[1..])
  }

  function DepthsOf(es: seq<Event>): seq<Sample> {
    if es == [] then [] else DepthOf(es[0]) + DepthsOf(es[1..])
  }

  function MergeCount(es: seq<Event>): nat {
    if es == [] then 0 else (if es[0].Merged? then 1 else 0) + MergeCount(es[1..])
  }

  lemma Assoc<T>(a: seq<T>, b: seq<T>, c: seq<T>)
    ensures a + b + c == a + (b + c)
  {
  }

  lemma {:induction false} ColorsOfConcat(a: seq<Event>, b: seq<Event>)
    ensures ColorsOf(a + b) == ColorsOf(a) + ColorsOf(b)
  {
    if a == [] {
      assert a + b == b;
    } else {
      ColorsOfConcat(a[1..], b);
      assert (a + b)[1..] == a[1..] + b;
      Assoc(ColorOf(a[0]), ColorsOf(a[1..]), ColorsOf(b));
    }
  }

  lemma {:induction false} DepthsOfConcat(a: seq<Event>, b: seq<Event>)
    ensures DepthsOf(a + b) == DepthsOf(a) + DepthsOf(b)
  {
    if a == [] {
      assert a + b == b;
    } else {
      DepthsOfConcat(a[1..], b);
      assert (a + b)[1..] == a[1..] + b;
      Assoc(DepthOf(a[0]), DepthsOf(a[1..]), DepthsOf(b));
    }
  }

  lemma SingleProjections(e: Event)
    ensures ColorsOf([e]) == ColorOf(e) && DepthsOf([e]) == DepthOf(e)
  {
    assert [e][1..] == [];
    assert ColorOf(e) + [] == ColorOf(e) && DepthOf(e) + [] == DepthOf(e);
  }

  // ---------- Facts about every drain ----------

  /** Exactly once and in order: each sensor's samples are the ones in the log followed by the ones still pending. */
  lemma {:induction false} DrainAccounts(t: Timing, p: Pending)
    ensures ColorsOf(Drain(t, p).events) + Drain(t, p).rest.color == p.color
    ensures DepthsOf(Drain(t, p).events) + Drain(t, p).rest.depth == p.depth
    decreases |p.color| + |p.depth|
  {
    if p.color != [] && p.depth != [] {
      var (e, next) := Turn(t, p);
      DrainAccounts(t, next);
      var o := Drain(t, next);
      TurnAccounts(t, p);
      assert ([e] + o.events)[1..] == o.events;
      Assoc(ColorOf(e), ColorsOf(o.events), o.rest.color);
      Assoc(DepthOf(e), DepthsOf(o.events), o.rest.depth);
    }
  }

  lemma TurnAccounts(t: Timing, p: Pending)
    requires p.color != [] && p.depth != []
    ensures ColorOf(Turn(t, p).0) + Turn(t, p).1.color == p.color
    ensures DepthOf(Turn(t, p).0) + Turn(t, p).1.depth == p.depth
  {
    assert p.color == [p.color[0]] + p.color[1..] && p.depth == [p.depth[0]] + p.depth[1..];
  }

  /** Quiescence: a finished drain leaves at most one sensor with something pending. */
  lemma {:induction false} DrainIsQuiescent(t: Timing, p: Pending)
    ensures Drain(t, p).rest.color == [] || Drain(t, p).rest.depth == []
    decreases |p.color| + |p.depth|
  {
    if p.color != [] && p.depth != [] {
      DrainIsQuiescent(t, Turn(t, p).1);
    }
  }

  lemma {:induction false} MergesMatch(t: Timing, p: Pending, k: nat)
    requires k < |Drain(t, p).events| && Drain(t, p).events[k].Merged?
    ensures Matches(t, Drain(t, p).events[k].color.ts, Drain(t, p).events[k].depth.ts)
    decreases k
  {
    if k > 0 {
      MergesMatch(t, Turn(t, p).1, k - 1);
    }
  }

  // ---------- Draining as samples come in, or all at once ----------

  function Append(p: Pending, q: Pending): Pending {
    Pending(p.color + q.color, p.depth + q.depth)
  }

  /** Draining early changes nothing: what arrives later meets the same heads. */
  lemma {:induction false} DrainEarly(t: Timing, p: Pending, q: Pending)
    ensures var o := Drain(t, p);
            var later := Drain(t, Append(o.rest, q));
            Drain(t, Append(p, q)) == Outcome(o.events + later.events, later.rest)
    decreases |p.color| + |p.depth|
  {
    hide Judge;
    if p.color != [] && p.depth != [] {
      var (e, next) := Turn(t, p);
      DrainEarly(t, next, q);
      assert Turn(t, Append(p, q)) == (e, Append(next, q)) by {
        assert (p.color + q.color)[1..] == p.color[1..] + q.color;
        assert (p.depth + q.depth)[1..] == p.depth[1..] + q.depth;
      }
      var o, o' := Drain(t, p), Drain(t, next);
      var later := Drain(t, Append(o.rest, q));
      assert [e] + (o'.events + later.events) == ([e] + o'.events) + later.events;
    } else {
      assert [] + Drain(t, Append(p, q)).events == Drain(t, Append(p, q)).events;
    }
  }

  // ---------- Arrivals one at a time ----------

  datatype Arrival = FromColor(sample: Sample) | FromDepth(sample: Sample)

  /** waiting: no depth timestamp has been trusted yet; skipped: depth samples refused while waiting. */
  datatype Sync = Sync(pending: Pending, waiting: bool, skipped: nat, events: seq<Event>)

  /** Depth timestamps may be stale until the color camera resets them: more than ten periods is refused. */
  predicate Stale(t: Timing, ts: nat)
    requires 0 < t.period
  {
    ts / t.period > 10
  }

  /** One sensor's pending samples after an arrival: `ring` samples fit behind the held one. A full ring pushes
      out the oldest pending sample; a disabled ring takes nothing. */
  function Accept(ring: nat, enabled: bool, q: seq<Sample>, s: Sample): (seq<Sample>, seq<Sample>) {
    if q == [] then ([s], [])
    else if !enabled then (q, [])
    else if |q| == ring + 1 then (q[1..] + [s], [q[0]])
    else (q + [s], [])
  }

  /** What the arrival adds before the drain runs. */
  function Enter(ring: nat, enabled: bool, st: Sync, a: Arrival): Sync {
    match a
    case FromColor(s) =>
      var (q, out) := Accept(ring, enabled, st.pending.color, s);
      st.(pending := Pending(q, st.pending.depth),
          events := st.events + (if out == [] then [] else [LoneColor(out[0])]))
    case FromDepth(s) =>
      var (q, out) := Accept(ring, enabled, st.pending.depth, s);
      st.(pending := Pending(st.pending.color, q), waiting := false,
          events := st.events + (if out == [] then [] else [LoneDepth(out[0])]))
  }

  function Settle(t: Timing, st: Sync): Sync {
    var o := Drain(t, st.pending);
    st.(pending := o.rest, events := st.events + o.events)
  }

  predicate Refused(t: Timing, st: Sync, a: Arrival)
    requires 0 < t.period
  {
    a.FromDepth? && st.waiting && Stale(t, a.sample.ts)
  }

  /** One accepted call of the synchroniser in synchronising mode. */
  function Arrive(t: Timing, ring: nat, enabled: bool, st: Sync, a: Arrival): Sync
    requires 0 < t.period
  {
    if Refused(t, st, a) then st.(skipped := st.skipped + 1) else Settle(t, Enter(ring, enabled, st, a))
  }

  /** A synchroniser that has seen nothing and waits for a clean depth timestamp. */
  const Fresh: Sync := Sync(Pending([], []), true, 0, [])

  /** A whole run of arrivals on enabled queues, from any state: `Fresh`, or what earlier sessions have left. */
  function Run(t: Timing, ring: nat, st: Sync, arrivals: seq<Arrival>): Sync
    requires 0 < t.period
  {
    if arrivals == [] then st
    else
      var n := |arrivals| - 1;
      Arrive(t, ring, true, Run(t, ring, st, arrivals[..n]), arrivals[n])
  }

  function Colors(arrivals: seq<Arrival>): seq<Sample> {
    if arrivals == [] then []
    else
      var a := arrivals[|arrivals| - 1];
      Colors(arrivals[..|arrivals| - 1]) + (if a.FromColor? then [a.sample] else [])
  }

  function Depths(arrivals: seq<Arrival>): seq<Sample> {
    if arrivals == [] then []
    else
      var a := arrivals[|arrivals| - 1];
      Depths(arrivals[..|arrivals| - 1]) + (if a.FromDepth? then [a.sample] else [])
  }

  lemma SnocSplits(arrivals: seq<Arrival>)
    requires arrivals != []
    ensures var init, a := arrivals[..|arrivals| - 1], arrivals[|arrivals| - 1];
            && Colors(arrivals) == (if a.FromColor? then Colors(init) + [a.sample] else Colors(init))
            && Depths(arrivals) == (if a.FromDepth? then Depths(init) + [a.sample] else Depths(init))
  {
    var init := arrivals[..|arrivals| - 1];
    assert Colors(init) + [] == Colors(init) && Depths(init) + [] == Depths(init);
  }

  /** The depth samples from the first trustworthy timestamp on. */
  function Clean(t: Timing, ds: seq<Sample>): seq<Sample>
    requires 0 < t.period
  {
    if ds == [] then []
    else if Stale(t, ds[0].ts) then Clean(t, ds[1..])
    else ds
  }

  lemma {:induction false} CleanSnoc(t: Timing, ds: seq<Sample>, d: Sample)
    requires 0 < t.period
    ensures Clean(t, ds + [d]) ==
              if Clean(t, ds) == [] && Stale(t, d.ts) then [] else Clean(t, ds) + [d]
  {
    if ds != [] {
      assert (ds + [d])[1..] == ds[1..] + [d];
      if Stale(t, ds[0].ts) {
        CleanSnoc(t, ds[1..], d);
      }
    }
  }

  /** What the synchroniser accepts of the depth samples that arrive. */
  function Taken(t: Timing, waiting: bool, ds: seq<Sample>): seq<Sample>
    requires 0 < t.period
  {
    if waiting then Clean(t, ds) else ds
  }

  /** No arrival of the run found its ring full. */
  ghost predicate NoOverflow(t: Timing, ring: nat, st: Sync, arrivals: seq<Arrival>)
    requires 0 < t.period
  {
    forall n :: 0 <= n < |arrivals| ==> HasRoom(t, ring, Run(t, ring, st, arrivals[..n]), arrivals[n])
  }

  ghost predicate HasRoom(t: Timing, ring: nat, st: Sync, a: Arrival)
    requires 0 < t.period
  {
    Refused(t, st, a) || |if a.FromColor? then st.pending.color else st.pending.depth| < ring + 1
  }

  /** The batch form: what was pending and both whole sequences, drained in one go. */
  function Batch(t: Timing, st: Sync, cs: seq<Sample>, ds: seq<Sample>): Pending
    requires 0 < t.period
  {
    Append(st.pending, Pending(cs, Taken(t, st.waiting, ds)))
  }

  /** st has become now as if the arrivals had been drained in one go. */
  ghost predicate IsBatch(t: Timing, st: Sync, now: Sync, cs: seq<Sample>, ds: seq<Sample>)
    requires 0 < t.period
  {
    var o := Drain(t, Batch(t, st, cs, ds));
    && now.events == st.events + o.events && now.pending == o.rest
    && (now.waiting <==> st.waiting && Clean(t, ds) == [])
  }

  /** Online equals batch: without overflow, events and pending samples depend only on the two sequences. */
  lemma {:induction false} OnlineIsBatch(t: Timing, ring: nat, st: Sync, arrivals: seq<Arrival>)
    requires 0 < t.period && Quiescent(st) && NoOverflow(t, ring, st, arrivals)
    ensures IsBatch(t, st, Run(t, ring, st, arrivals), Colors(arrivals), Depths(arrivals))
  {
    if arrivals == [] {
      assert Append(st.pending, Pending([], [])) == st.pending;
      assert st.events + [] == st.events;
    } else {
      var n := |arrivals| - 1;
      var init := arrivals[..n];
      assert NoOverflow(t, ring, st, init) by {
        forall k | 0 <= k < n ensures HasRoom(t, ring, Run(t, ring, st, init[..k]), init[k]) {
          assert init[..k] == arrivals[..k];
        }
      }
      OnlineIsBatch(t, ring, st, init);
      SnocSplits(arrivals);
      assert HasRoom(t, ring, Run(t, ring, st, init), arrivals[n]);
      OnlineStep(t, ring, st, Run(t, ring, st, init), arrivals[n], Colors(init), Depths(init));
    }
  }

  lemma OnlineStep(t: Timing, ring: nat, st: Sync, now: Sync, a: Arrival, cs: seq<Sample>, ds: seq<Sample>)
    requires 0 < t.period && IsBatch(t, st, now, cs, ds) && HasRoom(t, ring, now, a)
    ensures a.FromColor? ==> IsBatch(t, st, Arrive(t, ring, true, now, a), cs + [a.sample], ds)
    ensures a.FromDepth? ==> IsBatch(t, st, Arrive(t, ring, true, now, a), cs, ds + [a.sample])
  {
    CleanSnoc(t, ds, a.sample);
    hide Drain, Accept, Clean, Append, Settle;
    if !Refused(t, now, a) {
      var added := if a.FromColor? then Pending([a.sample], []) else Pending([], [a.sample]);
      EnterAppends(ring, now, a, added);
      BatchGrows(t, st, a, cs, ds, added);
      SettleAfter(t, st, now, Batch(t, st, cs, ds), Enter(ring, true, now, a), added);
    }
  }

  lemma SettleAfter(t: Timing, st: Sync, now: Sync, p: Pending, entered: Sync, added: Pending)
    requires now.events == st.events + Drain(t, p).events && now.pending == Drain(t, p).rest
    requires entered.pending == Append(now.pending, added) && entered.events == now.events
    ensures var o, settled := Drain(t, Append(p, added)), Settle(t, entered);
            settled.events == st.events + o.events && settled.pending == o.rest && settled.waiting == entered.waiting
  {
    hide Drain, Append;
    DrainEarly(t, p, added);
    var o := Drain(t, p);
    var later := Drain(t, Append(o.rest, added));
    assert st.events + (o.events + later.events) == (st.events + o.events) + later.events;
  }

  lemma EnterAppends(ring: nat, now: Sync, a: Arrival, added: Pending)
    requires |if a.FromColor? then now.pending.color else now.pending.depth| < ring + 1
    requires added == if a.FromColor? then Pending([a.sample], []) else Pending([], [a.sample])
    ensures Enter(ring, true, now, a).pending == Append(now.pending, added)
    ensures Enter(ring, true, now, a).events == now.events
  {
    assert now.pending.color + [] == now.pending.color && now.pending.depth + [] == now.pending.depth;
    assert now.pending.color == [] ==> now.pending.color + [a.sample] == [a.sample];
    assert now.pending.depth == [] ==> now.pending.depth + [a.sample] == [a.sample];
    assert now.events + [] == now.events;
  }

  /** An arrival that is not refused comes at the end of its sensor's sequence. */
  lemma BatchGrows(t: Timing, st: Sync, a: Arrival, cs: seq<Sample>, ds: seq<Sample>, added: Pending)
    requires 0 < t.period && added == if a.FromColor? then Pending([a.sample], []) else Pending([], [a.sample])
    requires a.FromDepth? && st.waiting && Clean(t, ds) == [] ==> !Stale(t, a.sample.ts)
    ensures a.FromColor? ==> Append(Batch(t, st, cs, ds), added) == Batch(t, st, cs + [a.sample], ds)
    ensures a.FromDepth? ==> Append(Batch(t, st, cs, ds), added) == Batch(t, st, cs, ds + [a.sample])
  {
    CleanSnoc(t, ds, a.sample);
    Assoc(st.pending.color, cs, [a.sample]);
    Assoc(st.pending.depth, Taken(t, st.waiting, ds), [a.sample]);
    var p := Batch(t, st, cs, ds);
    assert p.color + [] == p.color && p.depth + [] == p.depth;
  }

  /** Interleaving independence: two orders of arrival of the same two sequences end alike. */
  lemma InterleavingDoesNotMatter(t: Timing, ring: nat, st: Sync, arrivals: seq<Arrival>, others: seq<Arrival>)
    requires 0 < t.period && Quiescent(st) && NoOverflow(t, ring, st, arrivals) && NoOverflow(t, ring, st, others)
    requires Colors(arrivals) == Colors(others) && Depths(arrivals) == Depths(others)
    ensures Run(t, ring, st, arrivals).events == Run(t, ring, st, others).events
    ensures Run(t, ring, st, arrivals).pending == Run(t, ring, st, others).pending
    ensures Run(t, ring, st, arrivals).waiting == Run(t, ring, st, others).waiting
  {
    OnlineIsBatch(t, ring, st, arrivals);
    OnlineIsBatch(t, ring, st, others);
  }

  // ---------- Exactly-once accounting, with overflow too ----------

  /** The log followed by the pending samples is what was accepted, in arrival order, for either sensor. */
  ghost predicate Accounted(st: Sync, cs: seq<Sample>, ds: seq<Sample>) {
    && ColorsOf(st.events) + st.pending.color == cs
    && DepthsOf(st.events) + st.pending.depth == ds
  }

  ghost predicate Quiescent(st: Sync) {
    st.pending.color == [] || st.pending.depth == []
  }

  lemma SettleAccounts(t: Timing, st: Sync, cs: seq<Sample>, ds: seq<Sample>)
    requires Accounted(st, cs, ds)
    ensures Accounted(Settle(t, st), cs, ds) && Quiescent(Settle(t, st))
  {
    var o := Drain(t, st.pending);
    DrainAccounts(t, st.pending);
    DrainIsQuiescent(t, st.pending);
    ColorsOfConcat(st.events, o.events);
    DepthsOfConcat(st.events, o.events);
    Assoc(ColorsOf(st.events), ColorsOf(o.events), o.rest.color);
    Assoc(DepthsOf(st.events), DepthsOf(o.events), o.rest.depth);
  }

  lemma EnterAccounts(ring: nat, st: Sync, a: Arrival, cs: seq<Sample>, ds: seq<Sample>)
    requires Accounted(st, cs, ds)
    ensures a.FromColor? ==> Accounted(Enter(ring, true, st, a), cs + [a.sample], ds)
    ensures a.FromDepth? ==> Accounted(Enter(ring, true, st, a), cs, ds + [a.sample])
  {
    hide Accept, ColorsOf, DepthsOf;
    if a.FromColor? {
      var (q, out) := Accept(ring, true, st.pending.color, a.sample);
      AcceptAccounts(ring, st.pending.color, a.sample);
      if out != [] {
        LogOne(st.events, LoneColor(out[0]));
      }
      assert st.events + [] == st.events;
      Regroup(ColorsOf(st.events), out, q, st.pending.color, a.sample);
    } else {
      var (q, out) := Accept(ring, true, st.pending.depth, a.sample);
      AcceptAccounts(ring, st.pending.depth, a.sample);
      if out != [] {
        LogOne(st.events, LoneDepth(out[0]));
      }
      assert st.events + [] == st.events;
      Regroup(DepthsOf(st.events), out, q, st.pending.depth, a.sample);
    }
  }

  /** What leaves the pending samples followed by what stays is what was there followed by the newcomer. */
  lemma AcceptAccounts(ring: nat, q: seq<Sample>, s: Sample)
    ensures var (q', out) := Accept(ring, true, q, s); |out| <= 1 && out + q' == q + [s]
  {
    if q != [] {
      assert q == [q[0]] + q[1..];
    }
  }

  lemma LogOne(es: seq<Event>, e: Event)
    ensures ColorsOf(es + [e]) == ColorsOf(es) + ColorOf(e)
    ensures DepthsOf(es + [e]) == DepthsOf(es) + DepthOf(e)
  {
    ColorsOfConcat(es, [e]);
    DepthsOfConcat(es, [e]);
    SingleProjections(e);
  }

  lemma Regroup(log: seq<Sample>, out: seq<Sample>, q': seq<Sample>, q: seq<Sample>, s: Sample)
    requires out + q' == q + [s]
    ensures (log + out) + q' == (log + q) + [s]
    ensures log + [] == log
  {
    Assoc(log, out, q');
    Assoc(log, q, [s]);
  }

  /** In every run, overflow or not, each accepted sample is in exactly one place and each sensor's samples leave
      in arrival order; at most one sensor has anything pending. */
  lemma {:induction false} RunAccounts(t: Timing, ring: nat, st: Sync, arrivals: seq<Arrival>)
    requires 0 < t.period && Quiescent(st)
    ensures var cs, ds := Colors(arrivals), Taken(t, st.waiting, Depths(arrivals));
            Accounted(Run(t, ring, st, arrivals), ColorsOf(st.events) + st.pending.color + cs,
                      DepthsOf(st.events) + st.pending.depth + ds)
    ensures Quiescent(Run(t, ring, st, arrivals))
    ensures Run(t, ring, st, arrivals).waiting <==> st.waiting && Clean(t, Depths(arrivals)) == []
    ensures Run(t, ring, st, arrivals).skipped ==
              st.skipped + |Depths(arrivals)| - |Taken(t, st.waiting, Depths(arrivals))|
  {
    if arrivals == [] {
      assert ColorsOf(st.events) + st.pending.color + [] == ColorsOf(st.events) + st.pending.color;
      assert DepthsOf(st.events) + st.pending.depth + [] == DepthsOf(st.events) + st.pending.depth;
    } else {
      var n := |arrivals| - 1;
      var init, a := arrivals[..n], arrivals[n];
      RunAccounts(t, ring, st, init);
      SnocSplits(arrivals);
      var now := Run(t, ring, st, init);
      CleanSnoc(t, Depths(init), a.sample);
      var cs := ColorsOf(st.events) + st.pending.color;
      var ds := DepthsOf(st.events) + st.pending.depth;
      Assoc(cs, Colors(init), [a.sample]);
      Assoc(ds, Taken(t, st.waiting, Depths(init)), [a.sample]);
      EnterAccounts(ring, now, a, cs + Colors(init), ds + Taken(t, st.waiting, Depths(init)));
      if !Refused(t, now, a) {
        SettleAccounts(t, Enter(ring, true, now, a), cs + Colors(arrivals), ds + Taken(t, st.waiting, Depths(arrivals)));
      }
    }
  }

  // ---------- The wait for a clean timestamp ----------

  lemma MultipleOrder(q: int, p: nat)
    ensures q <= 10 ==> q * p <= 10 * p
    ensures 11 <= q ==> 11 * p <= q * p
  {
    if q <= 10 {
      assert 0 <= (10 - q) * p;
    } else {
      assert 0 <= (q - 11) * p;
    }
  }

  lemma Division(ts: nat, p: nat, q: int, r: int)
    requires 0 < p && q == ts / p && r == ts % p
    ensures ts == q * p + r && 0 <= r < p
  {
  }

  lemma StaleIff(t: Timing, ts: nat)
    requires 0 < t.period
    ensures Stale(t, ts) <==> 11 * t.period <= ts
  {
    var q, r := ts / t.period, ts % t.period;
    Division(ts, t.period, q, r);
    MultipleOrder(q, t.period);
  }

  /** While no depth timestamp has been trusted, exactly the depth samples at eleven periods or more are refused, and
      counted. The first depth sample not refused ends the wait. It is taken, like any other arrival, if the queues are
      enabled or the sensor has nothing pending, and else lost. */
  lemma ArriveIs(t: Timing, ring: nat, enabled: bool, st: Sync, a: Arrival)
    requires 0 < t.period
    ensures var now := Arrive(t, ring, enabled, st, a);
            var taken := if enabled || (if a.FromColor? then st.pending.color else st.pending.depth) == [] then [a.sample] else [];
            if a.FromDepth? && st.waiting && 11 * t.period <= a.sample.ts then now == st.(skipped := st.skipped + 1)
            else
              && now.skipped == st.skipped && (now.waiting <==> st.waiting && a.FromColor?)
              && ColorsOf(now.events) + now.pending.color
                 == ColorsOf(st.events) + st.pending.color + (if a.FromColor? then taken else [])
              && DepthsOf(now.events) + now.pending.depth
                 == DepthsOf(st.events) + st.pending.depth + (if a.FromDepth? then taken else [])
  {
    StaleIff(t, a.sample.ts);
    hide Stale, Drain, ColorsOf, DepthsOf;
    var cs, ds := ColorsOf(st.events) + st.pending.color, DepthsOf(st.events) + st.pending.depth;
    assert cs + [] == cs && ds + [] == ds && st.events + [] == st.events;
    if !Refused(t, st, a) {
      if enabled || (if a.FromColor? then st.pending.color else st.pending.depth) == [] {
        assert Enter(ring, enabled, st, a) == Enter(ring, true, st, a);
        EnterAccounts(ring, st, a, cs, ds);
        SettleAccounts(t, Enter(ring, enabled, st, a), cs + (if a.FromColor? then [a.sample] else []),
                       ds + (if a.FromDepth? then [a.sample] else []));
      } else {
        SettleAccounts(t, Enter(ring, enabled, st, a), cs, ds);
      }
    }
  }

  lemma {:induction false} CleanFrom(t: Timing, ds: seq<Sample>) returns (n: nat)
    requires 0 < t.period
    ensures n <= |ds| && Clean(t, ds) == ds[n..]
    ensures forall k :: 0 <= k < n ==> 11 * t.period <= ds[k].ts
    ensures n < |ds| ==> ds[n].ts < 11 * t.period
  {
    n := 0;
    if ds != [] {
      StaleIff(t, ds[0].ts);
      if Stale(t, ds[0].ts) {
        var m := CleanFrom(t, ds[1..]);
        n := m + 1;
        forall k | 0 <= k < n ensures 11 * t.period <= ds[k].ts {
          assert k > 0 ==> ds[k] == ds[1..][k - 1];
        }
      }
    }
  }

  /** A run that starts out waiting refuses the depth samples before the first one below eleven periods, and takes that
      one and all after it. */
  lemma RunTrustsFrom(t: Timing, ring: nat, st: Sync, arrivals: seq<Arrival>) returns (n: nat)
    requires 0 < t.period && Quiescent(st) && st.waiting
    ensures var ds, now := Depths(arrivals), Run(t, ring, st, arrivals);
            && n <= |ds| && now.skipped == st.skipped + n && (now.waiting <==> n == |ds|)
            && (forall k :: 0 <= k < n ==> 11 * t.period <= ds[k].ts)
            && (n < |ds| ==> ds[n].ts < 11 * t.period)
            && DepthsOf(now.events) + now.pending.depth == DepthsOf(st.events) + st.pending.depth + ds[n..]
  {
    hide Run, Clean;
    RunAccounts(t, ring, st, arrivals);
    n := CleanFrom(t, Depths(arrivals));
  }

  // ---------- What leaves the synchroniser ----------

  ghost predicate AllMatch(t: Timing, es: seq<Event>) {
    forall k :: 0 <= k < |es| && es[k].Merged? ==> Matches(t, es[k].color.ts, es[k].depth.ts)
  }

  lemma ArriveKeepsMatching(t: Timing, ring: nat, enabled: bool, st: Sync, a: Arrival)
    requires 0 < t.period && AllMatch(t, st.events)
    ensures AllMatch(t, Arrive(t, ring, enabled, st, a).events)
  {
    if !Refused(t, st, a) {
      var entered := Enter(ring, enabled, st, a);
      forall k | 0 <= k < |Drain(t, entered.pending).events| && Drain(t, entered.pending).events[k].Merged?
        ensures Matches(t, Drain(t, entered.pending).events[k].color.ts, Drain(t, entered.pending).events[k].depth.ts)
      {
        MergesMatch(t, entered.pending, k);
      }
    }
  }

  /** In every run, overflow or not, merged captures respect the window. */
  lemma {:induction false} RunMatches(t: Timing, ring: nat, st: Sync, arrivals: seq<Arrival>)
    requires 0 < t.period && AllMatch(t, st.events)
    ensures AllMatch(t, Run(t, ring, st, arrivals).events)
  {
    if arrivals != [] {
      var n := |arrivals| - 1;
      RunMatches(t, ring, st, arrivals[..n]);
      ArriveKeepsMatching(t, ring, true, Run(t, ring, st, arrivals[..n]), arrivals[n]);
    }
  }

  /** The part of a log that another one has besides. */
  function Since(es: seq<Event>, now: seq<Event>): seq<Event> {
    if |es| <= |now| then now[|es|..] else []
  }

  /** The capture an event sends to the output: a merge travels in the depth capture, a lone sample only when
      unsynchronised captures are wanted. */
  function Published(only: bool, e: Event): seq<nat> {
    match e
    case Merged(_, d) => [d.id]
    case LoneColor(s) => if only then [] else [s.id]
    case LoneDepth(s) => if only then [] else [s.id]
  }

  function Outputs(only: bool, es: seq<Event>): seq<nat> {
    if es == [] then [] else Outputs(only, es[..|es| - 1]) + Published(only, es[|es| - 1])
  }

  lemma {:induction false} OutputsConcat(only: bool, a: seq<Event>, b: seq<Event>)
    ensures Outputs(only, a + b) == Outputs(only, a) + Outputs(only, b)
    decreases b
  {
    if b == [] {
      assert a + b == a;
    } else {
      var n := |b| - 1;
      OutputsConcat(only, a, b[..n]);
      assert (a + b)[..|a + b| - 1] == a + b[..n];
      Assoc(Outputs(only, a), Outputs(only, b[..n]), Published(only, b[n]));
    }
  }
}
