/** Optimality of the greedy drain: it merges as many captures as any one-to-one matching could, and a sample it
    drops by a window test has lost no partner. */
module Matching {
  import opened Pairing

  ghost predicate SortedByTs(s: seq<Sample>) {
    forall i, j :: 0 <= i <= j < |s| ==> s[i].ts <= s[j].ts
  }

  /** A one-to-one matching between the color samples from index i on and the depth samples from index j on that
      respects the window. */
  ghost predicate IsMatching(t: Timing, cs: seq<Sample>, ds: seq<Sample>, m: set<(nat, nat)>, i: nat, j: nat) {
    && (forall p :: p in m ==> i <= p.0 < |cs| && j <= p.1 < |ds| && Matches(t, cs[p.0].ts, ds[p.1].ts))
    && (forall p, q :: p in m && q in m && (p.0 == q.0 || p.1 == q.1) ==> p == q)
  }

  /** The drain from color index i and depth index j. */
  function From(cs: seq<Sample>, ds: seq<Sample>, i: nat, j: nat): Pending
    requires i <= |cs| && j <= |ds|
  {
    Pending(cs[i..], ds[j..])
  }

  lemma TurnFrom(t: Timing, cs: seq<Sample>, ds: seq<Sample>, i: nat, j: nat)
    requires i < |cs| && j < |ds|
    ensures var (e, next) := Turn(t, From(cs, ds, i, j));
            match Judge(t, cs[i].ts, ds[j].ts)
            case DropDepth => e == LoneDepth(ds[j]) && next == From(cs, ds, i, j + 1)
            case DropColor => e == LoneColor(cs[i]) && next == From(cs, ds, i + 1, j)
            case Pair => e == Merged(cs[i], ds[j]) && next == From(cs, ds, i + 1, j + 1)
  {
    assert cs[i..][1..] == cs[i + 1..] && ds[j..][1..] == ds[j + 1..];
  }

  function Merges(t: Timing, p: Pending): nat {
    MergeCount(Drain(t, p).events)
  }

  lemma MergesTurn(t: Timing, p: Pending)
    requires p.color != [] && p.depth != []
    ensures Merges(t, p) == (if Turn(t, p).0.Merged? then 1 else 0) + Merges(t, Turn(t, p).1)
  {
    var (e, next) := Turn(t, p);
    assert ([e] + Drain(t, next).events)[1..] == Drain(t, next).events;
  }

  /** Removing whatever color i and depth j are matched to, and joining their two partners instead, costs one pair
      and leaves a matching of the rest. */
  lemma TakeFirstPair(t: Timing, cs: seq<Sample>, ds: seq<Sample>, m: set<(nat, nat)>, i: nat, j: nat)
    returns (m': set<(nat, nat)>)
    requires SortedByTs(cs) && SortedByTs(ds)
    requires i < |cs| && j < |ds| && Matches(t, cs[i].ts, ds[j].ts) && IsMatching(t, cs, ds, m, i, j)
    ensures IsMatching(t, cs, ds, m', i + 1, j + 1) && |m| <= |m'| + 1
  {
    if b: nat :| (i, b) in m && b != j {
      var m1 := m - {(i, b)};
      if a: nat :| (a, j) in m && a != i {
        var m2 := m1 - {(a, j)};
        Exchange(t, cs[i].ts, cs[a].ts, ds[j].ts, ds[b].ts);
        UncrossedIsMatching(t, cs, ds, m, i, j, a, b);
        m' := m2 + {(a, b)};
      } else {
        m' := m1;
      }
    } else {
      if a: nat :| (a, j) in m {
        m' := m - {(a, j)};
      } else {
        m' := m;
      }
    }
  }

  lemma UncrossedIsMatching(t: Timing, cs: seq<Sample>, ds: seq<Sample>, m: set<(nat, nat)>, i: nat, j: nat, a: nat, b: nat)
    requires IsMatching(t, cs, ds, m, i, j) && (i, b) in m && (a, j) in m && a != i && b != j
    requires a < |cs| && b < |ds| && Matches(t, cs[a].ts, ds[b].ts)
    ensures (a, b) !in m
    ensures IsMatching(t, cs, ds, m - {(i, b)} - {(a, j)} + {(a, b)}, i + 1, j + 1)
  {
  }

  /** No matching of what is left beats the drain of what is left. */
  lemma {:induction false} NoMatchingIsLarger(t: Timing, cs: seq<Sample>, ds: seq<Sample>, m: set<(nat, nat)>, i: nat, j: nat)
    requires SortedByTs(cs) && SortedByTs(ds) && i <= |cs| && j <= |ds|
    requires IsMatching(t, cs, ds, m, i, j)
    ensures |m| <= Merges(t, From(cs, ds, i, j))
    decreases |cs| - i + |ds| - j
  {
    if i == |cs| || j == |ds| {
      assert m == {};
    } else {
      TurnFrom(t, cs, ds, i, j);
      MergesTurn(t, From(cs, ds, i, j));
      match Judge(t, cs[i].ts, ds[j].ts)
      case DropDepth =>
        forall p | p in m ensures p.1 != j {
          DroppedForGood(t, cs[i].ts, ds[j].ts, cs[p.0].ts);
        }
        NoMatchingIsLarger(t, cs, ds, m, i, j + 1);
      case DropColor =>
        forall p | p in m ensures p.0 != i {
          DroppedForGood(t, cs[i].ts, ds[j].ts, ds[p.1].ts);
        }
        NoMatchingIsLarger(t, cs, ds, m, i + 1, j);
      case Pair =>
        JudgePairsExactlyMatches(t, cs[i].ts, ds[j].ts);
        var m' := TakeFirstPair(t, cs, ds, m, i, j);
        NoMatchingIsLarger(t, cs, ds, m', i + 1, j + 1);
    }
  }

  /** The drain's own pairs form a matching. */
  lemma {:induction false} DrainIsMatching(t: Timing, cs: seq<Sample>, ds: seq<Sample>, i: nat, j: nat)
    returns (m: set<(nat, nat)>)
    requires i <= |cs| && j <= |ds|
    ensures IsMatching(t, cs, ds, m, i, j) && |m| == Merges(t, From(cs, ds, i, j))
    decreases |cs| - i + |ds| - j
  {
    hide Judge, Matches;
    m := {};
    if i < |cs| && j < |ds| {
      TurnFrom(t, cs, ds, i, j);
      MergesTurn(t, From(cs, ds, i, j));
      match Judge(t, cs[i].ts, ds[j].ts)
      case DropDepth => m := DrainIsMatching(t, cs, ds, i, j + 1);
      case DropColor => m := DrainIsMatching(t, cs, ds, i + 1, j);
      case Pair =>
        JudgePairsExactlyMatches(t, cs[i].ts, ds[j].ts);
        var rest := DrainIsMatching(t, cs, ds, i + 1, j + 1);
        assert (i, j) !in rest;
        m := rest + {(i, j)};
    }
  }

  /** The greedy pairing is optimal, for either sign of the delay, every interleaving without overflow, and whatever
      was pending before: the number of merged captures is the size of a largest matching of the accepted samples. */
  lemma GreedyIsOptimal(t: Timing, ring: nat, st: Sync, arrivals: seq<Arrival>)
    requires 0 < t.period && Quiescent(st) && NoOverflow(t, ring, st, arrivals)
    requires var p := Batch(t, st, Colors(arrivals), Depths(arrivals)); SortedByTs(p.color) && SortedByTs(p.depth)
    ensures var p := Batch(t, st, Colors(arrivals), Depths(arrivals));
            var n := MergeCount(Since(st.events, Run(t, ring, st, arrivals).events));
            && (exists m :: IsMatching(t, p.color, p.depth, m, 0, 0) && |m| == n)
            && (forall m :: IsMatching(t, p.color, p.depth, m, 0, 0) ==> |m| <= n)
  {
    var p := Batch(t, st, Colors(arrivals), Depths(arrivals));
    OnlineIsBatch(t, ring, st, arrivals);
    assert Since(st.events, Run(t, ring, st, arrivals).events) == Drain(t, p).events;
    assert From(p.color, p.depth, 0, 0) == p;
    var m0 := DrainIsMatching(t, p.color, p.depth, 0, 0);
    forall m | IsMatching(t, p.color, p.depth, m, 0, 0) ensures |m| <= Merges(t, p) {
      NoMatchingIsLarger(t, p.color, p.depth, m, 0, 0);
    }
  }

  /** A sample dropped at step k matches nothing of the other sensor that had not been consumed by then, whether
      it was pending or had yet to arrive. */
  ghost predicate LostNothing(t: Timing, cs: seq<Sample>, ds: seq<Sample>, es: seq<Event>, k: nat)
    requires k < |es|
  {
    && (es[k].LoneColor? ==>
          forall j :: |DepthsOf(es[..k])| <= j < |ds| ==> !Matches(t, es[k].sample.ts, ds[j].ts))
    && (es[k].LoneDepth? ==>
          forall i :: |ColorsOf(es[..k])| <= i < |cs| ==> !Matches(t, cs[i].ts, es[k].sample.ts))
  }

  lemma {:induction false} DrainLosesNoPartner(t: Timing, cs: seq<Sample>, ds: seq<Sample>, i: nat, j: nat, k: nat)
    requires SortedByTs(cs) && SortedByTs(ds) && i <= |cs| && j <= |ds|
    requires k < |Drain(t, From(cs, ds, i, j)).events|
    ensures LostNothing(t, cs[i..], ds[j..], Drain(t, From(cs, ds, i, j)).events, k)
    decreases k
  {
    var es := Drain(t, From(cs, ds, i, j)).events;
    TurnFrom(t, cs, ds, i, j);
    var (e, next) := Turn(t, From(cs, ds, i, j));
    if k == 0 {
      HeadLosesNoPartner(t, cs, ds, i, j);
      assert es[..0] == [];
    } else {
      var i' := if e.LoneDepth? then i else i + 1;
      var j' := if e.LoneColor? then j else j + 1;
      DrainLosesNoPartner(t, cs, ds, i', j', k - 1);
      var rest := Drain(t, next).events;
      ShiftLostNothing(t, cs, ds, i, j, i', j', e, rest, k);
    }
  }

  lemma HeadLosesNoPartner(t: Timing, cs: seq<Sample>, ds: seq<Sample>, i: nat, j: nat)
    requires SortedByTs(cs) && SortedByTs(ds) && i < |cs| && j < |ds|
    ensures Judge(t, cs[i].ts, ds[j].ts) == DropColor ==>
              forall b :: 0 <= b < |ds| - j ==> !Matches(t, cs[i].ts, ds[j..][b].ts)
    ensures Judge(t, cs[i].ts, ds[j].ts) == DropDepth ==>
              forall a :: 0 <= a < |cs| - i ==> !Matches(t, cs[i..][a].ts, ds[j].ts)
  {
    forall b | 0 <= b < |ds| - j && Judge(t, cs[i].ts, ds[j].ts) == DropColor
      ensures !Matches(t, cs[i].ts, ds[j..][b].ts)
    {
      DroppedForGood(t, cs[i].ts, ds[j].ts, ds[j + b].ts);
    }
    forall a | 0 <= a < |cs| - i && Judge(t, cs[i].ts, ds[j].ts) == DropDepth
      ensures !Matches(t, cs[i..][a].ts, ds[j].ts)
    {
      DroppedForGood(t, cs[i].ts, ds[j].ts, cs[i + a].ts);
    }
  }

  lemma ShiftLostNothing(t: Timing, cs: seq<Sample>, ds: seq<Sample>, i: nat, j: nat, i': nat, j': nat,
                         e: Event, rest: seq<Event>, k: nat)
    requires i <= i' <= |cs| && j <= j' <= |ds| && |ColorOf(e)| == i' - i && |DepthOf(e)| == j' - j
    requires 0 < k <= |rest| && LostNothing(t, cs[i'..], ds[j'..], rest, k - 1)
    ensures LostNothing(t, cs[i..], ds[j..], [e] + rest, k)
  {
    var es := [e] + rest;
    assert es[..k] == [e] + rest[..k - 1] && es[..k][1..] == rest[..k - 1];
    assert es[k] == rest[k - 1];
    assert forall a :: i' - i <= a < |cs| - i ==> cs[i..][a] == cs[i'..][a - (i' - i)];
    assert forall b :: j' - j <= b < |ds| - j ==> ds[j..][b] == ds[j'..][b - (j' - j)];
  }

  /** No lost partner, for a whole run: compare each drop with everything the other sensor ever delivers. */
  lemma NoLostPartner(t: Timing, ring: nat, st: Sync, arrivals: seq<Arrival>, k: nat)
    requires 0 < t.period && Quiescent(st) && NoOverflow(t, ring, st, arrivals)
    requires var p := Batch(t, st, Colors(arrivals), Depths(arrivals)); SortedByTs(p.color) && SortedByTs(p.depth)
    requires k < |Since(st.events, Run(t, ring, st, arrivals).events)|
    ensures var p := Batch(t, st, Colors(arrivals), Depths(arrivals));
            LostNothing(t, p.color, p.depth, Since(st.events, Run(t, ring, st, arrivals).events), k)
  {
    var p := Batch(t, st, Colors(arrivals), Depths(arrivals));
    OnlineIsBatch(t, ring, st, arrivals);
    assert Since(st.events, Run(t, ring, st, arrivals).events) == Drain(t, p).events;
    assert From(p.color, p.depth, 0, 0) == p;
    DrainLosesNoPartner(t, p.color, p.depth, 0, 0, k);
    assert p.color[0..] == p.color && p.depth[0..] == p.depth;
  }
}
