/** The order of the expander's lists, by which Count cuts them. */
module Ordering {
  import opened Times
  import opened Recurrence
  import opened Tables
  import Pipeline

  // ---------- one list ----------

  ghost predicate Rises(at: seq<nat>) {
    forall a, b :: 0 <= a < b < |at| ==> at[a] < at[b]
  }

  /** ys is what xs holds at the positions at. */
  ghost predicate Picks(xs: seq<Instant>, at: seq<nat>, ys: seq<Instant>) {
    |at| == |ys| && forall a :: 0 <= a < |at| ==> at[a] < |xs| && ys[a] == xs[at[a]]
  }

  lemma OneMorePicked(xs: seq<Instant>, at: seq<nat>, ys: seq<Instant>)
    requires xs != [] && Rises(at) && Picks(xs[..|xs| - 1], at, ys)
    ensures Picks(xs, at, ys) && forall i :: i in at ==> i < |xs| - 1
    ensures var n: nat := |xs| - 1; Rises(at + [n]) && Picks(xs, at + [n], ys + [xs[n]])
  {
    var front := xs[..|xs| - 1];
    assert forall i :: 0 <= i < |front| ==> front[i] == xs[i];
  }

  /** The positions of the elements strictly inside. */
  ghost predicate AreInside(xs: seq<Instant>, lo: Instant, hi: Instant, at: seq<nat>) {
    forall i: nat :: i < |xs| ==> (i in at <==> lo < xs[i] < hi)
  }

  lemma OneMoreInside(xs: seq<Instant>, lo: Instant, hi: Instant, at: seq<nat>)
    requires xs != [] && AreInside(xs[..|xs| - 1], lo, hi, at) && forall i :: i in at ==> i < |xs| - 1
    ensures AreInside(xs, lo, hi, if lo < xs[|xs| - 1] < hi then at + [|xs| - 1] else at)
  {
    var front := xs[..|xs| - 1];
    assert forall i :: 0 <= i < |front| ==> front[i] == xs[i];
  }

  /** The window keeps the order of its list: it is what the list holds at rising positions, which are those
      of the elements strictly inside. */
  lemma {:induction false} WindowPicks(xs: seq<Instant>, lo: Instant, hi: Instant) returns (at: seq<nat>)
    ensures Rises(at) && Picks(xs, at, Window(xs, lo, hi)) && AreInside(xs, lo, hi, at)
  {
    at := [];
    if xs != [] {
      var n := |xs| - 1;
      at := WindowPicks(xs[..n], lo, hi);
      var ys, zs := Window(xs[..n], lo, hi), Window(xs, lo, hi);
      assert zs == ys + if lo < xs[n] < hi then [xs[n]] else [];
      hide *;
      OneMorePicked(xs, at, ys);
      OneMoreInside(xs, lo, hi, at);
      if lo < xs[n] < hi {
        at := at + [n];
      }
    }
  }

  // ---------- all base points ----------

  /** x is at position i of the list that the k-th base point proposes. */
  predicate IsCandidate(s: Schedule, t: Instant, k: nat, i: nat, x: Instant) {
    i < |Candidates(s, Nth(s, t, k))| && Candidates(s, Nth(s, t, k))[i] == x
  }

  /** Base point by base point, and each list in its own order. */
  ghost predicate InOrder(at: seq<(nat, nat)>) {
    forall a, b :: 0 <= a < b < |at| ==> at[a].0 < at[b].0 || (at[a].0 == at[b].0 && at[a].1 < at[b].1)
  }

  ghost predicate Lists(s: Schedule, t: Instant, at: seq<(nat, nat)>, xs: seq<Instant>) {
    |at| == |xs| && forall a :: 0 <= a < |at| ==> IsCandidate(s, t, at[a].0, at[a].1, xs[a])
  }

  ghost predicate IsComplete(s: Schedule, t: Instant, lo: Instant, hi: Instant, at: seq<(nat, nat)>) {
    forall k: nat, i: nat, x :: IsCandidate(s, t, k, i, x) ==>
      ((k, i) in at <==> Nth(s, t, k) < hi && lo < x < hi)
  }

  /** Positions at base point t. */
  function AtFirst(picked: seq<nat>): seq<(nat, nat)> {
    seq(|picked|, a requires 0 <= a < |picked| => (0, picked[a]))
  }

  /** Positions counted from the base point before. */
  function Shifted(at: seq<(nat, nat)>): seq<(nat, nat)> {
    seq(|at|, a requires 0 <= a < |at| => (at[a].0 + 1, at[a].1))
  }

  lemma AtFirstHas(picked: seq<nat>, k: nat, i: nat)
    ensures (k, i) in AtFirst(picked) <==> k == 0 && i in picked
  {
    if i in picked {
      var a :| 0 <= a < |picked| && picked[a] == i;
      assert AtFirst(picked)[a] == (0, i);
    }
  }

  lemma ShiftedHas(at: seq<(nat, nat)>, k: nat, i: nat)
    ensures (k, i) in Shifted(at) <==> k > 0 && (k - 1, i) in at
  {
    if k > 0 && (k - 1, i) in at {
      var a :| 0 <= a < |at| && at[a] == (k - 1, i);
      assert Shifted(at)[a] == (k, i);
    }
  }

  lemma StaysInOrder(picked: seq<nat>, later: seq<(nat, nat)>)
    requires Rises(picked) && InOrder(later)
    ensures InOrder(AtFirst(picked) + Shifted(later))
  {
  }

  lemma NextNth(s: Schedule, t: Instant, k: nat)
    ensures Nth(s, t, k + 1) == Nth(s, Step(s, t), k)
  {
  }

  lemma StillLists(s: Schedule, t: Instant, picked: seq<nat>, xs: seq<Instant>, later: seq<(nat, nat)>,
                   ys: seq<Instant>)
    requires Picks(Candidates(s, t), picked, xs) && Lists(s, Step(s, t), later, ys)
    ensures Lists(s, t, AtFirst(picked) + Shifted(later), xs + ys)
  {
    hide Candidates, Step;
    var at, zs := AtFirst(picked) + Shifted(later), xs + ys;
    forall a | 0 <= a < |at|
      ensures IsCandidate(s, t, at[a].0, at[a].1, zs[a])
    {
      if a < |picked| {
        assert at[a] == (0, picked[a]) && zs[a] == xs[a];
      } else {
        var b := a - |picked|;
        assert at[a] == (later[b].0 + 1, later[b].1) && zs[a] == ys[b];
        NextNth(s, t, later[b].0);
        assert IsCandidate(s, Step(s, t), later[b].0, later[b].1, ys[b]);
      }
    }
  }

  lemma StillComplete(s: Schedule, t: Instant, lo: Instant, hi: Instant, picked: seq<nat>, later: seq<(nat, nat)>)
    requires t < hi && IsComplete(s, Step(s, t), lo, hi, later)
    requires AreInside(Candidates(s, t), lo, hi, picked)
    ensures IsComplete(s, t, lo, hi, AtFirst(picked) + Shifted(later))
  {
    hide Candidates, Step;
    var at := AtFirst(picked) + Shifted(later);
    forall k: nat, i: nat, x | IsCandidate(s, t, k, i, x)
      ensures (k, i) in at <==> Nth(s, t, k) < hi && lo < x < hi
    {
      AtFirstHas(picked, k, i);
      ShiftedHas(later, k, i);
      hide AtFirst, Shifted;
      if k > 0 {
        NextNth(s, t, k - 1);
        assert IsCandidate(s, Step(s, t), k - 1, i, x);
      }
    }
  }

  lemma NothingLeft(s: Schedule, t: Instant, lo: Instant, hi: Instant)
    requires WellFormed(s) && t >= hi
    ensures IsComplete(s, t, lo, hi, [])
  {
    hide Candidates, Step;
    forall k: nat
      ensures Nth(s, t, k) >= hi
    {
      if k > 0 {
        SeriesIncreases(s, t, 0, k);
      }
    }
  }

  /** The list of every window, its order and its repetitions included: the candidates inside it, of the
      base points before its end, base point by base point and each list in its own order. */
  lemma {:induction false} OccurrencesInOrder(s: Schedule, t: Instant, lo: Instant, hi: Instant)
    returns (at: seq<(nat, nat)>)
    requires WellFormed(s)
    ensures InOrder(at) && Lists(s, t, at, Occurrences(s, t, lo, hi)) && IsComplete(s, t, lo, hi, at)
    decreases Max(0, hi - t)
  {
    StepAdvances(s, t);
    if t >= hi {
      at := [];
      NothingLeft(s, t, lo, hi);
    } else {
      var picked := WindowPicks(Candidates(s, t), lo, hi);
      var later := OccurrencesInOrder(s, Step(s, t), lo, hi);
      at := AtFirst(picked) + Shifted(later);
      var xs, ys := Window(Candidates(s, t), lo, hi), Occurrences(s, Step(s, t), lo, hi);
      assert Occurrences(s, t, lo, hi) == xs + ys;
      hide *;
      StaysInOrder(picked, later);
      StillLists(s, t, picked, xs, later, ys);
      StillComplete(s, t, lo, hi, picked, later);
    }
  }

  // ---------- Count and Until ----------

  lemma {:induction false} BeforeUntilSnoc(xs: seq<Instant>, x: Instant, bound: Instant)
    ensures Pipeline.BeforeUntil(xs + [x], bound) ==
            Pipeline.BeforeUntil(xs, bound) + if x < bound then [x] else []
  {
    if xs != [] {
      BeforeUntilSnoc(xs[1..], x, bound);
      assert (xs + [x])[1..] == xs[1..] + [x];
    }
  }

  lemma {:induction false} BeforeUntilPicks(xs: seq<Instant>, bound: Instant) returns (at: seq<nat>)
    ensures Rises(at) && Picks(xs, at, Pipeline.BeforeUntil(xs, bound))
    ensures forall i: nat :: i < |xs| ==> (i in at <==> xs[i] < bound)
  {
    at := [];
    if xs != [] {
      var n := |xs| - 1;
      at := BeforeUntilPicks(xs[..n], bound);
      BeforeUntilSnoc(xs[..n], xs[n], bound);
      assert xs[..n] + [xs[n]] == xs;
      OneMorePicked(xs, at, Pipeline.BeforeUntil(xs[..n], bound));
      hide Pipeline.BeforeUntil, Rises, Picks;
      assert forall i: nat :: i < n ==> xs[..n][i] == xs[i];
      if xs[n] < bound {
        at := at + [n];
      }
    }
  }

  /** The plan of every event and clock reading: of the window's list the first Count, and of those the ones
      before Until, in the list's order. */
  lemma PlanPicks(c: Pipeline.Config, e: Event, now: Instant) returns (at: seq<nat>)
    requires Pipeline.Expandable(e)
    ensures var sch := e.schedule.value;
            var all := Occurrences(sch, e.start, now - c.gracePeriod, now + c.lookAhead);
            && Rises(at) && Picks(all, at, Pipeline.PlanOf(c, e, now))
            && forall i: nat :: i < |all| ==>
                 (i in at <==> (sch.count.Some? && sch.count.value >= 0 ==> i < sch.count.value) &&
                               (sch.until.Before? ==> all[i] < sch.until.bound))
  {
    hide Occurrences, Pipeline.BeforeUntil;
    var sch := e.schedule.value;
    var all := Occurrences(sch, e.start, now - c.gracePeriod, now + c.lookAhead);
    var xs := Pipeline.Truncated(all, sch.count);
    assert forall i: nat :: i < |xs| ==> xs[i] == all[i];
    if sch.until.Before? {
      at := BeforeUntilPicks(xs, sch.until.bound);
    } else {
      at := seq(|xs|, i => i);
      assert forall i: nat :: i < |xs| ==> at[i] == i;
    }
  }
}
