// The five-consecutive-failure reducer and its health score (packages/ai-scorer/src/strikes.ts).
module Strikes {
  import opened Prelude

  const STRIKE_LIMIT: nat := 5
  const ALPHA: real := 0.25
  const INITIAL_SCORE: real := 1.0

  datatype StrikeState = StrikeState(
    consecutiveFailures: nat,
    rollingScore: real,
    active: bool,
    probeCount: nat,
    deactivatedAtProbe: Option<nat>)

  datatype Review = Review(resourceId: string, reason: string, consecutiveFailures: nat, deactivatedAtProbe: nat)

  datatype Transition = Transition(deactivated: bool, review: Option<Review>)

  function InitialStrikeState(): StrikeState {
    StrikeState(0, INITIAL_SCORE, true, 0, None)
  }

  function Clamp01(n: real): real {
    if n < 0.0 then 0.0 else if n > 1.0 then 1.0 else n
  }

  function Raw(score: real, passed: bool): real {
    (1.0 - ALPHA) * score + ALPHA * if passed then 1.0 else 0.0
  }

  function ReduceStrike(state: StrikeState, passed: bool, resourceId: string): (StrikeState, Transition) {
    var probeCount := state.probeCount + 1;
    var scored := state.(rollingScore := Clamp01(Raw(state.rollingScore, passed)), probeCount := probeCount);
    if passed then (scored.(consecutiveFailures := 0), Transition(false, None))
    else
      var failures := state.consecutiveFailures + 1;
      if state.active && failures >= STRIKE_LIMIT then
        (scored.(consecutiveFailures := failures, active := false, deactivatedAtProbe := Some(probeCount)),
         Transition(true, Some(Review(resourceId, Decimal(failures) + " consecutive failing probes", failures, probeCount))))
      else (scored.(consecutiveFailures := failures), Transition(false, None))
  }

  // ---------- Whole histories ----------

  // The passes and failures of one resource, oldest first.
  type History = seq<bool>

  function Fold(h: History, resourceId: string): StrikeState {
    if h == [] then InitialStrikeState()
    else ReduceStrike(Fold(h[..|h| - 1], resourceId), h[|h| - 1], resourceId).0
  }

  // What the reducer reported at the probe with index k.
  function Reported(h: History, resourceId: string, k: nat): Transition
    requires k < |h|
  {
    ReduceStrike(Fold(h[..k], resourceId), h[k], resourceId).1
  }

  // n probes fail at the end of the history, and no more.
  predicate IsFailingSuffix(h: History, n: nat) {
    && n <= |h|
    && (forall i | |h| - n <= i < |h| :: !h[i])
    && (n < |h| ==> h[|h| - n - 1])
  }

  predicate FiveFrom(h: History, i: nat) {
    i + STRIKE_LIMIT <= |h| && forall j | i <= j < i + STRIKE_LIMIT :: !h[j]
  }

  predicate HasFive(h: History) {
    exists i | 0 <= i < |h| :: FiveFrom(h, i)
  }

  lemma FiveInFront(h: History)
    requires h != []
    ensures HasFive(h) <==>
            HasFive(h[..|h| - 1]) || (|h| >= STRIKE_LIMIT && forall j | |h| - STRIKE_LIMIT <= j < |h| :: !h[j])
  {
    var front := h[..|h| - 1];
    if HasFive(front) {
      var i :| 0 <= i < |front| && FiveFrom(front, i);
      assert FiveFrom(h, i);
    }
    if |h| >= STRIKE_LIMIT && forall j | |h| - STRIKE_LIMIT <= j < |h| :: !h[j] {
      assert FiveFrom(h, |h| - STRIKE_LIMIT);
    }
    if HasFive(h) {
      var i :| 0 <= i < |h| && FiveFrom(h, i);
      if i + STRIKE_LIMIT < |h| {
        assert FiveFrom(front, i);
      }
    }
  }

  // The counter is the length of the maximal failing suffix, the resource is active until its
  // history holds five failures in a row, and every probe is counted.
  lemma {:induction false} FoldCharacterised(h: History, resourceId: string)
    ensures var s := Fold(h, resourceId);
            && IsFailingSuffix(h, s.consecutiveFailures)
            && (s.active <==> !HasFive(h))
            && s.probeCount == |h|
  {
    hide HasFive, Decimal, Raw, Clamp01;
    if h == [] {
      EmptyHasNoFive();
    } else {
      var front := h[..|h| - 1];
      FoldCharacterised(front, resourceId);
      FiveInFront(h);
      assert forall i | 0 <= i < |front| :: front[i] == h[i];
    }
  }

  lemma EmptyHasNoFive()
    ensures !HasFive([])
  {
  }

  // Deactivation is reported exactly at the end of the first run of five, with a review that says five.
  lemma DeactivationCharacterised(h: History, resourceId: string, k: nat)
    requires k < |h|
    ensures var t := Reported(h, resourceId, k);
            && (t.deactivated <==> HasFive(h[..k + 1]) && !HasFive(h[..k]))
            && (t.review.Some? <==> t.deactivated)
            && (t.deactivated ==> t.review.value.consecutiveFailures == STRIKE_LIMIT
                                  && t.review.value.resourceId == resourceId
                                  && t.review.value.deactivatedAtProbe == k + 1)
  {
    hide HasFive, Decimal;
    var now := h[..k + 1];
    assert now[..k] == h[..k];
    FoldCharacterised(h[..k], resourceId);
    FoldCharacterised(now, resourceId);
    FiveInFront(now);
    var n := Fold(h[..k], resourceId).consecutiveFailures;
    if n >= STRIKE_LIMIT {
      SuffixOfFive(h[..k], n);
    }
    assert forall i | 0 <= i < k :: h[..k][i] == now[i];
  }

  lemma SuffixOfFive(h: History, n: nat)
    requires IsFailingSuffix(h, n) && n >= STRIKE_LIMIT
    ensures HasFive(h)
  {
    assert FiveFrom(h, |h| - n);
  }

  lemma FiveStays(h: History, k: nat, m: nat)
    requires k <= m <= |h| && HasFive(h[..k])
    ensures HasFive(h[..m])
  {
    var i :| 0 <= i < |h[..k]| && FiveFrom(h[..k], i);
    assert FiveFrom(h[..m], i);
  }

  // So it is reported at most once in a history, and never again after the first run of five.
  lemma DeactivatedOnce(h: History, resourceId: string, j: nat, k: nat)
    requires j < |h| && k < |h| && Reported(h, resourceId, j).deactivated && Reported(h, resourceId, k).deactivated
    ensures j == k
  {
    hide HasFive;
    DeactivationCharacterised(h, resourceId, j);
    DeactivationCharacterised(h, resourceId, k);
    if j < k {
      FiveStays(h, j + 1, k);
    } else if k < j {
      FiveStays(h, k + 1, j);
    }
  }

  // The marker in the state is the probe that completed the first run of five.
  lemma {:induction false} MarkerIsFirstFive(h: History, resourceId: string)
    ensures var m := Fold(h, resourceId).deactivatedAtProbe;
            && (m.Some? <==> HasFive(h))
            && (m.Some? ==> 0 < m.value <= |h| && HasFive(h[..m.value]) && !HasFive(h[..m.value - 1]))
  {
    hide HasFive, Decimal, Raw, Clamp01;
    if h == [] {
      EmptyHasNoFive();
    } else {
      var n := |h| - 1;
      MarkerIsFirstFive(h[..n], resourceId);
      DeactivationCharacterised(h, resourceId, n);
      FoldCharacterised(h[..n], resourceId);
      FiveInFront(h);
      assert h[..n + 1] == h;
      assert forall k | 0 <= k <= n :: h[..n][..k] == h[..k];
    }
  }

  // ---------- The score ----------

  function Decay(n: nat): real {
    if n == 0 then 1.0 else (1.0 - ALPHA) * Decay(n - 1)
  }

  // The weighted sum of the samples, oldest first: a sample with n after it weighs ALPHA * Decay(n).
  function Weighted(h: History): real {
    if h == [] then 0.0
    else (if h[0] then ALPHA * Decay(|h| - 1) else 0.0) + Weighted(h[1..])
  }

  lemma {:induction false} WeightedAppend(h: History, passed: bool)
    ensures Weighted(h + [passed]) == (1.0 - ALPHA) * Weighted(h) + if passed then ALPHA else 0.0
  {
    if h == [] {
      assert h + [passed] == [passed];
      assert Weighted([passed]) == (if passed then ALPHA * Decay(0) else 0.0) + Weighted([passed][1..]);
    } else {
      WeightedAppend(h[1..], passed);
      assert (h + [passed])[1..] == h[1..] + [passed];
    }
  }

  // Over the reals the score is the decayed start plus the weighted samples; it stays within [0,1],
  // so the clamp never acts.
  lemma {:induction false} ScoreClosedForm(h: History, resourceId: string)
    ensures var s := Fold(h, resourceId).rollingScore;
            s == Decay(|h|) * INITIAL_SCORE + Weighted(h) && 0.0 <= s <= 1.0
    ensures forall passed :: Clamp01(Raw(Fold(h, resourceId).rollingScore, passed))
                          == Raw(Fold(h, resourceId).rollingScore, passed)
  {
    if h != [] {
      var front := h[..|h| - 1];
      ScoreClosedForm(front, resourceId);
      WeightedAppend(front, h[|h| - 1]);
      assert h == front + [h[|h| - 1]];
    }
  }
}
