// The scoring loop (packages/ai-scorer/src/schedule.ts): one tick, and ticks that overlap.
module Schedule {
  import opened Prelude
  import opened Strikes

  type States = map<string, StrikeState>

  // getState: an untracked resource starts fresh.
  function GetState(states: States, r: string): StrikeState {
    if r in states then states[r] else InitialStrikeState()
  }

  datatype Applied = Applied(resourceId: string, passed: bool, transition: Transition)

  // A successful probe: the resource and whether it passed.
  datatype Outcome = Outcome(resourceId: string, passed: bool)

  // The outcomes of one resource, in completion order.
  function HistoryOf(log: seq<Outcome>, r: string): History {
    if log == [] then []
    else
      var front, last := HistoryOf(log[..|log| - 1], r), log[|log| - 1];
      if last.resourceId == r then front + [last.passed] else front
  }

  // Every stored state is the fold of its own resource's outcomes.
  ghost predicate Folded(states: States, log: seq<Outcome>) {
    forall r :: GetState(states, r) == Fold(HistoryOf(log, r), r)
  }

  function Reduced(states: States, o: Outcome): States {
    states[o.resourceId := ReduceStrike(GetState(states, o.resourceId), o.passed, o.resourceId).0]
  }

  function TransitionOf(states: States, o: Outcome): Transition {
    ReduceStrike(GetState(states, o.resourceId), o.passed, o.resourceId).1
  }

  // Outcomes folded one after the other, and what applyResult got for each.
  function FoldAll(states: States, os: seq<Outcome>): States {
    if os == [] then states else Reduced(FoldAll(states, os[..|os| - 1]), os[|os| - 1])
  }

  function HandedOver(states: States, os: seq<Outcome>): (r: seq<Applied>)
    ensures |r| == |os|
  {
    if os == [] then []
    else
      var front, o := os[..|os| - 1], os[|os| - 1];
      HandedOver(states, front) + [Applied(o.resourceId, o.passed, TransitionOf(FoldAll(states, front), o))]
  }

  lemma FoldSnoc(states: States, os: seq<Outcome>, o: Outcome)
    ensures FoldAll(states, os + [o]) == Reduced(FoldAll(states, os), o)
    ensures HandedOver(states, os + [o])
         == HandedOver(states, os) + [Applied(o.resourceId, o.passed, TransitionOf(FoldAll(states, os), o))]
  {
    assert (os + [o])[..|os|] == os;
  }

  lemma {:induction false} FoldAllFolds(states: States, log: seq<Outcome>, os: seq<Outcome>)
    requires Folded(states, log)
    ensures Folded(FoldAll(states, os), log + os)
  {
    if os == [] {
      assert log + os == log;
    } else {
      var front, o := os[..|os| - 1], os[|os| - 1];
      FoldAllFolds(states, log, front);
      assert log + os == log + front + [o];
    }
  }

  lemma {:induction false} OthersUntouched(states: States, os: seq<Outcome>, r: string)
    requires forall i | 0 <= i < |os| :: os[i].resourceId != r
    ensures GetState(FoldAll(states, os), r) == GetState(states, r)
  {
    if os != [] {
      OthersUntouched(states, os[..|os| - 1], r);
    }
  }

  // ---------- One tick ----------

  datatype Phase = ProbePhase | ApplyPhase

  datatype Failure = Failure(phase: Phase, resourceId: string)

  // How the two awaits of one target end: None is a probe that throws.
  datatype World = World(probe: Option<bool>, applies: bool)

  // The probes of a tick that answered, in target order.
  function Outcomes(targets: seq<string>, worlds: seq<World>): seq<Outcome>
    requires |targets| == |worlds|
  {
    if targets == [] then []
    else
      var n := |targets| - 1;
      var front := Outcomes(targets[..n], worlds[..n]);
      if worlds[n].probe.Some? then front + [Outcome(targets[n], worlds[n].probe.value)] else front
  }

  // What onError hears: each probe that throws, and each apply that does.
  function Failures(targets: seq<string>, worlds: seq<World>): seq<Failure>
    requires |targets| == |worlds|
  {
    if targets == [] then []
    else
      var n := |targets| - 1;
      var front := Failures(targets[..n], worlds[..n]);
      if worlds[n].probe.None? then front + [Failure(ProbePhase, targets[n])]
      else if !worlds[n].applies then front + [Failure(ApplyPhase, targets[n])]
      else front
  }

  lemma TickSnoc(targets: seq<string>, worlds: seq<World>, i: nat)
    requires i < |targets| == |worlds|
    ensures Outcomes(targets[..i + 1], worlds[..i + 1])
         == (var front := Outcomes(targets[..i], worlds[..i]);
             if worlds[i].probe.Some? then front + [Outcome(targets[i], worlds[i].probe.value)] else front)
    ensures Failures(targets[..i + 1], worlds[..i + 1])
         == (var front := Failures(targets[..i], worlds[..i]);
             if worlds[i].probe.None? then front + [Failure(ProbePhase, targets[i])]
             else if !worlds[i].applies then front + [Failure(ApplyPhase, targets[i])] else front)
  {
    assert targets[..i + 1][..i] == targets[..i] && worlds[..i + 1][..i] == worlds[..i];
  }

  lemma TickNothing(targets: seq<string>, worlds: seq<World>)
    requires |targets| == |worlds|
    ensures Outcomes(targets[..0], worlds[..0]) == [] && Failures(targets[..0], worlds[..0]) == []
  {
  }

  // The chosen positions below n, in order.
  ghost predicate Picks(at: seq<nat>, n: nat, chosen: seq<bool>)
    requires n <= |chosen|
  {
    && (forall j, k | 0 <= j < k < |at| :: at[j] < at[k])
    && (forall k | 0 <= k < |at| :: at[k] < n && chosen[at[k]])
    && (forall i: nat | i < n && chosen[i] :: i in at)
  }

  lemma PicksMore(at: seq<nat>, n: nat, chosen: seq<bool>)
    requires n < |chosen| && Picks(at, n, chosen)
    ensures Picks(if chosen[n] then at + [n] else at, n + 1, chosen)
  {
    var more := if chosen[n] then at + [n] else at;
    forall i: nat | i < n + 1 && chosen[i] ensures i in more {
      if i == n {
        assert more[|at|] == n;
      } else {
        assert i in at;
      }
    }
  }

  lemma PicksNone(chosen: seq<bool>)
    ensures Picks([], 0, chosen)
  {
  }

  lemma PicksBelow(at: seq<nat>, n: nat, chosen: seq<bool>)
    requires n <= |chosen| && Picks(at, n, chosen)
    ensures forall k | 0 <= k < |at| :: at[k] < n && chosen[at[k]]
  {
  }

  predicate FailsAs(f: Failure, target: string, w: World) {
    f.resourceId == target && f.phase == if w.probe.None? then ProbePhase else ApplyPhase
  }

  function Answered(worlds: seq<World>): seq<bool> {
    seq(|worlds|, i requires 0 <= i < |worlds| => worlds[i].probe.Some?)
  }

  function Failed(worlds: seq<World>): seq<bool> {
    seq(|worlds|, i requires 0 <= i < |worlds| => worlds[i].probe.None? || !worlds[i].applies)
  }

  // The outcomes are those of exactly the targets whose probe answered, in target order.
  lemma {:induction false} OutcomesExactly(targets: seq<string>, worlds: seq<World>, n: nat) returns (at: seq<nat>)
    requires n <= |targets| == |worlds|
    ensures Picks(at, n, Answered(worlds))
    ensures var os := Outcomes(targets[..n], worlds[..n]);
            |at| == |os| && forall k | 0 <= k < |at| :: os[k] == Outcome(targets[at[k]], worlds[at[k]].probe.value)
  {
    hide Outcomes, Picks;
    at := [];
    if n == 0 {
      TickNothing(targets, worlds);
      PicksNone(Answered(worlds));
    } else {
      TickSnoc(targets, worlds, n - 1);
      at := OutcomesExactly(targets, worlds, n - 1);
      PicksMore(at, n - 1, Answered(worlds));
      PicksBelow(at, n - 1, Answered(worlds));
      at := if worlds[n - 1].probe.Some? then at + [n - 1] else at;
    }
  }

  // What is reported is exactly the targets whose probe or apply failed, in target order.
  lemma {:induction false} FailuresExactly(targets: seq<string>, worlds: seq<World>, n: nat) returns (at: seq<nat>)
    requires n <= |targets| == |worlds|
    ensures Picks(at, n, Failed(worlds))
    ensures var fs := Failures(targets[..n], worlds[..n]);
            |at| == |fs| && forall k | 0 <= k < |at| :: FailsAs(fs[k], targets[at[k]], worlds[at[k]])
  {
    hide Failures, Picks;
    at := [];
    if n == 0 {
      TickNothing(targets, worlds);
      PicksNone(Failed(worlds));
    } else {
      TickSnoc(targets, worlds, n - 1);
      at := FailuresExactly(targets, worlds, n - 1);
      PicksMore(at, n - 1, Failed(worlds));
      PicksBelow(at, n - 1, Failed(worlds));
      at := if worlds[n - 1].probe.None? || !worlds[n - 1].applies then at + [n - 1] else at;
    }
  }

  class ScoringLoop {
    var states: States
    var applied: seq<Applied>
    var failures: seq<Failure>

    constructor ()
      ensures states == map[] && applied == [] && failures == []
    {
      states, applied, failures := map[], [], [];
    }

    // A failing probe or apply is reported and the tick goes on: exactly the answered probes are
    // folded, each into its own resource, and handed over.
    method Tick(targets: seq<string>, worlds: seq<World>)
      requires |targets| == |worlds|
      modifies this
      ensures states == FoldAll(old(states), Outcomes(targets, worlds))
      ensures applied == old(applied) + HandedOver(old(states), Outcomes(targets, worlds))
      ensures failures == old(failures) + Failures(targets, worlds)
    {
      hide ReduceStrike, FoldAll, HandedOver, Outcomes, Failures, TransitionOf, Reduced;
      FoldNothing(states);
      TickNothing(targets, worlds);
      for i := 0 to |targets|
        invariant states == FoldAll(old(states), Outcomes(targets[..i], worlds[..i]))
        invariant applied == old(applied) + HandedOver(old(states), Outcomes(targets[..i], worlds[..i]))
        invariant failures == old(failures) + Failures(targets[..i], worlds[..i])
      {
        var target, world := targets[i], worlds[i];
        TickSnoc(targets, worlds, i);
        if world.probe.None? {
          failures := failures + [Failure(ProbePhase, target)];
          continue;
        }
        var o := Outcome(target, world.probe.value);
        FoldSnoc(old(states), Outcomes(targets[..i], worlds[..i]), o);
        var transition := TransitionOf(states, o);
        states := Reduced(states, o);
        applied := applied + [Applied(target, o.passed, transition)];
        if !world.applies {
          failures := failures + [Failure(ApplyPhase, target)];
        }
      }
      assert targets[..|targets|] == targets && worlds[..|worlds|] == worlds;
    }
  }

  lemma FoldNothing(states: States)
    ensures FoldAll(states, []) == states && HandedOver(states, []) == []
  {
  }

  // ---------- Overlapping ticks ----------

  // A tick between its awaits: waiting for the probe of a target, or for its apply.
  datatype Progress = Progress(targets: seq<string>, pos: nat, applying: bool)

  datatype Sys = Sys(states: States, ticks: map<nat, Progress>, log: seq<Outcome>, applied: seq<Applied>)

  datatype Step =
    | StartTick(t: nat, targets: seq<string>)
    | ProbeAnswers(t: nat, passed: bool)
    | ProbeFails(t: nat)
    | ApplyEnds(t: nat)

  predicate Probing(s: Sys, t: nat) {
    t in s.ticks && s.ticks[t].pos < |s.ticks[t].targets| && !s.ticks[t].applying
  }

  function Moved(s: Sys, t: nat): Sys
    requires t in s.ticks
  {
    s.(ticks := s.ticks[t := s.ticks[t].(pos := s.ticks[t].pos + 1, applying := false)])
  }

  // Reading, reducing and storing the state happen in one step: there is no await between them.
  function Next(s: Sys, step: Step): Sys {
    match step
    case StartTick(t, targets) =>
      if t in s.ticks then s else s.(ticks := s.ticks[t := Progress(targets, 0, false)])
    case ProbeAnswers(t, passed) =>
      if !Probing(s, t) then s
      else
        var o := Outcome(s.ticks[t].targets[s.ticks[t].pos], passed);
        Sys(Reduced(s.states, o), s.ticks[t := s.ticks[t].(applying := true)], s.log + [o],
            s.applied + [Applied(o.resourceId, passed, TransitionOf(s.states, o))])
    case ProbeFails(t) => if Probing(s, t) then Moved(s, t) else s
    case ApplyEnds(t) => if t in s.ticks && s.ticks[t].applying then Moved(s, t) else s
  }

  function Run(steps: seq<Step>): Sys {
    if steps == [] then Sys(map[], map[], [], []) else Next(Run(steps[..|steps| - 1]), steps[|steps| - 1])
  }

  // The steps of a tick that nothing overlaps.
  function Alone(t: nat, targets: seq<string>, worlds: seq<World>): seq<Step>
    requires |targets| == |worlds|
  {
    if targets == [] then []
    else
      var n := |targets| - 1;
      Alone(t, targets[..n], worlds[..n])
        + if worlds[n].probe.None? then [ProbeFails(t)] else [ProbeAnswers(t, worlds[n].probe.value), ApplyEnds(t)]
  }

  lemma Snoc(steps: seq<Step>, step: Step)
    ensures Run(steps + [step]) == Next(Run(steps), step)
  {
    assert (steps + [step])[..|steps|] == steps;
  }

  lemma {:induction false} AloneLogs(steps: seq<Step>, t: nat, targets: seq<string>, worlds: seq<World>, all: seq<string>)
    requires |targets| == |worlds| && targets <= all
    requires var s := Run(steps); t in s.ticks && s.ticks[t] == Progress(all, 0, false)
    ensures var s, r := Run(steps), Run(steps + Alone(t, targets, worlds));
            r.log == s.log + Outcomes(targets, worlds) && t in r.ticks && r.ticks[t] == Progress(all, |targets|, false)
  {
    hide Run, ReduceStrike, TransitionOf;
    if targets == [] {
      assert steps + [] == steps;
      assert Outcomes([], []) == [];
    } else {
      var n := |targets| - 1;
      AloneLogs(steps, t, targets[..n], worlds[..n], all);
      var front := steps + Alone(t, targets[..n], worlds[..n]);
      if worlds[n].probe.None? {
        Snoc(front, ProbeFails(t));
        assert steps + Alone(t, targets, worlds) == front + [ProbeFails(t)];
      } else {
        var answers := ProbeAnswers(t, worlds[n].probe.value);
        Snoc(front, answers);
        Snoc(front + [answers], ApplyEnds(t));
        assert steps + Alone(t, targets, worlds) == front + [answers] + [ApplyEnds(t)];
      }
    }
  }

  // In every run, a new tick that nothing overlaps probes each of its targets and adds what one call
  // of the loop would fold.
  lemma TickCompletes(steps: seq<Step>, t: nat, targets: seq<string>, worlds: seq<World>)
    requires |targets| == |worlds| && t !in Run(steps).ticks
    ensures Run(steps + [StartTick(t, targets)] + Alone(t, targets, worlds)).log
         == Run(steps).log + Outcomes(targets, worlds)
  {
    hide Run;
    Snoc(steps, StartTick(t, targets));
    AloneLogs(steps + [StartTick(t, targets)], t, targets, worlds, targets);
  }

  lemma {:induction false} RunFolds(steps: seq<Step>)
    ensures var s := Run(steps); s.states == FoldAll(map[], s.log) && s.applied == HandedOver(map[], s.log)
  {
    hide ReduceStrike, FoldAll, HandedOver;
    FoldNothing(map[]);
    if steps != [] {
      var s, step := Run(steps[..|steps| - 1]), steps[|steps| - 1];
      RunFolds(steps[..|steps| - 1]);
      if step.ProbeAnswers? && Probing(s, step.t) {
        FoldSnoc(map[], s.log, Outcome(s.ticks[step.t].targets[s.ticks[step.t].pos], step.passed));
      }
    }
  }

  // However ticks overlap, each stored state is the fold of its own resource's outcomes in
  // completion order: no update is lost, and no failure touches a state.
  lemma {:induction false} OverlapLosesNothing(steps: seq<Step>, r: string)
    ensures GetState(Run(steps).states, r) == Fold(HistoryOf(Run(steps).log, r), r)
  {
    RunFolds(steps);
    FoldAllFolds(map[], [], Run(steps).log);
    assert [] + Run(steps).log == Run(steps).log;
  }

  lemma {:induction false} HistoryPrefix(log: seq<Outcome>, r: string, i: nat)
    requires i <= |log|
    ensures |HistoryOf(log[..i], r)| <= |HistoryOf(log, r)|
    ensures HistoryOf(log[..i], r) == HistoryOf(log, r)[..|HistoryOf(log[..i], r)|]
  {
    if i == |log| {
      assert log[..i] == log;
    } else {
      HistoryPrefix(log[..|log| - 1], r, i);
      assert log[..|log| - 1][..i] == log[..i];
    }
  }

  // The i-th hand-over carries what the reducer reports at that probe of its resource's history.
  lemma {:induction false} HandOverReported(log: seq<Outcome>, i: nat)
    requires i < |log|
    ensures var r := log[i].resourceId;
            var k := |HistoryOf(log[..i], r)|;
            && k < |HistoryOf(log, r)|
            && HandedOver(map[], log)[i] == Applied(r, log[i].passed, Reported(HistoryOf(log, r), r, k))
  {
    hide ReduceStrike;
    var n := |log| - 1;
    var front, o := log[..n], log[n];
    assert log == front + [o];
    if i == n {
      FoldAllFolds(map[], [], front);
      assert [] + front == front;
    } else {
      HandOverReported(front, i);
      assert front[..i] == log[..i];
      var r := log[i].resourceId;
      ReportedOfLonger(HistoryOf(front, r), HistoryOf(log, r), r, |HistoryOf(log[..i], r)|);
    }
  }

  lemma ReportedOfLonger(h: History, longer: History, r: string, k: nat)
    requires k < |h| <= |longer| && h == longer[..|h|]
    ensures Reported(h, r, k) == Reported(longer, r, k)
  {
    assert h[..k] == longer[..k];
  }

  lemma LaterHistory(log: seq<Outcome>, i: nat, j: nat)
    requires i < j <= |log|
    ensures |HistoryOf(log[..i], log[i].resourceId)| < |HistoryOf(log[..j], log[i].resourceId)|
  {
    var r := log[i].resourceId;
    assert log[..i + 1] == log[..i] + [log[i]];
    HistoryPrefix(log[..j], r, i + 1);
    assert log[..j][..i + 1] == log[..i + 1];
  }

  // Under any interleaving a resource's deactivation is handed over at most once.
  lemma DeactivationHandedOverOnce(steps: seq<Step>, i: nat, j: nat)
    requires var a := Run(steps).applied;
             i < j < |a| && a[i].resourceId == a[j].resourceId && a[i].transition.deactivated
    ensures !Run(steps).applied[j].transition.deactivated
  {
    hide Reported, HandedOver;
    RunFolds(steps);
    var log := Run(steps).log;
    HandOverReported(log, i);
    HandOverReported(log, j);
    var r := log[i].resourceId;
    LaterHistory(log, i, j);
    if Run(steps).applied[j].transition.deactivated {
      DeactivatedOnce(HistoryOf(log, r), r, |HistoryOf(log[..i], r)|, |HistoryOf(log[..j], r)|);
    }
  }

  // A handed-over deactivation is backed by five failures in a row.
  lemma DeactivationHasFive(steps: seq<Step>, i: nat)
    requires i < |Run(steps).applied| && Run(steps).applied[i].transition.deactivated
    ensures var a := Run(steps).applied[i];
            && a.transition.review.Some? && a.transition.review.value.resourceId == a.resourceId
            && a.transition.review.value.consecutiveFailures == STRIKE_LIMIT
            && HasFive(HistoryOf(Run(steps).log, a.resourceId))
  {
    hide Reported, HandedOver, HasFive;
    RunFolds(steps);
    var log := Run(steps).log;
    HandOverReported(log, i);
    var r := log[i].resourceId;
    var h, k := HistoryOf(log, r), |HistoryOf(log[..i], r)|;
    DeactivationCharacterised(h, r, k);
    FiveStays(h, k + 1, |h|);
    assert h[..|h|] == h;
  }

  // A review is only ever handed over with a deactivation.
  lemma ReviewHasFive(steps: seq<Step>, i: nat)
    requires i < |Run(steps).applied| && Run(steps).applied[i].transition.review.Some?
    ensures var a := Run(steps).applied[i];
            a.transition.deactivated && HasFive(HistoryOf(Run(steps).log, a.transition.review.value.resourceId))
  {
    hide Reported, HandedOver, HasFive;
    RunFolds(steps);
    var log := Run(steps).log;
    HandOverReported(log, i);
    var r := log[i].resourceId;
    DeactivationCharacterised(HistoryOf(log, r), r, |HistoryOf(log[..i], r)|);
    DeactivationHasFive(steps, i);
  }
}
