// Gates and facilitator together (packages/x402-arc/src/gate.ts over services/facilitator/src/app.ts):
// any number of requests, any replay of a header, any interleaving; a gate may stop listening while
// the facilitator goes on.
module Escrow {
  import opened Prelude
  import opened PaymentStore
  import opened Facilitator
  import Receipts
  import Races
  import Gate
  import Metering

  // The gate of each resource has its own price and error policy.
  type Configs = string -> Gate.Config

  // One request at the gate of a resource; its calls to the facilitator carry its number.
  datatype Session = Session(nonce: Nonce, resource: string, pc: Gate.Pc, ran: Option<Gate.Outcome>)

  datatype Gates = Gates(fac: Facilitator.Sys, sessions: map<nat, Session>)

  const NO_GATES: Gates := Gates(START, map[])

  datatype GateStep =
    | Open(i: nat, nonce: Nonce, resource: string)
    | CallVerify(i: nat, ttl: nat)
    | HearVerify(i: nat)
    | LoseVerify(i: nat)
    | RunHandler(i: nat, outcome: Gate.Outcome)
    | CallSettle(i: nat)
    | HearSettle(i: nat)
    | LoseSettle(i: nat)
    | CallRelease(i: nat, applied: bool, lost: bool)
    | Facility(step: Step)

  // What the facilitator and the chain do by themselves: everything but begin a request.
  predicate Internal(step: Step) { !step.StartVerify? && !step.StartSettle? && !step.Release? }

  function Told(cfgs: Configs, book: Book, x: Session, answer: Gate.Answer): Session {
    x.(pc := Gate.Advance(cfgs(x.resource), Terms(book, x.nonce).cap, x.pc, answer))
  }

  // What a request becomes at a step of its own.
  function SessionNext(cfgs: Configs, book: Book, fac: Facilitator.Sys, x: Session, step: GateStep): Session {
    match step
    case HearVerify(i) =>
      if x.pc.AwaitVerify? && i in fac.verifies && (fac.verifies[i].stage == Reserved || fac.verifies[i].stage == Refused)
      then Told(cfgs, book, x, Gate.Verified(fac.verifies[i].stage == Reserved)) else x
    case LoseVerify(_) => if x.pc.AwaitVerify? then Told(cfgs, book, x, Gate.Lost) else x
    case RunHandler(_, outcome) =>
      if x.pc.AwaitHandler? then Told(cfgs, book, x, Gate.Handled(outcome)).(ran := Some(outcome)) else x
    case HearSettle(i) =>
      if x.pc.AwaitSettle? && i in fac.settles && fac.settles[i].stage.Answered?
      then Told(cfgs, book, x, Gate.Settled(AmountOf(fac.settles[i].stage.answer))) else x
    case LoseSettle(_) => if x.pc.AwaitSettle? then Told(cfgs, book, x, Gate.Lost) else x
    case CallRelease(_, applied, lost) =>
      if x.pc.AwaitRelease? && (applied || lost)
      then Told(cfgs, book, x, if lost then Gate.Lost else Gate.Released) else x
    case _ => x
  }

  function AmountOf(answer: Option<Receipt>): Option<nat> {
    if answer.Some? then Some(answer.value.amount) else None
  }

  // The call a step makes to the facilitator.
  function CallOf(s: Gates, step: GateStep): Option<Step> {
    if step.Facility? then if Internal(step.step) then Some(step.step) else None
    else if step.i !in s.sessions then None
    else
      var x := s.sessions[step.i];
      match step
      case CallVerify(i, ttl) => if x.pc.AwaitVerify? then Some(StartVerify(i, x.nonce, x.resource, ttl)) else None
      case CallSettle(i) => if x.pc.AwaitSettle? then Some(StartSettle(i, x.nonce, x.pc.amount)) else None
      case CallRelease(_, applied, lost) => if x.pc.AwaitRelease? && applied then Some(Release(x.nonce)) else None
      case _ => None
  }

  ghost function FacNext(book: Book, fac: Facilitator.Sys, call: Option<Step>): Facilitator.Sys {
    if call.Some? then Facilitator.Next(book, fac, call.value) else fac
  }

  function SessionsNext(cfgs: Configs, book: Book, s: Gates, step: GateStep): map<nat, Session> {
    match step
    case Facility(_) => s.sessions
    case Open(i, n, resource) =>
      if i in s.sessions then s.sessions else s.sessions[i := Session(n, resource, Gate.AwaitVerify, None)]
    case _ =>
      if step.i in s.sessions
      then s.sessions[step.i := SessionNext(cfgs, book, s.fac, s.sessions[step.i], step)] else s.sessions
  }

  ghost function GatesNext(cfgs: Configs, book: Book, s: Gates, step: GateStep): Gates {
    Gates(FacNext(book, s.fac, CallOf(s, step)), SessionsNext(cfgs, book, s, step))
  }

  ghost function GatesRun(cfgs: Configs, book: Book, steps: seq<GateStep>): Gates {
    if steps == [] then NO_GATES
    else GatesNext(cfgs, book, GatesRun(cfgs, book, steps[..|steps| - 1]), steps[|steps| - 1])
  }

  // The facilitator's side of a run is a run of the facilitator.
  lemma {:induction false} FacilitatorRuns(cfgs: Configs, book: Book, steps: seq<GateStep>) returns (calls: seq<Step>)
    ensures Run(book, calls) == GatesRun(cfgs, book, steps).fac
  {
    hide Facilitator.Next, CallOf, SessionsNext;
    calls := [];
    if steps != [] {
      calls := FacilitatorRuns(cfgs, book, steps[..|steps| - 1]);
      var call := CallOf(GatesRun(cfgs, book, steps[..|steps| - 1]), steps[|steps| - 1]);
      if call.Some? {
        Races.Take(book, START, calls, call.value);
        calls := calls + [call.value];
      }
    }
  }

  // ---------- The invariant of every run ----------

  // The request's handler came out so that its gate settles exactly this amount.
  predicate Asks(cfgs: Configs, book: Book, x: Session, amount: int) {
    x.ran.Some? && Gate.AfterHandler(cfgs(x.resource), Terms(book, x.nonce).cap, x.ran.value) == Gate.AwaitSettle(amount)
  }

  // The request holds, or held, a reservation it obtained itself.
  predicate HasReserved(fac: Facilitator.Sys, i: nat) {
    i in fac.verifies && fac.verifies[i].stage == Reserved
  }

  ghost predicate PcOk(cfgs: Configs, book: Book, fac: Facilitator.Sys, i: nat, x: Session) {
    && (x.pc.AwaitVerify? || x.pc.AwaitHandler? ==> x.ran.None?)
    && (x.pc.AwaitHandler? || x.ran.Some? ==> HasReserved(fac, i))
    && (x.pc.AwaitSettle? ==> Asks(cfgs, book, x, x.pc.amount))
    && (x.pc.AwaitRelease? ==> x.ran.Some? && !Gate.GotReceipt(x.pc.answer))
    && (x.pc.Ended? && Gate.GotReceipt(x.pc.response) ==>
          x.ran.Some? && i in fac.settles && fac.settles[i].stage.Answered?
          && AmountOf(fac.settles[i].stage.answer) == x.pc.response.receipt)
  }

  // The facilitator's requests are the gates' own.
  ghost predicate JobsOk(cfgs: Configs, book: Book, fac: Facilitator.Sys, i: nat, x: Session) {
    && (i in fac.verifies ==>
          && fac.verifies[i].nonce == x.nonce
          && (fac.verifies[i].stage != Refused ==> Lower(Terms(book, x.nonce).resourceId) == Lower(x.resource)))
    && (i in fac.settles ==> fac.settles[i].nonce == x.nonce && Asks(cfgs, book, x, fac.settles[i].amount))
  }

  ghost predicate GatesOk(cfgs: Configs, book: Book, s: Gates) {
    && (forall i | i in s.sessions :: PcOk(cfgs, book, s.fac, i, s.sessions[i]) && JobsOk(cfgs, book, s.fac, i, s.sessions[i]))
    && (forall i | i in s.fac.settles :: i in s.sessions)
    && (forall i | i in s.fac.verifies :: i in s.sessions)
  }

  // Requests at the facilitator only come to their ends; new ones are begun by a call.
  ghost predicate JobsGo(fac: Facilitator.Sys, f: Facilitator.Sys) {
    && (forall i | i in fac.verifies ::
          && i in f.verifies && f.verifies[i].nonce == fac.verifies[i].nonce
          && (fac.verifies[i].stage == Reserved ==> f.verifies[i].stage == Reserved)
          && (fac.verifies[i].stage == Refused ==> f.verifies[i].stage == Refused))
    && (forall i | i in fac.settles ::
          && i in f.settles && f.settles[i].nonce == fac.settles[i].nonce && f.settles[i].amount == fac.settles[i].amount
          && (fac.settles[i].stage.Answered? ==> f.settles[i] == fac.settles[i]))
  }

  lemma FacJobsGo(book: Book, fac: Facilitator.Sys, step: Step)
    ensures JobsGo(fac, Facilitator.Next(book, fac, step))
    ensures NewJobs(fac, Facilitator.Next(book, fac, step), step)
  {
    hide VerifyNext, SettleNext, Mined, Expired, Fresh, Forget, Funded;
    match step
    case OnVerify(j) => {
      if j in fac.verifies {
        hide JobsGo, NewJobs;
        VerifyEnds(book, fac, fac.verifies[j]);
        var (store, stage) := VerifyNext(book, fac, fac.verifies[j]);
        VerifyGoes(fac, j, store, stage, step);
      }
    }
    case OnSettle(k) => {
      if k in fac.settles {
        hide JobsGo, NewJobs;
        SettleSends(book, fac, fac.settles[k]);
        SettleGoes(fac, k, SettleNext(book, fac, fac.settles[k]), step);
      }
    }
    case VerifyFails(j) => {
      if j in fac.verifies && !fac.verifies[j].stage.Reserved? {
        hide JobsGo, NewJobs;
        VerifyGoes(fac, j, fac.store, Refused, step);
      }
    }
    case SettleFails(k) => {
      if k in fac.settles && !fac.settles[k].stage.Answered? {
        hide JobsGo, NewJobs;
        SettleGoes(fac, k, Moves(fac, Answered(None)), step);
      }
    }
    case _ =>
  }

  // New requests are begun by the call that begins them.
  ghost predicate NewJobs(fac: Facilitator.Sys, f: Facilitator.Sys, step: Step) {
    && (forall i | i in f.verifies && i !in fac.verifies :: step.StartVerify? && step.j == i)
    && (forall i | i in f.settles && i !in fac.settles :: step.StartSettle? && step.k == i)
  }

  lemma VerifyGoes(fac: Facilitator.Sys, j: nat, store: Store, stage: VerifyStage, step: Step)
    requires j in fac.verifies
    requires fac.verifies[j].stage == Reserved ==> stage == Reserved
    requires fac.verifies[j].stage == Refused ==> stage == Refused
    ensures JobsGo(fac, Verified(fac, j, store, stage)) && NewJobs(fac, Verified(fac, j, store, stage), step)
  {
  }

  lemma SettleGoes(fac: Facilitator.Sys, k: nat, e: Effect, step: Step)
    requires k in fac.settles && (fac.settles[k].stage.Answered? ==> e.stage == fac.settles[k].stage)
    ensures JobsGo(fac, Settled(fac, k, e)) && NewJobs(fac, Settled(fac, k, e), step)
  {
  }

  lemma VerifyEnds(book: Book, s: Facilitator.Sys, x: Verify)
    ensures x.stage == Reserved || x.stage == Refused ==> VerifyNext(book, s, x).1 == x.stage
  {
  }

  lemma SessionStands(cfgs: Configs, book: Book, fac: Facilitator.Sys, f: Facilitator.Sys, i: nat, x: Session)
    requires PcOk(cfgs, book, fac, i, x) && JobsOk(cfgs, book, fac, i, x) && JobsGo(fac, f)
    requires (i in f.verifies ==> i in fac.verifies) && (i in f.settles ==> i in fac.settles)
    ensures PcOk(cfgs, book, f, i, x) && JobsOk(cfgs, book, f, i, x)
  {
    hide Asks, Lower;
  }

  // A step of its own keeps a request in order.
  lemma SessionMoves(cfgs: Configs, book: Book, fac: Facilitator.Sys, i: nat, x: Session, step: GateStep)
    requires PcOk(cfgs, book, fac, i, x) && JobsOk(cfgs, book, fac, i, x)
    requires !step.Facility? && !step.Open? && step.i == i
    ensures var y := SessionNext(cfgs, book, fac, x, step);
            && PcOk(cfgs, book, fac, i, y) && JobsOk(cfgs, book, fac, i, y)
            && y.nonce == x.nonce && y.resource == x.resource
  {
    hide Metering.ComputeMeteredAmount, Lower;
  }

  // ---------- Every step keeps it ----------

  lemma CallKeeps(cfgs: Configs, book: Book, s: Gates, step: GateStep)
    requires GatesOk(cfgs, book, s)
    requires step.CallVerify? || step.CallSettle?
    ensures GatesOk(cfgs, book, GatesNext(cfgs, book, s, step))
  {
    hide PcOk, JobsOk, JobsGo, Asks, Facilitator.Next;
    var t, call := GatesNext(cfgs, book, s, step), CallOf(s, step);
    if step.i in s.sessions {
      assert t.sessions == s.sessions;
      if call.Some? {
        FacJobsGo(book, s.fac, call.value);
        forall i | i in t.sessions
          ensures PcOk(cfgs, book, t.fac, i, t.sessions[i]) && JobsOk(cfgs, book, t.fac, i, t.sessions[i])
        {
          if i == step.i {
            BeginsOk(cfgs, book, s, step);
          } else {
            SessionStands(cfgs, book, s.fac, t.fac, i, s.sessions[i]);
          }
        }
      }
    }
  }

  // A request that begins at the facilitator is its gate's.
  lemma BeginsOk(cfgs: Configs, book: Book, s: Gates, step: GateStep)
    requires GatesOk(cfgs, book, s) && (step.CallVerify? || step.CallSettle?) && CallOf(s, step).Some?
    ensures var f := Facilitator.Next(book, s.fac, CallOf(s, step).value); var x := s.sessions[step.i];
            PcOk(cfgs, book, f, step.i, x) && JobsOk(cfgs, book, f, step.i, x)
  {
    hide Asks, Lower;
    var x := s.sessions[step.i];
    assert PcOk(cfgs, book, s.fac, step.i, x) && JobsOk(cfgs, book, s.fac, step.i, x);
  }

  lemma InternalKeeps(cfgs: Configs, book: Book, s: Gates, f: Facilitator.Sys)
    requires GatesOk(cfgs, book, s) && JobsGo(s.fac, f)
    requires forall i | i in f.verifies :: i in s.fac.verifies
    requires forall i | i in f.settles :: i in s.fac.settles
    ensures GatesOk(cfgs, book, Gates(f, s.sessions))
  {
    hide PcOk, JobsOk, JobsGo;
    forall i | i in s.sessions
      ensures PcOk(cfgs, book, f, i, s.sessions[i]) && JobsOk(cfgs, book, f, i, s.sessions[i])
    {
      SessionStands(cfgs, book, s.fac, f, i, s.sessions[i]);
    }
  }

  lemma MoveKeeps(cfgs: Configs, book: Book, s: Gates, step: GateStep)
    requires GatesOk(cfgs, book, s) && !step.Facility? && !step.Open? && step.i in s.sessions
    ensures GatesOk(cfgs, book, Gates(s.fac, SessionsNext(cfgs, book, s, step)))
  {
    hide PcOk, JobsOk, SessionNext;
    SessionMoves(cfgs, book, s.fac, step.i, s.sessions[step.i], step);
  }

  lemma NextKeepsGates(cfgs: Configs, book: Book, s: Gates, step: GateStep)
    requires GatesOk(cfgs, book, s)
    ensures GatesOk(cfgs, book, GatesNext(cfgs, book, s, step))
  {
    hide PcOk, JobsOk, JobsGo, SessionNext, Facilitator.Next;
    if step.CallVerify? || step.CallSettle? {
      CallKeeps(cfgs, book, s, step);
    } else if step.Open? {
      OpenKeeps(cfgs, book, s, step);
    } else {
      var call := CallOf(s, step);
      var f := FacNext(book, s.fac, call);
      if call.Some? {
        FacJobsGo(book, s.fac, call.value);
      } else {
        JobsStand(s.fac);
      }
      InternalKeeps(cfgs, book, s, f);
      if !step.Facility? && step.i in s.sessions {
        SameSession(cfgs, book, s, f, step);
        MoveKeeps(cfgs, book, Gates(f, s.sessions), step);
      }
    }
  }

  lemma JobsStand(fac: Facilitator.Sys)
    ensures JobsGo(fac, fac)
  {
  }

  // What a request hears does not change with the release it asks for.
  lemma SameSession(cfgs: Configs, book: Book, s: Gates, f: Facilitator.Sys, step: GateStep)
    requires !step.Facility? && !step.Open? && !step.CallVerify? && !step.CallSettle? && step.i in s.sessions
    requires f == FacNext(book, s.fac, CallOf(s, step))
    ensures SessionsNext(cfgs, book, Gates(f, s.sessions), step) == SessionsNext(cfgs, book, s, step)
  {
  }

  lemma OpenKeeps(cfgs: Configs, book: Book, s: Gates, step: GateStep)
    requires GatesOk(cfgs, book, s) && step.Open?
    ensures GatesOk(cfgs, book, GatesNext(cfgs, book, s, step))
  {
    hide Asks, Lower;
    if step.i !in s.sessions {
      assert step.i !in s.fac.verifies && step.i !in s.fac.settles;
    }
  }

  lemma {:induction false} RunGatesOk(cfgs: Configs, book: Book, steps: seq<GateStep>)
    ensures GatesOk(cfgs, book, GatesRun(cfgs, book, steps))
  {
    if steps != [] {
      hide GatesOk, GatesNext;
      RunGatesOk(cfgs, book, steps[..|steps| - 1]);
      NextKeepsGates(cfgs, book, GatesRun(cfgs, book, steps[..|steps| - 1]), steps[|steps| - 1]);
    }
  }

  // ---------- Main results ----------

  // A handler runs only on a reservation its own request obtained, at a gate of the resource the
  // authorization names; a receipt the request ends with is the answer of its own settle, and states
  // the debit of its nonce unless the transaction behind it reverted.
  lemma ReceiptsAndReservations(cfgs: Configs, book: Book, steps: seq<GateStep>, i: nat)
    requires i in GatesRun(cfgs, book, steps).sessions
    ensures var s := GatesRun(cfgs, book, steps);
            var x := s.sessions[i];
            && (x.ran.Some? ==>
                  HasReserved(s.fac, i) && s.fac.verifies[i].nonce == x.nonce
                  && Lower(Terms(book, x.nonce).resourceId) == Lower(x.resource))
            && (x.pc.Ended? && Gate.GotReceipt(x.pc.response) ==>
                  && x.ran.Some? && i in s.fac.settles && s.fac.settles[i].nonce == x.nonce
                  && s.fac.settles[i].stage.Answered? && s.fac.settles[i].stage.answer.Some?
                  && x.pc.response.receipt.value == s.fac.settles[i].stage.answer.value.amount
                  && (Truthful(s.fac.chain, s.fac.settles[i].stage.answer.value) ==>
                        Signed(x.nonce) in s.fac.chain.debited
                        && s.fac.chain.debited[Signed(x.nonce)] == x.pc.response.receipt.value))
  {
    hide Run, Asks, Lower, GatesRun;
    RunGatesOk(cfgs, book, steps);
    var s := GatesRun(cfgs, book, steps);
    var x := s.sessions[i];
    assert PcOk(cfgs, book, s.fac, i, x) && JobsOk(cfgs, book, s.fac, i, x);
    if x.pc.Ended? && Gate.GotReceipt(x.pc.response) && Truthful(s.fac.chain, s.fac.settles[i].stage.answer.value) {
      var calls := FacilitatorRuns(cfgs, book, steps);
      Receipts.SucceededIsTrue(book, calls, i);
    }
  }

  // Rebuilt from the event, or of a transaction that succeeded.
  predicate Truthful(c: Chain, r: Receipt) {
    r.tx.Some? ==> r.tx.value < |c.txs| && c.txs[r.tx.value].outcome == Some(true)
  }

  // However requests interleave and replay, what a nonce was debited is exactly what the outcome of a
  // handler run on that nonce owes, by the price of a gate of the resource the authorization names.
  lemma DebitIsTheCharge(cfgs: Configs, book: Book, steps: seq<GateStep>, n: Nonce)
    requires n in GatesRun(cfgs, book, steps).fac.chain.debited
    ensures var s := GatesRun(cfgs, book, steps);
            exists i :: i in s.sessions && Charged(cfgs, book, s.sessions[i], n, s.fac.chain.debited[n])
  {
    hide Run, GatesRun, Lower, Gate.IsDue, Gate.AfterHandler;
    RunGatesOk(cfgs, book, steps);
    var s := GatesRun(cfgs, book, steps);
    var calls := FacilitatorRuns(cfgs, book, steps);
    assert calls + [] == calls;
    DebitedOnceWithinCap(book, calls, [], n);
    var i :| i in s.fac.settles && Signed(s.fac.settles[i].nonce) == n && s.fac.settles[i].amount >= 0
             && DebitOf(book, s.fac.settles[i]) == s.fac.chain.debited[n];
    var x := s.sessions[i];
    assert PcOk(cfgs, book, s.fac, i, x) && JobsOk(cfgs, book, s.fac, i, x);
    var cfg, outcome := cfgs(x.resource), x.ran.value;
    Gate.AmountWithinCap(cfg, book(n).cap, outcome);
    Gate.SettleMeansOwed(cfg, book(n).cap, outcome);
    Gate.DueAmount(cfg, book(n).cap, outcome);
  }

  ghost predicate Charged(cfgs: Configs, book: Book, x: Session, n: Nonce, amount: nat) {
    && Signed(x.nonce) == n && x.ran.Some?
    && Lower(book(n).resourceId) == Lower(x.resource)
    && Gate.Owes(cfgs(x.resource), x.ran.value)
    && Gate.IsDue(cfgs(x.resource), book(n).cap, x.ran.value, amount)
  }

  // ---------- Handlers on a used nonce ----------

  lemma AfterSelf(s: Facilitator.Sys, n: Nonce)
    requires Signed(n) in s.chain.debited
    ensures Races.After(s, s, n)
  {
  }

  lemma {:induction false} GatesAfter(cfgs: Configs, book: Book, before: seq<GateStep>, after: seq<GateStep>, n: Nonce)
    requires Signed(n) in GatesRun(cfgs, book, before).fac.chain.debited
    ensures Races.After(GatesRun(cfgs, book, before).fac, GatesRun(cfgs, book, before + after).fac, n)
  {
    hide CallOf, SessionsNext, Races.After, Facilitator.Next;
    if after == [] {
      assert before + after == before;
      AfterSelf(GatesRun(cfgs, book, before).fac, n);
    } else {
      var front, step := after[..|after| - 1], after[|after| - 1];
      GatesAfter(cfgs, book, before, front, n);
      assert (before + after)[..|before + after| - 1] == before + front;
      var s, t := GatesRun(cfgs, book, before), GatesRun(cfgs, book, before + front);
      if CallOf(t, step).Some? {
        Races.NextAfter(book, s.fac, t.fac, CallOf(t, step).value, n);
      }
    }
  }

  // Once a nonce was debited, and it is marked spent or no verify that read it unused is still on its
  // way, no request obtains another reservation on it: a handler that runs on it later runs on one
  // obtained before.
  lemma UsedNonceServesNoMore(cfgs: Configs, book: Book, before: seq<GateStep>, after: seq<GateStep>, i: nat)
    requires var s, t := GatesRun(cfgs, book, before), GatesRun(cfgs, book, before + after);
             && i in t.sessions && t.sessions[i].ran.Some?
             && var n := t.sessions[i].nonce;
                Signed(n) in s.fac.chain.debited && (n in s.fac.store.spent || !Races.ReadUnused(s.fac, n))
    ensures HasReserved(GatesRun(cfgs, book, before).fac, i)
  {
    hide GatesRun, Races.ReadUnused;
    var n := GatesRun(cfgs, book, before + after).sessions[i].nonce;
    GatesAfter(cfgs, book, before, after, n);
    ReceiptsAndReservations(cfgs, book, before + after, i);
  }

  // ---------- A handler that runs on a used nonce ----------

  lemma GatesTake(cfgs: Configs, book: Book, steps: seq<GateStep>, step: GateStep)
    ensures GatesRun(cfgs, book, steps + [step]) == GatesNext(cfgs, book, GatesRun(cfgs, book, steps), step)
  {
    assert (steps + [step])[..|steps|] == steps;
  }

  // The facilitator goes on by itself.
  lemma {:induction false} GoesOn(cfgs: Configs, book: Book, steps: seq<GateStep>, calls: seq<Step>) returns (more: seq<GateStep>)
    requires forall k | 0 <= k < |calls| :: Internal(calls[k])
    ensures var s := GatesRun(cfgs, book, steps);
            GatesRun(cfgs, book, more) == s.(fac := RunFrom(book, s.fac, calls))
  {
    hide GatesRun, Facilitator.Next;
    if calls == [] {
      more := steps;
    } else {
      var front := calls[..|calls| - 1];
      more := GoesOn(cfgs, book, steps, front);
      GatesTake(cfgs, book, more, Facility(calls[|calls| - 1]));
      more := more + [Facility(calls[|calls| - 1])];
    }
  }

  // Every call costs the whole cap.
  function RaceConfigs(cap: nat): Configs {
    r => Gate.Config(Gate.Free, Metering.Pricing(Some(cap), Some(0), Some(0), None, None))
  }

  const SERVED: Gate.Outcome := Gate.Finished(Gate.Success, 0, 0)

  lemma CostsAll(cap: nat)
    ensures Gate.AfterHandler(RaceConfigs(cap)("r"), cap, SERVED) == Gate.AwaitSettle(cap)
  {
  }

  function FirstAt(pc: Gate.Pc): map<nat, Session> { map[0 := Session("n", "r", pc, Some(SERVED))] }

  // The first request is served, and its settle asked for.
  lemma FirstServed(cap: nat) returns (steps: seq<GateStep>)
    ensures GatesRun(RaceConfigs(cap), Races.RaceBook(cap), steps)
         == Gates(Races.ToSettle(cap), FirstAt(Gate.AwaitSettle(cap)))
  {
    hide GatesRun, RunFrom;
    var cfgs, book := RaceConfigs(cap), Races.RaceBook(cap);
    Races.RaceAccount(cap, "n");
    CostsAll(cap);
    steps := FirstReserved(cap);
    GatesTake(cfgs, book, steps, HearVerify(0));
    steps := steps + [HearVerify(0)];
    GatesTake(cfgs, book, steps, RunHandler(0, SERVED));
    steps := steps + [RunHandler(0, SERVED)];
    GatesTake(cfgs, book, steps, CallSettle(0));
    steps := steps + [CallSettle(0)];
  }

  lemma FirstReserved(cap: nat) returns (steps: seq<GateStep>)
    ensures GatesRun(RaceConfigs(cap), Races.RaceBook(cap), steps)
         == Gates(Races.ToSettle(cap).(settles := map[]), map[0 := Session("n", "r", Gate.AwaitVerify, None)])
  {
    hide GatesRun, RunFrom;
    var cfgs, book := RaceConfigs(cap), Races.RaceBook(cap);
    Races.RaceAccount(cap, "n");
    NoGatesYet(cfgs, book);
    steps := [];
    GatesTake(cfgs, book, steps, Facility(Deposit("b", cap)));
    steps := steps + [Facility(Deposit("b", cap))];
    GatesTake(cfgs, book, steps, Open(0, "n", "r"));
    steps := steps + [Open(0, "n", "r")];
    GatesTake(cfgs, book, steps, CallVerify(0, 50));
    steps := steps + [CallVerify(0, 50)];
    var s := GatesRun(cfgs, book, steps).fac;
    Races.NothingOpen(PaymentStore.EMPTY, "b", 0);
    assert !Locked(book, s, "b");
    var calls := Races.Reads(book, s, 0);
    Races.TakeReserve(book, s, calls, 0);
    steps := GoesOn(cfgs, book, steps, calls + [OnVerify(0)]);
  }

  lemma NoGatesYet(cfgs: Configs, book: Book)
    ensures GatesRun(cfgs, book, []) == NO_GATES
  {
  }

  // A request that nothing disturbs is served with a receipt of what its nonce was debited.
  lemma ServedInFull(cap: nat) returns (steps: seq<GateStep>)
    ensures var s := GatesRun(RaceConfigs(cap), Races.RaceBook(cap), steps);
            && s.sessions == FirstAt(Gate.Ended(Gate.Served(Some(cap))))
            && s.fac.chain.debited == map["n" := cap] && Balance(s.fac.chain, "b") == 0
  {
    hide GatesRun, RunFrom;
    var cfgs, book := RaceConfigs(cap), Races.RaceBook(cap);
    steps := FirstServed(cap);
    var calls := Races.Answers(cap);
    steps := GoesOn(cfgs, book, steps, calls);
    GatesTake(cfgs, book, steps, HearSettle(0));
    steps := steps + [HearSettle(0)];
  }

  // What a request makes of what it hears: a reservation runs the handler, a refusal is the challenge;
  // a receipt is served, a settle without one or lost is released with a strike; a release that is
  // heard ends in its answer.
  lemma HearsExactly(cfgs: Configs, book: Book, fac: Facilitator.Sys, x: Session, i: nat, applied: bool, lost: bool)
    ensures x.pc.AwaitVerify? && i in fac.verifies ==>
              SessionNext(cfgs, book, fac, x, HearVerify(i)).pc
              == match fac.verifies[i].stage
                 case Reserved => Gate.AwaitHandler
                 case Refused => Gate.Ended(Gate.Challenge)
                 case _ => x.pc
    ensures x.pc.AwaitSettle? && i in fac.settles ==>
              SessionNext(cfgs, book, fac, x, HearSettle(i)).pc
              == match fac.settles[i].stage
                 case Answered(Some(r)) => Gate.Ended(Gate.Served(Some(r.amount)))
                 case Answered(None) => Gate.AwaitRelease(Some("settle_failed"), Gate.SettlementFailed)
                 case _ => x.pc
    ensures x.pc.AwaitVerify? ==> SessionNext(cfgs, book, fac, x, LoseVerify(i)).pc == Gate.Ended(Gate.Escaped)
    ensures x.pc.AwaitSettle? ==>
              SessionNext(cfgs, book, fac, x, LoseSettle(i)).pc == Gate.AwaitRelease(Some("settle_failed"), Gate.SettlementFailed)
    ensures x.pc.AwaitRelease? ==>
              SessionNext(cfgs, book, fac, x, CallRelease(i, applied, lost)).pc
              == if lost then Gate.Ended(Gate.Escaped) else if applied then Gate.Ended(x.pc.answer) else x.pc
  {
    hide Metering.ComputeMeteredAmount;
  }

  // What a request asks of the facilitator: a verify of its nonce for its resource, a settle of the
  // amount it owes, a release of its nonce.
  lemma CallsExactly(s: Gates, i: nat, ttl: nat, applied: bool, lost: bool)
    requires i in s.sessions
    ensures var x := s.sessions[i];
            && CallOf(s, CallVerify(i, ttl)) == (if x.pc.AwaitVerify? then Some(StartVerify(i, x.nonce, x.resource, ttl)) else None)
            && CallOf(s, CallSettle(i)) == (if x.pc.AwaitSettle? then Some(StartSettle(i, x.nonce, x.pc.amount)) else None)
            && CallOf(s, CallRelease(i, applied, lost)) == (if x.pc.AwaitRelease? && applied then Some(Release(x.nonce)) else None)
  {
  }

  // The gate loses the answer of its settle and releases, while the debit is under way.
  lemma FirstReleased(cap: nat) returns (steps: seq<GateStep>)
    ensures GatesRun(RaceConfigs(cap), Races.RaceBook(cap), steps)
         == Gates(Races.Sent(cap).(store := PaymentStore.EMPTY), FirstAt(Gate.Ended(Gate.SettlementFailed)))
  {
    hide GatesRun, RunFrom;
    var cfgs, book := RaceConfigs(cap), Races.RaceBook(cap);
    steps := FirstServed(cap);
    var calls := Races.Sends(cap);
    steps := GoesOn(cfgs, book, steps, calls);
    GatesTake(cfgs, book, steps, LoseSettle(0));
    steps := steps + [LoseSettle(0)];
    GatesTake(cfgs, book, steps, CallRelease(0, true, false));
    steps := steps + [CallRelease(0, true, false)];
    assert Forget(Races.Held(cap), "n") == PaymentStore.EMPTY;
  }

  // The same header comes again.
  lemma SecondAsks(cap: nat) returns (steps: seq<GateStep>)
    ensures var s := GatesRun(RaceConfigs(cap), Races.RaceBook(cap), steps);
            && s.fac == Races.Sent(cap).(store := PaymentStore.EMPTY,
                                         verifies := map[0 := Verify("n", 50, Reserved), 1 := Verify("n", 50, Queued)])
            && s.sessions == FirstAt(Gate.Ended(Gate.SettlementFailed))[1 := Session("n", "r", Gate.AwaitVerify, None)]
  {
    hide GatesRun, RunFrom;
    var cfgs, book := RaceConfigs(cap), Races.RaceBook(cap);
    Races.RaceAccount(cap, "n");
    steps := FirstReleased(cap);
    GatesTake(cfgs, book, steps, Open(1, "n", "r"));
    steps := steps + [Open(1, "n", "r")];
    GatesTake(cfgs, book, steps, CallVerify(1, 50));
    steps := steps + [CallVerify(1, 50)];
  }

  // Its verify reads the nonce unused.
  lemma SecondReads(cap: nat) returns (steps: seq<GateStep>)
    ensures var s := GatesRun(RaceConfigs(cap), Races.RaceBook(cap), steps);
            && s.fac == Races.Sent(cap).(store := PaymentStore.EMPTY,
                                         verifies := map[0 := Verify("n", 50, Reserved), 1 := Verify("n", 50, Unused)])
            && s.sessions == FirstAt(Gate.Ended(Gate.SettlementFailed))[1 := Session("n", "r", Gate.AwaitVerify, None)]
  {
    hide GatesRun, RunFrom;
    var cfgs, book := RaceConfigs(cap), Races.RaceBook(cap);
    Races.RaceAccount(cap, "n");
    steps := SecondAsks(cap);
    var s := GatesRun(cfgs, book, steps).fac;
    Races.NothingOpen(PaymentStore.EMPTY, "b", 0);
    assert !Locked(book, s, "b");
    var calls := Races.Reads(book, s, 1);
    steps := GoesOn(cfgs, book, steps, calls);
  }

  // The debit lands, the second verify reserves, and a handler runs on the nonce it paid with.
  lemma HandlerOnUsedNonce(cap: nat) returns (before: seq<GateStep>, after: seq<GateStep>)
    ensures var s := GatesRun(RaceConfigs(cap), Races.RaceBook(cap), before);
            && "n" in s.fac.chain.debited && s.fac.chain.debited["n"] == cap
            && 1 in s.sessions && s.sessions[1].nonce == "n" && s.sessions[1].ran.None?
    ensures var t := GatesRun(RaceConfigs(cap), Races.RaceBook(cap), before + after);
            && 0 in t.sessions && t.sessions[0].nonce == "n" && t.sessions[0].ran.Some?
            && 1 in t.sessions && t.sessions[1].nonce == "n" && t.sessions[1].ran.Some?
  {
    hide GatesRun, RunFrom, Facilitator.Next;
    var cfgs, book := RaceConfigs(cap), Races.RaceBook(cap);
    var steps := SecondReads(cap);
    GatesTake(cfgs, book, steps, Facility(Land(0)));
    before := steps + [Facility(Land(0))];
    LandsUnreserved(cap, GatesRun(cfgs, book, steps).fac);
    after := SecondServed(cap, before);
  }

  lemma LandsUnreserved(cap: nat, s: Facilitator.Sys)
    requires s == Races.Sent(cap).(store := PaymentStore.EMPTY, verifies := s.verifies)
    ensures Facilitator.Next(Races.RaceBook(cap), s, Land(0)) == s.(chain := Races.DebitLanded(cap, map["b" := cap], map[]))
  {
    hide VerifyNext, SettleNext, FirstStage, Fresh, Funded, Forget, Exposed, Locked;
    Races.RaceAccount(cap, "n");
  }

  lemma SecondReserves(cap: nat, s: Facilitator.Sys)
    requires s.store == PaymentStore.EMPTY
    requires s.verifies == map[0 := Verify("n", 50, Reserved), 1 := Verify("n", 50, Unused)]
    ensures Facilitator.Next(Races.RaceBook(cap), s, OnVerify(1)).verifies
         == map[0 := Verify("n", 50, Reserved), 1 := Verify("n", 50, Reserved)]
  {
  }

  lemma SecondServed(cap: nat, before: seq<GateStep>) returns (after: seq<GateStep>)
    requires var s := GatesRun(RaceConfigs(cap), Races.RaceBook(cap), before);
             && s.fac.store == PaymentStore.EMPTY
             && s.fac.verifies == map[0 := Verify("n", 50, Reserved), 1 := Verify("n", 50, Unused)]
             && s.sessions == FirstAt(Gate.Ended(Gate.SettlementFailed))[1 := Session("n", "r", Gate.AwaitVerify, None)]
    ensures GatesRun(RaceConfigs(cap), Races.RaceBook(cap), before + after).sessions
         == FirstAt(Gate.Ended(Gate.SettlementFailed))[1 := Session("n", "r", Gate.AwaitSettle(cap), Some(SERVED))]
  {
    hide GatesRun, RunFrom, Facilitator.Next, Gate.AfterHandler;
    var cfgs, book := RaceConfigs(cap), Races.RaceBook(cap);
    CostsAll(cap);
    var steps := before;
    SecondReserves(cap, GatesRun(cfgs, book, steps).fac);
    GatesTake(cfgs, book, steps, Facility(OnVerify(1)));
    steps := steps + [Facility(OnVerify(1))];
    GatesTake(cfgs, book, steps, HearVerify(1));
    steps := steps + [HearVerify(1)];
    GatesTake(cfgs, book, steps, RunHandler(1, SERVED));
    steps := steps + [RunHandler(1, SERVED)];
    after := [Facility(OnVerify(1)), HearVerify(1), RunHandler(1, SERVED)];
    assert before + after == steps;
  }
}
