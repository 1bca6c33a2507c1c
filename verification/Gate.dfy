// The payment gate around a handler (packages/x402-arc/src/gate.ts): reserve, run, classify, then
// settle or release. The facilitator, the handler and the classifier may answer anything.
module Gate {
  import opened Prelude
  import opened Metering

  datatype Kind = Success | DeclaredError | Malfunction

  datatype Policy = Free | Priced

  datatype Config = Config(policy: Policy, pricing: Pricing)

  // The signed authorization of a request: its nonce and its cap.
  datatype Payment = Payment(nonce: string, cap: nat)

  datatype Outcome = Finished(kind: Kind, bytes: nat, ms: int) | TimedOut | Threw

  // What awaiting a remote call brings back.
  datatype Answer =
    | Verified(valid: bool)
    | Handled(outcome: Outcome)
    | Settled(receipt: Option<nat>)
    | Released
    | Lost

  datatype Response =
    | Challenge
    | Served(receipt: Option<nat>)
    | Timeout
    | HandlerError
    | SettlementFailed
    | BadOutput
    | Escaped

  // Where the gate waits, or how it ended. Escaped is an exception leaving the middleware.
  datatype Pc =
    | AwaitVerify
    | AwaitHandler
    | AwaitSettle(amount: int)
    | AwaitRelease(strike: Option<string>, answer: Response)
    | Ended(response: Response)

  function ReleaseAs(strike: string, answer: Response): Pc { AwaitRelease(Some(strike), answer) }

  function AfterHandler(cfg: Config, cap: nat, outcome: Outcome): Pc {
    match outcome
    case TimedOut => ReleaseAs("timeout", Timeout)
    case Threw => ReleaseAs("handler_error", HandlerError)
    case Finished(Success, bytes, ms) =>
      var amount := ComputeMeteredAmount(cfg.pricing, bytes, ms, cap);
      if amount.Some? then AwaitSettle(amount.value) else Ended(Escaped)
    case Finished(DeclaredError, _, _) =>
      var price := cfg.pricing.errorPrice.GetOr(0);
      if cfg.policy == Free || price <= 0 then AwaitRelease(None, Served(None))
      else AwaitSettle(if price < cap then price else cap)
    case Finished(Malfunction, _, _) => ReleaseAs("invalid_output", BadOutput)
  }

  // One answer moves the gate on. A lost verify or release escapes; a lost settle is a failed one.
  function Advance(cfg: Config, cap: nat, pc: Pc, answer: Answer): Pc {
    match (pc, answer)
    case (AwaitVerify, Verified(valid)) => if valid then AwaitHandler else Ended(Challenge)
    case (AwaitHandler, Handled(outcome)) => AfterHandler(cfg, cap, outcome)
    case (AwaitSettle(_), Settled(Some(receipt))) => Ended(Served(Some(receipt)))
    case (AwaitSettle(_), Settled(None)) => ReleaseAs("settle_failed", SettlementFailed)
    case (AwaitSettle(_), Lost) => ReleaseAs("settle_failed", SettlementFailed)
    case (AwaitRelease(_, response), Released) => Ended(response)
    case (AwaitVerify, Lost) => Ended(Escaped)
    case (AwaitRelease(_, _), Lost) => Ended(Escaped)
    case _ => pc
  }

  // ---------- One request, in the gate's own order ----------

  datatype Event =
    | VerifyCall(nonce: string)
    | HandlerRun
    | SettleCall(nonce: string, amount: int)
    | ReleaseCall(nonce: string, strike: Option<string>)

  // Everything outside the gate, for one request: None is a call that throws.
  datatype World = World(verify: Option<bool>, outcome: Outcome, settle: Option<Option<nat>>, release: bool)

  datatype Header = Absent | Malformed | Decoded(payment: Payment)

  class RequirePayment {
    const cfg: Config
    var trace: seq<Event>

    constructor (cfg: Config)
      ensures this.cfg == cfg && trace == []
    {
      this.cfg := cfg;
      trace := [];
    }

    // The callers' traces grow by the calls made.
    method Release(nonce: string, strike: Option<string>, world: World) returns (ok: bool)
      modifies this
      ensures trace == old(trace) + [ReleaseCall(nonce, strike)] && ok == world.release
    {
      trace := trace + [ReleaseCall(nonce, strike)];
      ok := world.release;
    }

    method SettleOrRelease(payment: Payment, amount: int, world: World) returns (response: Response)
      modifies this
      ensures var (events, last) := Play(cfg, payment, AwaitSettle(amount), world);
              trace == old(trace) + events && last == Ended(response)
    {
      hide Play;
      SettleCalls(cfg, payment, amount, world);
      trace := trace + [SettleCall(payment.nonce, amount)];
      if world.settle.None? || world.settle.value.None? {
        var ok := Release(payment.nonce, Some("settle_failed"), world);
        return if ok then SettlementFailed else Escaped;
      }
      return Served(world.settle.value);
    }

    method Handle(header: Header, world: World) returns (response: Response)
      modifies this
      ensures header.Decoded? ==>
                var (events, last) := Play(cfg, header.payment, AwaitVerify, world);
                trace == old(trace) + events && last == Ended(response)
      ensures !header.Decoded? ==> trace == old(trace) && response == Challenge
    {
      hide Play, ComputeMeteredAmount;
      if header.Absent? {
        return Challenge;
      }
      if header.Malformed? {
        return Challenge;
      }
      var payment := header.payment;
      VerifyCalls(cfg, payment, world);
      trace := trace + [VerifyCall(payment.nonce)];
      if world.verify.None? {
        return Escaped;
      }
      if !world.verify.value {
        return Challenge;
      }
      trace := trace + [HandlerRun];
      response := RunAndSettle(payment, world);
    }

    // The handler's outcome decides: serve and settle, serve and release, or refuse and release.
    method RunAndSettle(payment: Payment, world: World) returns (response: Response)
      modifies this
      ensures var (events, last) := Play(cfg, payment, AfterHandler(cfg, payment.cap, world.outcome), world);
              trace == old(trace) + events && last == Ended(response)
    {
      hide Play, ComputeMeteredAmount;
      ghost var pc := AfterHandler(cfg, payment.cap, world.outcome);
      if pc.AwaitRelease? {
        ReleaseCalls(cfg, payment, pc, world);
      } else if pc.Ended? {
        EndedCalls(cfg, payment, pc.response, world);
      }
      match world.outcome {
        case TimedOut =>
          var ok := Release(payment.nonce, Some("timeout"), world);
          return if ok then Timeout else Escaped;
        case Threw =>
          var ok := Release(payment.nonce, Some("handler_error"), world);
          return if ok then HandlerError else Escaped;
        case Finished(kind, bytes, ms) =>
          if kind.Success? {
            var amount := ComputeMeteredAmount(cfg.pricing, bytes, ms, payment.cap);
            if amount.None? {
              return Escaped;
            }
            response := SettleOrRelease(payment, amount.value, world);
            return;
          }
          if kind.DeclaredError? && cfg.policy == Free {
            var ok := Release(payment.nonce, None, world);
            return if ok then Served(None) else Escaped;
          }
          if kind.DeclaredError? {
            var price := cfg.pricing.errorPrice.GetOr(0);
            if price <= 0 {
              var ok := Release(payment.nonce, None, world);
              return if ok then Served(None) else Escaped;
            }
            response := SettleOrRelease(payment, if price < payment.cap then price else payment.cap, world);
            return;
          }
          var ok := Release(payment.nonce, Some("invalid_output"), world);
          return if ok then BadOutput else Escaped;
      }
    }
  }

  function CallOf(payment: Payment, pc: Pc): seq<Event> {
    match pc
    case AwaitVerify => [VerifyCall(payment.nonce)]
    case AwaitHandler => [HandlerRun]
    case AwaitSettle(amount) => [SettleCall(payment.nonce, amount)]
    case AwaitRelease(strike, _) => [ReleaseCall(payment.nonce, strike)]
    case Ended(_) => []
  }

  function AnswerOf(pc: Pc, world: World): Answer {
    match pc
    case AwaitVerify => if world.verify.Some? then Verified(world.verify.value) else Lost
    case AwaitHandler => Handled(world.outcome)
    case AwaitSettle(_) => if world.settle.Some? then Settled(world.settle.value) else Lost
    case AwaitRelease(_, _) => if world.release then Released else Lost
    case Ended(_) => Lost
  }

  function Rank(pc: Pc): nat {
    match pc
    case AwaitVerify => 4
    case AwaitHandler => 3
    case AwaitSettle(_) => 2
    case AwaitRelease(_, _) => 1
    case Ended(_) => 0
  }

  // The calls the gate makes from a point on, and where it ends.
  function Play(cfg: Config, payment: Payment, pc: Pc, world: World): (r: (seq<Event>, Pc))
    ensures r.1.Ended?
    decreases Rank(pc)
  {
    if pc.Ended? then ([], pc)
    else
      var (events, last) := Play(cfg, payment, Advance(cfg, payment.cap, pc, AnswerOf(pc, world)), world);
      (CallOf(payment, pc) + events, last)
  }

  // ---------- What every request keeps ----------

  // The request succeeded when its settle brought a receipt.
  predicate GotReceipt(response: Response) { response.Served? && response.receipt.Some? }

  predicate HasRelease(events: seq<Event>) { exists i | 0 <= i < |events| :: events[i].ReleaseCall? }

  // The whole protocol in one statement: nothing runs before the reservation; the first call is the
  // verify and the second, if any, the handler; past it the gate settles or releases.
  lemma ProtocolOrder(cfg: Config, payment: Payment, world: World)
    ensures var (events, last) := Play(cfg, payment, AwaitVerify, world);
            && last.Ended?
            && events[0] == VerifyCall(payment.nonce)
            && (HandlerRun in events <==> world.verify == Some(true))
            && (HandlerRun in events ==> |events| >= 2 && events[1] == HandlerRun)
            && (forall i | 0 <= i < |events| && events[i] == HandlerRun :: i == 1)
            && (world.verify != Some(true) ==> events == [VerifyCall(payment.nonce)])
            && (world.verify == Some(false) ==> last.response == Challenge)
            && (world.verify == None ==> last.response == Escaped)
  {
    hide Play;
    VerifyCalls(cfg, payment, world);
    AfterHandlerCalls(cfg, payment, world);
    if world.verify == Some(true) {
      var (tail, _) := Play(cfg, payment, AfterHandler(cfg, payment.cap, world.outcome), world);
      var (events, _) := Play(cfg, payment, AwaitVerify, world);
      assert events[1] == HandlerRun;
      assert forall i | 2 <= i < |events| :: events[i] == tail[i - 2];
    }
  }

  lemma ReleaseCalls(cfg: Config, payment: Payment, pc: Pc, world: World)
    requires pc.AwaitRelease?
    ensures Play(cfg, payment, pc, world)
         == ([ReleaseCall(payment.nonce, pc.strike)], Ended(if world.release then pc.answer else Escaped))
  {
    LastCall(cfg, payment, pc, world);
  }

  lemma LastCall(cfg: Config, payment: Payment, pc: Pc, world: World)
    requires !pc.Ended? && Advance(cfg, payment.cap, pc, AnswerOf(pc, world)).Ended?
    ensures Play(cfg, payment, pc, world)
         == (CallOf(payment, pc), Advance(cfg, payment.cap, pc, AnswerOf(pc, world)))
  {
    assert CallOf(payment, pc) + [] == CallOf(payment, pc);
  }

  // The start of every request, up to where the outcome of the handler decides.
  lemma VerifyCalls(cfg: Config, payment: Payment, world: World)
    ensures Play(cfg, payment, AwaitVerify, world) ==
            if world.verify == Some(true) then
              var (tail, last) := Play(cfg, payment, AfterHandler(cfg, payment.cap, world.outcome), world);
              ([VerifyCall(payment.nonce), HandlerRun] + tail, last)
            else
              ([VerifyCall(payment.nonce)], Ended(if world.verify == Some(false) then Challenge else Escaped))
  {
    if world.verify == Some(true) {
      var (tail, _) := Play(cfg, payment, AfterHandler(cfg, payment.cap, world.outcome), world);
      assert Play(cfg, payment, AwaitHandler, world).0 == [HandlerRun] + tail;
      assert [VerifyCall(payment.nonce)] + ([HandlerRun] + tail) == [VerifyCall(payment.nonce), HandlerRun] + tail;
    } else {
      LastCall(cfg, payment, AwaitVerify, world);
    }
  }

  lemma EndedCalls(cfg: Config, payment: Payment, response: Response, world: World)
    ensures Play(cfg, payment, Ended(response), world) == ([], Ended(response))
  {
  }

  lemma SettleCalls(cfg: Config, payment: Payment, amount: int, world: World)
    ensures Play(cfg, payment, AwaitSettle(amount), world) ==
            if world.settle.Some? && world.settle.value.Some? then
              ([SettleCall(payment.nonce, amount)], Ended(Served(world.settle.value)))
            else
              ([SettleCall(payment.nonce, amount), ReleaseCall(payment.nonce, Some("settle_failed"))],
               Ended(if world.release then SettlementFailed else Escaped))
  {
    var pc := AwaitSettle(amount);
    var next := Advance(cfg, payment.cap, pc, AnswerOf(pc, world));
    if next.AwaitRelease? {
      ReleaseCalls(cfg, payment, next, world);
      assert [SettleCall(payment.nonce, amount)] + [ReleaseCall(payment.nonce, Some("settle_failed"))]
          == [SettleCall(payment.nonce, amount), ReleaseCall(payment.nonce, Some("settle_failed"))];
    } else {
      LastCall(cfg, payment, pc, world);
    }
  }

  lemma AfterHandlerCalls(cfg: Config, payment: Payment, world: World)
    ensures HandlerRun !in Play(cfg, payment, AfterHandler(cfg, payment.cap, world.outcome), world).0
  {
    hide Play;
    var pc := AfterHandler(cfg, payment.cap, world.outcome);
    match pc
    case AwaitSettle(amount) => SettleCalls(cfg, payment, amount, world);
    case AwaitRelease(_, _) => ReleaseCalls(cfg, payment, pc, world);
    case Ended(response) => EndedCalls(cfg, payment, response, world);
  }

  // The one way past the handler without settling or releasing is a price term BigInt refuses, or a
  // size limit it refuses where that bites.
  predicate PriceFails(cfg: Config, outcome: Outcome) {
    outcome.Finished? && outcome.kind == Success && !Readable(cfg.pricing, outcome.bytes)
  }

  // Past the verify, the gate serves a settled receipt or tries to release, exactly unless the
  // price of a success cannot be read.
  lemma SettledOrReleased(cfg: Config, payment: Payment, world: World)
    requires world.verify == Some(true)
    ensures var (events, last) := Play(cfg, payment, AwaitVerify, world);
            (GotReceipt(last.response) || HasRelease(events)) <==> !PriceFails(cfg, world.outcome)
    ensures var (events, last) := Play(cfg, payment, AwaitVerify, world);
            !(GotReceipt(last.response) && HasRelease(events))
  {
    hide Play;
    VerifyCalls(cfg, payment, world);
    var pc := AfterHandler(cfg, payment.cap, world.outcome);
    var (tail, _) := Play(cfg, payment, pc, world);
    var (events, _) := Play(cfg, payment, AwaitVerify, world);
    assert forall i | 2 <= i < |events| :: events[i] == tail[i - 2];
    match pc
    case AwaitSettle(amount) =>
      SettleCalls(cfg, payment, amount, world);
      assert |tail| == 2 ==> events[3] == tail[1];
    case AwaitRelease(_, _) =>
      ReleaseCalls(cfg, payment, pc, world);
      assert events[2] == tail[0];
    case Ended(response) => EndedCalls(cfg, payment, response, world);
  }

  // Whether a run ends in a strike depends on the outcome and on whether the settle succeeded.
  predicate Strikes(cfg: Config, world: World) {
    match world.outcome
    case TimedOut => true
    case Threw => true
    case Finished(Malfunction, _, _) => true
    case Finished(Success, bytes, _) => Readable(cfg.pricing, bytes) && !(world.settle.Some? && world.settle.value.Some?)
    case Finished(DeclaredError, _, _) =>
      cfg.policy == Priced && 0 < cfg.pricing.errorPrice.GetOr(0) && !(world.settle.Some? && world.settle.value.Some?)
  }

  // Why: what went wrong with the handler, and otherwise the settle.
  function ReasonOf(outcome: Outcome): string {
    match outcome
    case TimedOut => "timeout"
    case Threw => "handler_error"
    case Finished(Malfunction, _, _) => "invalid_output"
    case _ => "settle_failed"
  }

  // A strike is asked for exactly then, at most once and for that reason; every release is of the
  // payment's own nonce, and a free declared error never strikes.
  lemma StrikeRule(cfg: Config, payment: Payment, world: World)
    requires world.verify == Some(true)
    ensures var (events, _) := Play(cfg, payment, AwaitVerify, world);
            (exists i | 0 <= i < |events| :: events[i].ReleaseCall? && events[i].strike.Some?) <==> Strikes(cfg, world)
    ensures var (events, _) := Play(cfg, payment, AwaitVerify, world);
            forall i, j | 0 <= i < j < |events| :: !(events[i].ReleaseCall? && events[j].ReleaseCall?)
    ensures var (events, _) := Play(cfg, payment, AwaitVerify, world);
            forall i | 0 <= i < |events| && events[i].ReleaseCall? ::
              events[i].nonce == payment.nonce
              && events[i].strike == if Strikes(cfg, world) then Some(ReasonOf(world.outcome)) else None
  {
    hide Play;
    VerifyCalls(cfg, payment, world);
    var pc := AfterHandler(cfg, payment.cap, world.outcome);
    var (tail, _) := Play(cfg, payment, pc, world);
    var (events, _) := Play(cfg, payment, AwaitVerify, world);
    assert forall i | 2 <= i < |events| :: events[i] == tail[i - 2];
    match pc
    case AwaitSettle(amount) =>
      SettleCalls(cfg, payment, amount, world);
      assert |tail| == 2 ==> events[3] == tail[1];
    case AwaitRelease(_, _) =>
      ReleaseCalls(cfg, payment, pc, world);
      assert events[2] == tail[0];
    case Ended(response) => EndedCalls(cfg, payment, response, world);
  }

  lemma AmountWithinCap(cfg: Config, cap: nat, outcome: Outcome)
    requires AfterHandler(cfg, cap, outcome).AwaitSettle?
    ensures AfterHandler(cfg, cap, outcome).amount <= cap
    ensures NonNegative(cfg.pricing) && outcome.Finished? && 0 <= outcome.ms ==>
              0 <= AfterHandler(cfg, cap, outcome).amount
  {
    if NonNegative(cfg.pricing) && outcome.Finished? && outcome.kind == Success && 0 <= outcome.ms {
      ChargeMonotone(cfg.pricing, outcome.bytes, outcome.ms, cap, outcome.bytes, outcome.ms, cap);
    }
  }

  // Metered or error price, what is settled is never above the signed cap, and it is asked once.
  lemma SettlesWithinCap(cfg: Config, payment: Payment, world: World)
    ensures var (events, _) := Play(cfg, payment, AwaitVerify, world);
            && (forall i | 0 <= i < |events| && events[i].SettleCall? ::
                  i == 2 && events[i].nonce == payment.nonce && events[i].amount <= payment.cap)
            && (NonNegative(cfg.pricing) && (world.outcome.Finished? ==> 0 <= world.outcome.ms) ==>
                  forall i | 0 <= i < |events| && events[i].SettleCall? :: 0 <= events[i].amount)
  {
    hide Play;
    VerifyCalls(cfg, payment, world);
    if world.verify == Some(true) {
      var pc := AfterHandler(cfg, payment.cap, world.outcome);
      var (tail, _) := Play(cfg, payment, pc, world);
      var (events, _) := Play(cfg, payment, AwaitVerify, world);
      assert forall i | 2 <= i < |events| :: events[i] == tail[i - 2];
      match pc
      case AwaitSettle(amount) =>
        SettleCalls(cfg, payment, amount, world);
        AmountWithinCap(cfg, payment.cap, world.outcome);
      case AwaitRelease(_, _) => ReleaseCalls(cfg, payment, pc, world);
      case Ended(response) => EndedCalls(cfg, payment, response, world);
    }
  }

  // Only a readable success and a priced declared error cost anything.
  predicate Owes(cfg: Config, outcome: Outcome) {
    && outcome.Finished?
    && match outcome.kind
       case Success => Readable(cfg.pricing, outcome.bytes)
       case DeclaredError => cfg.policy == Priced && 0 < cfg.pricing.errorPrice.GetOr(0)
       case Malfunction => false
  }

  // The signed cap, or less when the least units that cover the response and the time, or the error
  // price, cost less.
  ghost predicate IsDue(cfg: Config, cap: nat, outcome: Outcome, amount: int)
    requires Owes(cfg, outcome)
  {
    if outcome.kind == DeclaredError then
      amount <= cap && (amount == cap || amount == cfg.pricing.errorPrice.value) && amount <= cfg.pricing.errorPrice.value
    else
      exists quantity, size, compute :: PaysFor(cfg.pricing, cap, outcome, quantity, size, compute, amount)
  }

  // The amount is the smaller of the cap and the price of these units of size and of time, which are
  // the least for the bytes that are paid for and the time.
  ghost predicate PaysFor(p: Pricing, cap: nat, outcome: Outcome, quantity: int, size: int, compute: int, amount: int)
    requires outcome.Finished? && Readable(p, outcome.bytes)
  {
    var exact := p.base.value + p.perKB.value * size + p.computeMultiplier.value * compute;
    && PaidFor(p.maxResponseBytes, outcome.bytes, quantity)
    && IsUnits(size, quantity, 1024) && IsUnits(compute, outcome.ms, 100)
    && amount <= cap && amount <= exact && (amount == cap || amount == exact)
  }

  lemma SettleMeansOwed(cfg: Config, cap: nat, outcome: Outcome)
    requires AfterHandler(cfg, cap, outcome).AwaitSettle?
    ensures Owes(cfg, outcome)
  {
  }

  lemma DueAmount(cfg: Config, cap: nat, outcome: Outcome)
    requires Owes(cfg, outcome)
    ensures AfterHandler(cfg, cap, outcome).AwaitSettle?
    ensures IsDue(cfg, cap, outcome, AfterHandler(cfg, cap, outcome).amount)
  {
    if outcome.kind == Success {
      var p := cfg.pricing;
      var quantity := EffectiveBytes(p, outcome.bytes).value;
      var size, compute := CeilDiv(quantity, 1024), CeilDiv(outcome.ms, 100);
      EffectiveIsPaidFor(p, outcome.bytes, quantity);
      CeilIsUnits(quantity, 1024);
      CeilIsUnits(outcome.ms, 100);
      ChargeIsExact(p, outcome.bytes, outcome.ms, cap, quantity, size, compute);
      assert PaysFor(p, cap, outcome, quantity, size, compute, AfterHandler(cfg, cap, outcome).amount);
    }
  }

  // Past the verify a settle is asked for exactly when something is owed, and for exactly what is due.
  lemma ChargeRule(cfg: Config, payment: Payment, world: World)
    requires world.verify == Some(true)
    ensures var (events, _) := Play(cfg, payment, AwaitVerify, world);
            if Owes(cfg, world.outcome)
            then |events| > 2 && events[2].SettleCall? && events[2].nonce == payment.nonce
                 && IsDue(cfg, payment.cap, world.outcome, events[2].amount)
            else forall i | 0 <= i < |events| :: !events[i].SettleCall?
  {
    hide Play, IsDue;
    VerifyCalls(cfg, payment, world);
    var pc := AfterHandler(cfg, payment.cap, world.outcome);
    var (tail, _) := Play(cfg, payment, pc, world);
    var (events, _) := Play(cfg, payment, AwaitVerify, world);
    assert forall i | 2 <= i < |events| :: events[i] == tail[i - 2];
    if Owes(cfg, world.outcome) {
      DueAmount(cfg, payment.cap, world.outcome);
      SettleCalls(cfg, payment, pc.amount, world);
      assert events[2] == tail[0];
    } else if pc.AwaitRelease? {
      ReleaseCalls(cfg, payment, pc, world);
    } else {
      EndedCalls(cfg, payment, pc.response, world);
    }
  }

  // What the client sees: a receipt exactly when something was owed and settled, the handler's own
  // answer without one exactly for a declared error that costs nothing, and an error of its own for
  // every other ending; an exception leaves the gate when a release is lost or a price unreadable.
  lemma ClientSees(cfg: Config, payment: Payment, world: World)
    requires world.verify == Some(true)
    ensures var response := Play(cfg, payment, AwaitVerify, world).1.response; var outcome := world.outcome;
            var settled := world.settle.Some? && world.settle.value.Some?;
            && (GotReceipt(response) <==> Owes(cfg, outcome) && settled)
            && (GotReceipt(response) ==> response.receipt == world.settle.value)
            && (response == Served(None) <==>
                  outcome.Finished? && outcome.kind == DeclaredError && !Owes(cfg, outcome) && world.release)
            && (response == SettlementFailed <==> Owes(cfg, outcome) && !settled && world.release)
            && (response == Timeout <==> outcome.TimedOut? && world.release)
            && (response == HandlerError <==> outcome.Threw? && world.release)
            && (response == BadOutput <==> outcome.Finished? && outcome.kind == Malfunction && world.release)
            && (response == Escaped <==> PriceFails(cfg, outcome) || (!world.release && !(Owes(cfg, outcome) && settled)))
  {
    hide Play;
    VerifyCalls(cfg, payment, world);
    var pc := AfterHandler(cfg, payment.cap, world.outcome);
    match pc
    case AwaitSettle(amount) => SettleCalls(cfg, payment, amount, world);
    case AwaitRelease(_, _) => ReleaseCalls(cfg, payment, pc, world);
    case Ended(response) => EndedCalls(cfg, payment, response, world);
  }
}
