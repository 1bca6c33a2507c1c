// The two-step, time-locked slash (packages/staking/src/slash.ts) over the registry and the vault
// (contracts/src/ResourceRegistry.sol, contracts/src/StakingVault.sol), fed by the scoring loop.
module Slash {
  import opened Prelude
  import opened Strikes
  import Schedule

  const SLASH_DISPUTE_WINDOW: nat := 86400

  datatype PendingSlash = PendingSlash(amount: nat, executableAt: nat)

  datatype Chain = Chain(
    time: nat,
    registered: set<string>,
    pending: map<string, PendingSlash>,
    bonds: map<string, int>,
    pool: int)

  // getPendingSlash: (0, 0) when nothing is pending.
  function GetPendingSlash(c: Chain, r: string): PendingSlash {
    if r in c.pending then c.pending[r] else PendingSlash(0, 0)
  }

  function Bond(c: Chain, r: string): int { Weight(r, c.bonds) }

  // ---------- The driver ----------

  datatype Write = SlashAuthorization(resourceId: string, amount: int) | VaultSlash(resourceId: string, amount: int)

  datatype RecordResult = Recorded | NonPositive | BelowStrikeLimit | ExceedsBond

  datatype ExecuteResult =
    | Executed
    | NoReader
    | NoPendingAuthorization
    | AmountMismatch(pending: PendingSlash)
    | NotYetMatured(pending: PendingSlash)

  predicate MayRecord(c: Chain, hasReader: bool, review: Review, amount: int) {
    amount > 0 && review.consecutiveFailures >= STRIKE_LIMIT && (hasReader ==> amount <= Bond(c, review.resourceId))
  }

  predicate MayExecute(c: Chain, r: string, amount: int, now: int) {
    var p := GetPendingSlash(c, r);
    amount > 0 && p.amount == amount && p.executableAt <= now
  }

  // The bond there is, none for a resource without one.
  predicate IsBond(c: Chain, r: string, bond: int) { if r in c.bonds then bond == c.bonds[r] else bond == 0 }

  // A positive authorization of exactly this amount is pending and its window has passed.
  predicate IsPending(c: Chain, r: string, amount: int, now: int) {
    amount > 0 && r in c.pending && c.pending[r].amount == amount && c.pending[r].executableAt <= now
  }

  // The injected clients: reads answer from the chain, writes are broadcast in order.
  class Clients {
    const hasReader: bool
    var chain: Chain
    var writes: seq<Write>

    constructor (hasReader: bool, chain: Chain)
      ensures this.hasReader == hasReader && this.chain == chain && writes == []
    {
      this.hasReader, this.chain, writes := hasReader, chain, [];
    }

    method WriteContract(w: Write)
      modifies this`writes
      ensures writes == old(writes) + [w]
    {
      writes := writes + [w];
    }
  }

  // One registry write when every guard passes, and none otherwise.
  method RecordSlashAuthorization(deps: Clients, review: Review, amount: int) returns (r: RecordResult)
    modifies deps`writes
    ensures r == Recorded <==> MayRecord(deps.chain, deps.hasReader, review, amount)
    ensures forall bond | IsBond(deps.chain, review.resourceId, bond) ::
              && (r == Recorded <==> amount > 0 && review.consecutiveFailures >= 5 && (deps.hasReader ==> amount <= bond))
              && (r == ExceedsBond <==> amount > 0 && review.consecutiveFailures >= 5 && deps.hasReader && bond < amount)
    ensures r == Recorded ==> deps.writes == old(deps.writes) + [SlashAuthorization(review.resourceId, amount)]
    ensures r != Recorded ==> deps.writes == old(deps.writes)
    ensures r == NonPositive <==> amount <= 0
    ensures r == BelowStrikeLimit <==> amount > 0 && review.consecutiveFailures < 5
  {
    if amount <= 0 {
      return NonPositive;
    }
    if review.consecutiveFailures < STRIKE_LIMIT {
      return BelowStrikeLimit;
    }
    if deps.hasReader {
      var bond := Bond(deps.chain, review.resourceId);
      if amount > bond {
        return ExceedsBond;
      }
    }
    deps.WriteContract(SlashAuthorization(review.resourceId, amount));
    return Recorded;
  }

  // One vault write when a matching authorization has matured by the caller's clock; a premature,
  // mismatched or unrecorded run writes nothing and says why.
  method ExecuteMaturedSlash(deps: Clients, review: Review, amount: int, now: int) returns (r: ExecuteResult)
    modifies deps`writes
    ensures r == Executed <==> deps.hasReader && MayExecute(deps.chain, review.resourceId, amount, now)
    ensures r == Executed <==> deps.hasReader && IsPending(deps.chain, review.resourceId, amount, now)
    ensures r == Executed ==> deps.writes == old(deps.writes) + [VaultSlash(review.resourceId, amount)]
    ensures r != Executed ==> deps.writes == old(deps.writes)
    ensures r == NoReader <==> !deps.hasReader
    ensures var q := review.resourceId; var pending := deps.chain.pending;
            && (r == NoPendingAuthorization <==> deps.hasReader && (q !in pending || pending[q].amount == 0))
            && (r.AmountMismatch? <==> deps.hasReader && q in pending && pending[q].amount != 0 && pending[q].amount != amount)
            && (r.NotYetMatured? <==> deps.hasReader && q in pending && pending[q].amount != 0 && pending[q].amount == amount
                                      && now < pending[q].executableAt)
            && (r.AmountMismatch? || r.NotYetMatured? ==> r.pending == pending[q])
  {
    if !deps.hasReader {
      return NoReader;
    }
    var pending := GetPendingSlash(deps.chain, review.resourceId);
    if pending.amount == 0 {
      return NoPendingAuthorization;
    }
    if pending.amount != amount {
      return AmountMismatch(pending);
    }
    if now < pending.executableAt {
      return NotYetMatured(pending);
    }
    deps.WriteContract(VaultSlash(review.resourceId, amount));
    return Executed;
  }

  // ---------- The whole system ----------

  // A broadcast and what the driver had read: the bond (if it had a reader), or the pending slash.
  datatype Tx =
    | AuthTx(resourceId: string, amount: nat, bond: Option<int>)
    | SlashTx(resourceId: string, amount: nat, pending: PendingSlash, now: int)

  // An authorization the registry accepted: the transaction that carried it, and when.
  datatype Authorised = Authorised(tx: nat, at: nat)

  // A bond that was cut: the transaction, the authorization it used up, and when.
  datatype Slashed = Slashed(tx: nat, auth: nat, at: nat)

  datatype Sys = Sys(
    probes: seq<Schedule.Step>,
    chain: Chain,
    txs: seq<Tx>,
    landed: set<nat>,
    authorised: seq<Authorised>,
    current: map<string, nat>,
    cancelled: set<nat>,
    slashed: seq<Slashed>,
    paidIn: int)

  const START: Sys := Sys([], Chain(0, {}, map[], map[], 0), [], {}, [], map[], {}, [], 0)

  datatype Step =
    | Probe(step: Schedule.Step)
    | Record(i: nat, amount: int, hasReader: bool)
    | Execute(resourceId: string, amount: int, now: int)
    | Land(k: nat)
    | Cancel(resourceId: string)
    | Register(resourceId: string)
    | Deposit(resourceId: string, deposit: nat)
    | Withdraw(resourceId: string)
    | Refund(refund: nat)
    | Tick(time: nat)

  function Applied(s: Sys): seq<Schedule.Applied> { Schedule.Run(s.probes).applied }

  // The reviews the loop handed over, by position.
  predicate Raised(s: Sys, i: nat) {
    i < |Applied(s)| && Applied(s)[i].transition.review.Some?
  }

  function RecordStep(s: Sys, i: nat, amount: int, hasReader: bool): Sys
    requires Raised(s, i)
  {
    var review := Applied(s)[i].transition.review.value;
    if !MayRecord(s.chain, hasReader, review, amount) then s
    else s.(txs := s.txs + [AuthTx(review.resourceId, amount,
                                   if hasReader then Some(Bond(s.chain, review.resourceId)) else None)])
  }

  function ExecuteStep(s: Sys, r: string, amount: int, now: int): Sys {
    if !MayExecute(s.chain, r, amount, now) then s
    else s.(txs := s.txs + [SlashTx(r, amount, GetPendingSlash(s.chain, r), now)])
  }

  // slashAuthorization: overwrites what was pending; reverts for an unknown resource.
  function LandAuth(s: Sys, k: nat): Sys
    requires k < |s.txs| && s.txs[k].AuthTx?
  {
    var tx, t := s.txs[k], s.(landed := s.landed + {k});
    if tx.resourceId !in s.chain.registered then t
    else
      var p := PendingSlash(tx.amount, s.chain.time + SLASH_DISPUTE_WINDOW);
      t.(chain := s.chain.(pending := s.chain.pending[tx.resourceId := p]),
         authorised := s.authorised + [Authorised(k, s.chain.time)],
         current := s.current[tx.resourceId := |s.authorised|])
  }

  // consumeSlashAuthorization and the bond check, as the vault runs them.
  predicate Consumable(c: Chain, r: string, amount: int) {
    r in c.pending && c.pending[r].amount == amount && c.pending[r].executableAt <= c.time && amount <= Bond(c, r)
  }

  function Cut(c: Chain, r: string, amount: nat): Chain {
    c.(pending := c.pending - {r}, bonds := c.bonds[r := Bond(c, r) - amount], pool := c.pool + amount)
  }

  function LandSlash(s: Sys, k: nat): Sys
    requires k < |s.txs| && s.txs[k].SlashTx?
  {
    var tx, t := s.txs[k], s.(landed := s.landed + {k});
    if !Consumable(s.chain, tx.resourceId, tx.amount) || tx.resourceId !in s.current then t
    else t.(chain := Cut(s.chain, tx.resourceId, tx.amount),
            slashed := s.slashed + [Slashed(k, s.current[tx.resourceId], s.chain.time)],
            current := s.current - {tx.resourceId})
  }

  function Next(s: Sys, step: Step): Sys {
    match step
    case Probe(p) => s.(probes := s.probes + [p])
    case Record(i, amount, hasReader) => if Raised(s, i) then RecordStep(s, i, amount, hasReader) else s
    case Execute(r, amount, now) => ExecuteStep(s, r, amount, now)
    case Land(k) =>
      if k >= |s.txs| || k in s.landed then s
      else if s.txs[k].AuthTx? then LandAuth(s, k) else LandSlash(s, k)
    case Cancel(r) =>
      if r !in s.chain.pending || r !in s.current then s
      else s.(chain := s.chain.(pending := s.chain.pending - {r}),
              cancelled := s.cancelled + {s.current[r]}, current := s.current - {r})
    case Register(r) => s.(chain := s.chain.(registered := s.chain.registered + {r}))
    case Deposit(r, amount) =>
      s.(chain := s.chain.(bonds := s.chain.bonds[r := Bond(s.chain, r) + amount]), paidIn := s.paidIn + amount)
    case Withdraw(r) =>
      s.(chain := s.chain.(bonds := s.chain.bonds[r := 0]), paidIn := s.paidIn - Bond(s.chain, r))
    case Refund(amount) =>
      if amount > s.chain.pool then s
      else s.(chain := s.chain.(pool := s.chain.pool - amount), paidIn := s.paidIn - amount)
    case Tick(now) => if s.chain.time <= now then s.(chain := s.chain.(time := now)) else s
  }

  function Run(steps: seq<Step>): Sys {
    if steps == [] then START else Next(Run(steps[..|steps| - 1]), steps[|steps| - 1])
  }

  // ---------- What every run keeps ----------

  ghost predicate Failing(s: Sys, r: string) {
    HasFive(Schedule.HistoryOf(Schedule.Run(s.probes).log, r))
  }

  // Authorization a is for this resource and amount, passed the bond check, and its resource has failed.
  ghost predicate Backs(s: Sys, a: nat, r: string, amount: int) {
    && a < |s.authorised|
    && s.authorised[a].tx < |s.txs|
    && var tx := s.txs[s.authorised[a].tx];
       && tx.AuthTx? && tx.resourceId == r && tx.amount == amount
  }

  function MaturesAt(s: Sys, a: nat): nat
    requires a < |s.authorised|
  {
    s.authorised[a].at + 86400
  }

  ghost predicate AuthOk(s: Sys, tx: Tx)
    requires tx.AuthTx?
  {
    && tx.amount > 0
    && (tx.bond.Some? ==> tx.amount <= tx.bond.value)
    && Failing(s, tx.resourceId)
  }

  ghost predicate Matures(s: Sys, a: nat, r: string, amount: int, now: int) {
    Backs(s, a, r, amount) && MaturesAt(s, a) <= now
  }

  ghost predicate BroadcastOk(s: Sys, tx: Tx)
    requires tx.SlashTx?
  {
    exists a: nat :: Matures(s, a, tx.resourceId, tx.amount, tx.now)
  }

  ghost predicate TxsOk(s: Sys) {
    forall k | 0 <= k < |s.txs| ::
      if s.txs[k].AuthTx? then AuthOk(s, s.txs[k]) else BroadcastOk(s, s.txs[k])
  }

  // Every pending slash is the authorization it came from, and that one is neither used nor cancelled.
  ghost predicate PendingOk(s: Sys) {
    && s.current.Keys == s.chain.pending.Keys
    && forall r | r in s.current ::
         && Backs(s, s.current[r], r, s.chain.pending[r].amount)
         && MaturesAt(s, s.current[r]) == s.chain.pending[r].executableAt
         && s.current[r] !in s.cancelled
  }

  ghost predicate Unused(s: Sys, a: nat) {
    forall j | 0 <= j < |s.slashed| :: s.slashed[j].auth != a
  }

  ghost predicate SlashOk(s: Sys, x: Slashed) {
    && x.tx < |s.txs| && s.txs[x.tx].SlashTx?
    && x.auth !in s.cancelled
    && Matures(s, x.auth, s.txs[x.tx].resourceId, s.txs[x.tx].amount, x.at)
  }

  ghost predicate SlashesOk(s: Sys) {
    && (forall j | 0 <= j < |s.slashed| :: SlashOk(s, s.slashed[j]))
    && (forall i, j | 0 <= i < j < |s.slashed| :: s.slashed[i].auth != s.slashed[j].auth)
    && (forall r | r in s.current :: Unused(s, s.current[r]))
  }

  // Cancelled authorizations are old ones, so a new one is never born cancelled.
  ghost predicate CancelledOk(s: Sys) {
    forall a | a in s.cancelled :: a < |s.authorised|
  }

  // Two resources never share an authorization; each is for the resource its transaction names.
  ghost predicate Inv(s: Sys) {
    TxsOk(s) && PendingOk(s) && SlashesOk(s) && CancelledOk(s)
  }

  // A state that only gained broadcasts, authorizations and failures keeps what was backed before.
  ghost predicate Grows(s: Sys, t: Sys) {
    && s.txs <= t.txs
    && s.authorised <= t.authorised
    && (forall r | Failing(s, r) :: Failing(t, r))
  }

  lemma GrowKeepsTx(s: Sys, t: Sys, tx: Tx)
    requires Grows(s, t)
    requires if tx.AuthTx? then AuthOk(s, tx) else BroadcastOk(s, tx)
    ensures if tx.AuthTx? then AuthOk(t, tx) else BroadcastOk(t, tx)
  {
    hide Failing;
    if tx.SlashTx? {
      var a: nat :| Matures(s, a, tx.resourceId, tx.amount, tx.now);
      assert Matures(t, a, tx.resourceId, tx.amount, tx.now);
    }
  }

  lemma TxsKept(s: Sys, t: Sys)
    requires Grows(s, t) && TxsOk(s) && t.txs == s.txs
    ensures TxsOk(t)
  {
    hide AuthOk, BroadcastOk, Grows;
    forall k | 0 <= k < |t.txs|
      ensures if t.txs[k].AuthTx? then AuthOk(t, t.txs[k]) else BroadcastOk(t, t.txs[k])
    {
      GrowKeepsTx(s, t, s.txs[k]);
    }
  }

  lemma GrowKeeps(s: Sys, t: Sys)
    requires Grows(s, t) && Inv(s)
    requires t.chain.pending == s.chain.pending && t.current == s.current
    requires t.cancelled == s.cancelled && t.slashed == s.slashed
    requires t.txs == s.txs
          || (|t.txs| == |s.txs| + 1
              && var tx := t.txs[|s.txs|]; if tx.AuthTx? then AuthOk(t, tx) else BroadcastOk(t, tx))
    ensures Inv(t)
  {
    hide Failing, AuthOk, BroadcastOk;
    forall k | 0 <= k < |t.txs|
      ensures if t.txs[k].AuthTx? then AuthOk(t, t.txs[k]) else BroadcastOk(t, t.txs[k])
    {
      if k < |s.txs| {
        assert t.txs[k] == s.txs[k];
        GrowKeepsTx(s, t, s.txs[k]);
      }
    }
    forall j | 0 <= j < |t.slashed| ensures SlashOk(t, t.slashed[j]) {
      assert SlashOk(s, s.slashed[j]);
    }
    forall r | r in t.current ensures Unused(t, t.current[r]) {
      assert Unused(s, s.current[r]);
    }
  }

  // Probing more never takes a failing resource back.
  lemma ProbingKeepsFailing(s: Sys, p: Schedule.Step, r: string)
    requires Failing(s, r)
    ensures Failing(s.(probes := s.probes + [p]), r)
  {
    hide HasFive, Schedule.Reduced, Schedule.TransitionOf;
    var more := s.probes + [p];
    assert more[..|s.probes|] == s.probes;
    var log, longer := Schedule.Run(s.probes).log, Schedule.Run(more).log;
    assert log <= longer;
    assert longer[..|log|] == log;
    Schedule.HistoryPrefix(longer, r, |log|);
    var h := Schedule.HistoryOf(longer, r);
    FiveStays(h, |Schedule.HistoryOf(log, r)|, |h|);
    assert h[..|h|] == h;
  }

  // A review the loop handed over names a resource that failed five times in a row.
  lemma RaisedIsFailing(s: Sys, i: nat)
    requires Raised(s, i)
    ensures Failing(s, Applied(s)[i].transition.review.value.resourceId)
  {
    Schedule.ReviewHasFive(s.probes, i);
  }

  lemma RecordKeeps(s: Sys, i: nat, amount: int, hasReader: bool)
    requires Inv(s) && Raised(s, i)
    ensures Inv(RecordStep(s, i, amount, hasReader))
  {
    hide Failing, Applied;
    var t := RecordStep(s, i, amount, hasReader);
    RaisedIsFailing(s, i);
    FailingReadsProbes(s, t);
    GrowKeeps(s, t);
  }

  lemma FailingReadsProbes(s: Sys, t: Sys)
    requires s.probes == t.probes
    ensures forall r :: Failing(s, r) <==> Failing(t, r)
  {
  }

  lemma ExecuteKeeps(s: Sys, r: string, amount: int, now: int)
    requires Inv(s)
    ensures Inv(ExecuteStep(s, r, amount, now))
  {
    hide Failing, AuthOk;
    var t := ExecuteStep(s, r, amount, now);
    FailingReadsProbes(s, t);
    if MayExecute(s.chain, r, amount, now) {
      assert r in s.current;
      assert Matures(t, s.current[r], r, amount, now);
    }
    GrowKeeps(s, t);
  }

  lemma LandAuthKeeps(s: Sys, k: nat)
    requires Inv(s) && k < |s.txs| && s.txs[k].AuthTx?
    ensures Inv(LandAuth(s, k))
  {
    hide Failing, AuthOk, BroadcastOk, TxsOk;
    var t := LandAuth(s, k);
    FailingReadsProbes(s, t);
    TxsKept(s, t);
    forall j | 0 <= j < |t.slashed| ensures SlashOk(t, t.slashed[j]) && t.slashed[j].auth < |s.authorised| {
      assert SlashOk(s, s.slashed[j]);
    }
    forall r | r in t.current ensures Unused(t, t.current[r]) {
      if r in s.current {
        assert Unused(s, s.current[r]);
      }
    }
  }

  lemma LandSlashKeeps(s: Sys, k: nat)
    requires Inv(s) && k < |s.txs| && s.txs[k].SlashTx?
    ensures Inv(LandSlash(s, k))
  {
    hide Failing, AuthOk, BroadcastOk, Consumable, Bond, TxsOk;
    var t, r := LandSlash(s, k), s.txs[k].resourceId;
    FailingReadsProbes(s, t);
    TxsKept(s, t);
    ConsumedOk(s, k);
    forall j | 0 <= j < |t.slashed| ensures SlashOk(t, t.slashed[j]) {
      if j < |s.slashed| {
        assert SlashOk(s, s.slashed[j]);
      }
    }
    forall q | q in t.current ensures Unused(t, t.current[q]) {
      assert Unused(s, s.current[q]);
    }
    if t.slashed != s.slashed {
      assert Unused(s, s.current[r]);
    }
  }

  lemma ConsumedOk(s: Sys, k: nat)
    requires Inv(s) && k < |s.txs| && s.txs[k].SlashTx?
    ensures var t, r := LandSlash(s, k), s.txs[k].resourceId;
            t.slashed == s.slashed
            || (r in s.current && t.slashed == s.slashed + [Slashed(k, s.current[r], s.chain.time)]
                && SlashOk(t, Slashed(k, s.current[r], s.chain.time)))
  {
    hide Failing, AuthOk, BroadcastOk;
    var r := s.txs[k].resourceId;
    if Consumable(s.chain, r, s.txs[k].amount) && r in s.current {
      assert Backs(s, s.current[r], r, s.chain.pending[r].amount);
    }
  }

  lemma CancelKeeps(s: Sys, r: string)
    requires Inv(s)
    ensures Inv(Next(s, Cancel(r)))
  {
    hide Failing, AuthOk, BroadcastOk, TxsOk;
    var t := Next(s, Cancel(r));
    FailingReadsProbes(s, t);
    if r in s.chain.pending && r in s.current {
      TxsKept(s, t);
      assert Unused(s, s.current[r]);
      forall j | 0 <= j < |t.slashed| ensures SlashOk(t, t.slashed[j]) {
        assert SlashOk(s, s.slashed[j]);
      }
      forall q | q in t.current ensures Unused(t, t.current[q]) && t.current[q] !in t.cancelled {
        assert Unused(s, s.current[q]);
      }
    }
  }

  lemma NextKeeps(s: Sys, step: Step)
    requires Inv(s)
    ensures Inv(Next(s, step))
  {
    hide Failing, TxsOk, PendingOk, SlashesOk, CancelledOk, RecordStep, ExecuteStep, LandAuth, LandSlash;
    var t := Next(s, step);
    match step
    case Probe(p) => {
      forall r | Failing(s, r) ensures Failing(t, r) {
        ProbingKeepsFailing(s, p, r);
      }
      GrowKeeps(s, t);
    }
    case Record(i, amount, hasReader) => {
      if Raised(s, i) {
        RecordKeeps(s, i, amount, hasReader);
      }
    }
    case Execute(r, amount, now) => ExecuteKeeps(s, r, amount, now);
    case Land(k) => {
      if k < |s.txs| && k !in s.landed {
        if s.txs[k].AuthTx? {
          LandAuthKeeps(s, k);
        } else {
          LandSlashKeeps(s, k);
        }
      }
    }
    case Cancel(r) => CancelKeeps(s, r);
    case _ => {
      FailingReadsProbes(s, t);
      GrowKeeps(s, t);
    }
  }

  lemma {:induction false} RunInv(steps: seq<Step>)
    ensures Inv(Run(steps))
  {
    if steps != [] {
      RunInv(steps[..|steps| - 1]);
      hide Inv;
      NextKeeps(Run(steps[..|steps| - 1]), steps[|steps| - 1]);
    }
  }

  // A vault slash is broadcast only for a resource whose probes failed five times in a row, under an
  // accepted authorization of exactly that positive amount (at most the bond, where it was read),
  // once the caller's clock has passed its dispute window.
  lemma BroadcastIsBacked(steps: seq<Step>, k: nat)
    requires k < |Run(steps).txs| && Run(steps).txs[k].SlashTx?
    ensures var s := Run(steps); var tx := s.txs[k];
            && tx.amount > 0
            && HasFive(Schedule.HistoryOf(Schedule.Run(s.probes).log, tx.resourceId))
            && exists a: nat :: Matures(s, a, tx.resourceId, tx.amount, tx.now)
                           && var auth := s.txs[s.authorised[a].tx];
                              auth.bond.Some? ==> tx.amount <= auth.bond.value
  {
    hide Schedule.Run, Schedule.HistoryOf, HasFive, Run;
    RunInv(steps);
    var s := Run(steps);
    assert BroadcastOk(s, s.txs[k]);
    var a: nat :| Matures(s, a, s.txs[k].resourceId, s.txs[k].amount, s.txs[k].now);
    assert AuthOk(s, s.txs[s.authorised[a].tx]);
  }

  // A bond is cut only under such an authorization, a full dispute window of chain time after it was
  // accepted; it was not cancelled, and no authorization cuts twice.
  lemma EverySlashIsAuthorised(steps: seq<Step>, j: nat)
    requires j < |Run(steps).slashed|
    ensures var s := Run(steps); var x := s.slashed[j];
            && SlashOk(s, x)
            && HasFive(Schedule.HistoryOf(Schedule.Run(s.probes).log, s.txs[x.tx].resourceId))
            && forall i | 0 <= i < |s.slashed| && i != j :: s.slashed[i].auth != x.auth
  {
    hide Schedule.Run, Schedule.HistoryOf, HasFive, Run, BroadcastOk;
    RunInv(steps);
    var s := Run(steps);
    assert SlashOk(s, s.slashed[j]);
    assert AuthOk(s, s.txs[s.authorised[s.slashed[j].auth].tx]);
  }

  // ---------- Custody ----------

  ghost function Custody(c: Chain): int { Sum(c.bonds.Keys, c.bonds) + c.pool }

  lemma BondChanges(bonds: map<string, int>, r: string, b: int)
    ensures Sum(bonds[r := b].Keys, bonds[r := b]) == Sum(bonds.Keys, bonds) - Weight(r, bonds) + b
  {
    var after := bonds[r := b];
    var rest := bonds.Keys - {r};
    assert after.Keys == rest + {r};
    SumAdd(rest, after, r);
    SumSame(rest, bonds, after);
    if r in bonds {
      SumRemove(bonds.Keys, bonds, r);
    } else {
      assert rest == bonds.Keys;
    }
  }

  ghost predicate CustodyOk(s: Sys) {
    Custody(s.chain) == s.paidIn && s.chain.pool >= 0 && forall r :: Bond(s.chain, r) >= 0
  }

  lemma SetBond(s: Sys, t: Sys, r: string, b: nat, pool: int)
    requires CustodyOk(s) && pool >= s.chain.pool
    requires t.chain.bonds == s.chain.bonds[r := b] && t.chain.pool == pool
    requires t.paidIn == s.paidIn - Bond(s.chain, r) + b + pool - s.chain.pool
    ensures CustodyOk(t)
  {
    BondChanges(s.chain.bonds, r, b);
    forall q ensures Bond(t.chain, q) >= 0 {
      assert Bond(s.chain, q) >= 0;
    }
  }

  lemma SameBonds(s: Sys, t: Sys)
    requires CustodyOk(s) && t.chain.bonds == s.chain.bonds && t.chain.pool >= 0
    requires t.paidIn - t.chain.pool == s.paidIn - s.chain.pool
    ensures CustodyOk(t)
  {
    forall q ensures Bond(t.chain, q) >= 0 {
      assert Bond(s.chain, q) >= 0;
    }
  }

  lemma NextKeepsCustody(s: Sys, step: Step)
    requires CustodyOk(s)
    ensures CustodyOk(Next(s, step))
  {
    hide CustodyOk, Applied, Raised, MayRecord, MayExecute;
    var t := Next(s, step);
    match step
    case Land(k) => {
      if t.chain.bonds == s.chain.bonds && t.chain.pool == s.chain.pool {
        PoolPositive(s);
        SameBonds(s, t);
      } else {
        var r, amount := s.txs[k].resourceId, s.txs[k].amount;
        SetBond(s, t, r, Bond(s.chain, r) - amount, s.chain.pool + amount);
      }
    }
    case Deposit(r, amount) => {
      BondPositive(s, r);
      SetBond(s, t, r, Bond(s.chain, r) + amount, s.chain.pool);
    }
    case Withdraw(r) => SetBond(s, t, r, 0, s.chain.pool);
    case _ => {
      PoolPositive(s);
      SameBonds(s, t);
    }
  }

  lemma BondPositive(s: Sys, r: string)
    requires CustodyOk(s)
    ensures Bond(s.chain, r) >= 0
  {
  }

  lemma PoolPositive(s: Sys)
    requires CustodyOk(s)
    ensures s.chain.pool >= 0
  {
  }

  // A slash only moves money from the bond to the insurance pool: what the vault holds is what was
  // deposited less what was withdrawn and refunded, and no bond and no pool goes below zero.
  lemma {:induction false} CustodyIsConserved(steps: seq<Step>)
    ensures var s := Run(steps);
            Custody(s.chain) == s.paidIn && s.chain.pool >= 0 && forall r :: Bond(s.chain, r) >= 0
  {
    if steps != [] {
      hide Next;
      CustodyIsConserved(steps[..|steps| - 1]);
      NextKeepsCustody(Run(steps[..|steps| - 1]), steps[|steps| - 1]);
    }
  }

  // ---------- What Executed means ----------

  // When the broadcast lands at once and the caller's clock is not ahead of the chain, it cuts the
  // bond if and only if the bond still covers the amount: the driver does not read it again.
  lemma LandsExactly(s: Sys, r: string, amount: int, now: int)
    requires Inv(s) && MayExecute(s.chain, r, amount, now) && now <= s.chain.time && |s.txs| !in s.landed
    ensures var t := Next(ExecuteStep(s, r, amount, now), Land(|s.txs|));
            if amount <= Bond(s.chain, r)
            then Paid(s.chain, t.chain, r, amount) && |t.slashed| == |s.slashed| + 1
            else t.chain == s.chain && t.slashed == s.slashed
  {
    hide Failing, TxsOk, SlashesOk, CancelledOk;
    assert r in s.current;
  }

  // The amount went from the bond to the pool and the authorization is used up; nothing else changed.
  predicate Paid(c: Chain, d: Chain, r: string, amount: int) {
    && Bond(d, r) == Bond(c, r) - amount && d.pool == c.pool + amount && r !in d.pending
    && d.bonds == c.bonds[r := Bond(d, r)] && d.pending == c.pending - {r}
    && d.time == c.time && d.registered == c.registered
  }

  // An authorization that is broadcast carries the bond that was read, where the driver reads it.
  lemma RecordedBond(s: Sys, i: nat, amount: int, hasReader: bool)
    requires Raised(s, i)
    ensures var t, r := RecordStep(s, i, amount, hasReader), Applied(s)[i].transition.review.value.resourceId;
            t.txs != s.txs ==>
              && t.txs == s.txs + [t.txs[|s.txs|]] && t.txs[|s.txs|].AuthTx?
              && t.txs[|s.txs|].resourceId == r && t.txs[|s.txs|].amount == amount
              && (hasReader <==> t.txs[|s.txs|].bond.Some?)
              && (hasReader ==> IsBond(s.chain, r, t.txs[|s.txs|].bond.value))
  {
    hide Applied;
  }

  // ---------- A slash that goes through ----------

  // What the whole path of a slash does: recorded, landed, executed once the window has passed, and
  // landed again, with nothing in between.
  function SlashPath(s: Sys, i: nat, r: string, amount: int, hasReader: bool, time: nat, now: int): seq<Step> {
    [Record(i, amount, hasReader), Land(|s.txs|), Tick(time), Execute(r, amount, now), Land(|s.txs| + 1)]
  }

  lemma Snoc(steps: seq<Step>, step: Step)
    ensures Run(steps + [step]) == Next(Run(steps), step)
  {
    assert (steps + [step])[..|steps|] == steps;
  }

  // In every run a review that was handed over can be made good: for a registered resource, any
  // positive amount the bond covers is moved to the pool once the dispute window has passed.
  lemma SlashGoesThrough(steps: seq<Step>, i: nat, amount: int, hasReader: bool, time: nat, now: int) returns (more: seq<Step>)
    requires Raised(Run(steps), i)
    requires var s := Run(steps); var r := Applied(s)[i].transition.review.value.resourceId;
             && r in s.chain.registered && 0 < amount <= Bond(s.chain, r)
             && s.chain.time + 86400 <= time && s.chain.time + 86400 <= now
    ensures var s, t := Run(steps), Run(more); var r := Applied(s)[i].transition.review.value.resourceId;
            && Bond(t.chain, r) == Bond(s.chain, r) - amount && t.chain.pool == s.chain.pool + amount
            && |t.slashed| == |s.slashed| + 1 && t.slashed[|s.slashed|].at == time
  {
    hide Run, Applied, Inv;
    var s := Run(steps);
    var review := Applied(s)[i].transition.review.value;
    var r := review.resourceId;
    ReviewIsFive(s, i);
    RunLands(steps);
    var n := |s.txs|;
    assert n !in s.landed && n + 1 !in s.landed by {
      LandedWithin(s);
    }
    var path := SlashPath(s, i, r, amount, hasReader, time, now);
    Snoc(steps, path[0]);
    more := steps + [path[0]];
    Snoc(more, path[1]);
    more := more + [path[1]];
    Snoc(more, path[2]);
    more := more + [path[2]];
    Snoc(more, path[3]);
    more := more + [path[3]];
    Snoc(more, path[4]);
    more := more + [path[4]];
  }

  lemma ReviewIsFive(s: Sys, i: nat)
    requires Raised(s, i)
    ensures Applied(s)[i].transition.review.value.consecutiveFailures >= STRIKE_LIMIT
  {
    Schedule.ReviewHasFive(s.probes, i);
    Schedule.DeactivationHasFive(s.probes, i);
  }

  // ---------- What lands, lands once ----------

  // Authorizations and cuts come from transactions that landed, each from its own, and an
  // authorization from one for a registered resource.
  ghost predicate LandsOk(s: Sys) {
    && (forall k | k in s.landed :: k < |s.txs|)
    && (forall a | 0 <= a < |s.authorised| :: AuthLanded(s, s.authorised[a]))
    && (forall a, b | 0 <= a < b < |s.authorised| :: s.authorised[a].tx != s.authorised[b].tx)
    && (forall j | 0 <= j < |s.slashed| :: s.slashed[j].tx in s.landed)
    && (forall i, j | 0 <= i < j < |s.slashed| :: s.slashed[i].tx != s.slashed[j].tx)
  }

  predicate AuthLanded(s: Sys, x: Authorised) {
    && x.tx in s.landed && x.tx < |s.txs| && s.txs[x.tx].AuthTx?
    && s.txs[x.tx].resourceId in s.chain.registered
  }

  lemma LandedWithin(s: Sys)
    requires LandsOk(s)
    ensures forall k | k in s.landed :: k < |s.txs|
  {
  }

  lemma NextKeepsLands(s: Sys, step: Step)
    requires LandsOk(s)
    ensures LandsOk(Next(s, step))
  {
    hide Applied, Consumable, MayRecord, MayExecute;
    var t := Next(s, step);
    forall a | 0 <= a < |t.authorised| ensures AuthLanded(t, t.authorised[a]) {
      if a < |s.authorised| {
        assert AuthLanded(s, s.authorised[a]);
      }
    }
  }

  lemma {:induction false} RunLands(steps: seq<Step>)
    ensures LandsOk(Run(steps))
  {
    if steps != [] {
      hide LandsOk, Next;
      RunLands(steps[..|steps| - 1]);
      NextKeepsLands(Run(steps[..|steps| - 1]), steps[|steps| - 1]);
    }
  }

  // ---------- Cancelled for good ----------

  lemma NextKeepsCancelled(s: Sys, step: Step)
    ensures s.cancelled <= Next(s, step).cancelled
  {
    hide Applied, Consumable, MayRecord, MayExecute;
  }

  lemma {:induction false} RunKeepsCancelled(before: seq<Step>, after: seq<Step>)
    ensures Run(before).cancelled <= Run(before + after).cancelled
  {
    if after == [] {
      assert before + after == before;
    } else {
      hide Next;
      var front := after[..|after| - 1];
      RunKeepsCancelled(before, front);
      assert (before + after)[..|before + after| - 1] == before + front;
      NextKeepsCancelled(Run(before + front), after[|after| - 1]);
    }
  }

  // Once the pending authorization of a resource is cancelled, whatever is broadcast already or
  // later, it is pending no more and cuts no bond.
  lemma CancelledNeverCuts(before: seq<Step>, after: seq<Step>, r: string)
    requires r in Run(before).chain.pending && r in Run(before).current
    ensures r !in Run(before + [Cancel(r)]).chain.pending
    ensures var t := Run(before + [Cancel(r)] + after);
            forall j | 0 <= j < |t.slashed| :: t.slashed[j].auth != Run(before).current[r]
  {
    hide Run;
    Snoc(before, Cancel(r));
    RunKeepsCancelled(before + [Cancel(r)], after);
    RunInv(before + [Cancel(r)] + after);
    var t := Run(before + [Cancel(r)] + after);
    forall j | 0 <= j < |t.slashed| ensures t.slashed[j].auth != Run(before).current[r] {
      assert SlashOk(t, t.slashed[j]);
    }
  }
}
