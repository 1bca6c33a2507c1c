// The facilitator over the reservation store and the escrow contract
// (services/facilitator/src/verify.ts, settle.ts, app.ts, packages/x402-arc/src/store.ts,
// contracts/src/PaymentEscrow.sol): every await of a request is a step of its own, requests run on
// whoever stops listening, and a transaction lands when it lands.
module Facilitator {
  import opened Prelude
  import opened PaymentStore

  // A nonce names one signed authorization: a replayed header is the same one. The stores key on its
  // text; the signature and the contract see its bytes, which both letter cases spell.
  datatype Auth = Auth(buyer: string, resourceId: string, cap: nat, validBefore: int)

  type Book = Nonce -> Auth

  function Signed(n: Nonce): Nonce { Lower(n) }

  function Terms(book: Book, n: Nonce): Auth { book(Signed(n)) }

  // A verify waits for its buyer's lock, reads the balance, sums the open reservations, asks whether
  // the nonce is pending, asks the chain whether it is used, and reserves.
  datatype VerifyStage = Queued | BalanceRead(balance: int) | Covered | Free | Unused | Reserved | Refused

  datatype Verify = Verify(nonce: Nonce, ttl: nat, stage: VerifyStage)

  // What a settle answers: the transaction it waited for, or none when rebuilt from the Debited event.
  datatype Receipt = Receipt(amount: nat, tx: Option<nat>)

  // A settle asks whether the nonce is pending, looks for a stored result, once more inside settle(),
  // sends the debit, waits for its receipt, marks the nonce spent and stores the result.
  datatype SettleStage =
    | Asked
    | PendingRead(live: bool)
    | Admitted
    | NotStored
    | Waiting(tx: nat)
    | Confirmed(receipt: Receipt)
    | Marked(receipt: Receipt)
    | Answered(answer: Option<Receipt>)

  datatype Settle = Settle(nonce: Nonce, amount: int, stage: SettleStage)

  // A broadcast debit: not yet mined, or mined with or without success.
  datatype Tx = Tx(nonce: Nonce, amount: nat, outcome: Option<bool>)

  // The contract's balances and used nonces, as signed, and the transactions sent to it; beside them
  // what was deposited, and the debits that landed on a nonce without a live reservation or while a
  // verify of the buyer was between its two reads.
  datatype Chain = Chain(
    bal: map<string, int>,
    debited: map<Nonce, nat>,
    txs: seq<Tx>,
    deposited: map<string, int>,
    unreserved: map<string, int>,
    windowed: map<string, int>)

  datatype Sys = Sys(
    now: int,
    store: Store,
    chain: Chain,
    results: map<Nonce, Receipt>,
    verifies: map<nat, Verify>,
    settles: map<nat, Settle>)

  const START: Sys :=
    Sys(0, PaymentStore.EMPTY, Chain(map[], map[], [], map[], map[], map[]), map[], map[], map[])

  function Account(book: Book, n: Nonce): string { Lower(Terms(book, n).buyer) }

  function Balance(c: Chain, account: string): int { Weight(account, c.bal) }

  function Expired(book: Book, n: Nonce, now: int): bool { Terms(book, n).validBefore <= now / 1000 }

  // ---------- Verify ----------

  // Between its reads and its reserve a verify holds its buyer's lock.
  predicate Holds(x: Verify) {
    x.stage.BalanceRead? || x.stage.Covered? || x.stage.Free? || x.stage.Unused?
  }

  ghost predicate Locked(book: Book, s: Sys, account: string) {
    exists j :: j in s.verifies && Holds(s.verifies[j]) && Account(book, s.verifies[j].nonce) == account
  }

  function LockFor(book: Book, n: Nonce, expiresAt: int): Lock {
    Lock(n, Terms(book, n).buyer, Terms(book, n).cap, Terms(book, n).resourceId, expiresAt)
  }

  function FirstStage(book: Book, n: Nonce, resourceId: string, now: int): VerifyStage {
    if Lower(Terms(book, n).resourceId) != Lower(resourceId) || Expired(book, n, now) then Refused else Queued
  }

  // What one await of a verify does to the store, and where it leaves the verify.
  ghost function VerifyNext(book: Book, s: Sys, x: Verify): (Store, VerifyStage) {
    var n := x.nonce;
    var a := Account(book, n);
    match x.stage
    case Queued => (s.store, if Locked(book, s, a) then Queued else BalanceRead(Balance(s.chain, a)))
    case BalanceRead(balance) =>
      (Fresh(s.store, s.now), if Terms(book, n).cap <= balance - Outstanding(s.store, a, s.now) then Covered else Refused)
    case Covered => (Touched(s.store, n, s.now), if IsLive(s.store, n, s.now) then Refused else Free)
    case Free => (s.store, if Signed(n) in s.chain.debited then Refused else Unused)
    case Unused =>
      if n in s.store.spent || IsLive(s.store, n, s.now) then (s.store, Refused)
      else (WithLock(s.store, LockFor(book, n, s.now + x.ttl)), Reserved)
    case Reserved => (s.store, Reserved)
    case Refused => (s.store, Refused)
  }

  function WithLock(store: Store, lock: Lock): Store {
    store.(reservations := store.reservations[lock.idemKey := lock])
  }

  function Verified(s: Sys, j: nat, store: Store, stage: VerifyStage): Sys
    requires j in s.verifies
  {
    s.(store := store, verifies := s.verifies[j := s.verifies[j].(stage := stage)])
  }

  // ---------- Settle ----------

  function DebitOf(book: Book, x: Settle): nat {
    if x.amount < 0 then 0 else if x.amount < Terms(book, x.nonce).cap then x.amount else Terms(book, x.nonce).cap
  }

  // Whether the contract takes a debit as things stand.
  predicate Takes(book: Book, s: Sys, n: Nonce, amount: nat) {
    Signed(n) !in s.chain.debited && s.now / 1000 <= Terms(book, n).validBefore && amount <= Balance(s.chain, Account(book, n))
  }

  // What one await of a settle does: to the store, to the transactions sent, to the results.
  datatype Effect = Effect(store: Store, sent: seq<Tx>, results: map<Nonce, Receipt>, stage: SettleStage)

  function Moves(s: Sys, stage: SettleStage): Effect { Effect(s.store, [], s.results, stage) }

  // A debit the contract would refuse now is not sent; a used nonce has its receipt rebuilt.
  function Send(book: Book, s: Sys, x: Settle): Effect {
    if Signed(x.nonce) in s.chain.debited then Moves(s, Confirmed(Receipt(s.chain.debited[Signed(x.nonce)], None)))
    else if Takes(book, s, x.nonce, DebitOf(book, x)) then
      Effect(s.store, [Tx(x.nonce, DebitOf(book, x), None)], s.results, Waiting(|s.chain.txs|))
    else Moves(s, Answered(None))
  }

  function SettleNext(book: Book, s: Sys, x: Settle): Effect {
    var n := x.nonce;
    match x.stage
    case Asked => Moves(s, PendingRead(IsLive(s.store, n, s.now))).(store := Touched(s.store, n, s.now))
    case PendingRead(live) =>
      if n in s.results then Moves(s, Admitted)
      else if !live then Moves(s, Answered(None))
      else if Expired(book, n, s.now) then Moves(s, Answered(None)).(store := Forget(s.store, n))
      else Moves(s, Admitted)
    case Admitted => Moves(s, if n in s.results then Answered(Some(s.results[n])) else NotStored)
    case NotStored => Send(book, s, x)
    case Waiting(t) =>
      // waitForTransactionReceipt answers for a reverted transaction too, and nobody looks.
      if t < |s.chain.txs| && s.chain.txs[t].outcome.Some?
      then Moves(s, Confirmed(Receipt(s.chain.txs[t].amount, Some(t)))) else Moves(s, x.stage)
    case Confirmed(r) => Moves(s, Marked(r)).(store := Spent(s.store, n))
    case Marked(r) => Moves(s, Answered(Some(r))).(results := s.results[n := r])
    case Answered(_) => Moves(s, x.stage)
  }

  function Spent(store: Store, n: Nonce): Store { Forget(store, n).(spent := store.spent + {n}) }

  function Settled(s: Sys, k: nat, e: Effect): Sys
    requires k in s.settles
  {
    s.(store := e.store, chain := s.chain.(txs := s.chain.txs + e.sent), results := e.results,
       settles := s.settles[k := s.settles[k].(stage := e.stage)])
  }

  // ---------- The chain ----------

  function Plus(m: map<string, int>, account: string, amount: int): map<string, int> {
    m[account := Weight(account, m) + amount]
  }

  function Debit(book: Book, c: Chain, n: Nonce, amount: nat): Chain {
    c.(bal := Plus(c.bal, Account(book, n), 0 - (amount as int)), debited := c.debited[Signed(n) := amount])
  }

  // A verify of the account has read the balance and has yet to sum the open reservations.
  ghost predicate Exposed(book: Book, s: Sys, account: string) {
    exists j :: j in s.verifies && s.verifies[j].stage.BalanceRead? && Account(book, s.verifies[j].nonce) == account
  }

  // A debit no live reservation covers, and one that lands between a verify's two reads, are noted.
  ghost function Noted(book: Book, s: Sys, n: Nonce, amount: nat, c: Chain): Chain {
    var a := Account(book, n);
    if !IsLive(s.store, n, s.now) then c.(unreserved := Plus(c.unreserved, a, amount))
    else if Exposed(book, s, a) then c.(windowed := Plus(c.windowed, a, amount))
    else c
  }

  // A mined transaction succeeds if the contract takes it then, and reverts otherwise.
  ghost function Mined(book: Book, s: Sys, t: nat): Chain
    requires t < |s.chain.txs|
  {
    var tx, c := s.chain.txs[t], s.chain;
    if !Takes(book, s, tx.nonce, tx.amount) then c.(txs := c.txs[t := tx.(outcome := Some(false))])
    else
      Noted(book, s, tx.nonce, tx.amount,
            Debit(book, c.(txs := c.txs[t := tx.(outcome := Some(true))]), tx.nonce, tx.amount))
  }

  lemma NotedSame(book: Book, s: Sys, n: Nonce, amount: nat, c: Chain)
    ensures var d := Noted(book, s, n, amount, c); d == c.(unreserved := d.unreserved, windowed := d.windowed)
  {
  }

  function Funded(c: Chain, account: string, amount: nat): Chain {
    c.(bal := Plus(c.bal, account, amount), deposited := Plus(c.deposited, account, amount))
  }

  // ---------- Runs ----------

  datatype Step =
    | StartVerify(j: nat, nonce: Nonce, resourceId: string, ttl: nat)
    | OnVerify(j: nat)
    | VerifyFails(j: nat)
    | StartSettle(k: nat, nonce: Nonce, amount: int)
    | OnSettle(k: nat)
    | SettleFails(k: nat)
    | Release(nonce: Nonce)
    | Land(t: nat)
    | DropResult(nonce: Nonce)
    | Sweep
    | Deposit(account: string, deposit: nat)
    | Tick(time: int)

  // A step that is not enabled changes nothing. A request can fail at any await.
  ghost function Next(book: Book, s: Sys, step: Step): Sys {
    match step
    case StartVerify(j, n, resourceId, ttl) =>
      if j in s.verifies then s
      else s.(verifies := s.verifies[j := Verify(n, ttl, FirstStage(book, n, resourceId, s.now))])
    case OnVerify(j) =>
      if j !in s.verifies then s
      else
        var (store, stage) := VerifyNext(book, s, s.verifies[j]);
        Verified(s, j, store, stage)
    case VerifyFails(j) =>
      if j in s.verifies && !s.verifies[j].stage.Reserved? then Verified(s, j, s.store, Refused) else s
    case StartSettle(k, n, amount) =>
      if k in s.settles then s
      else s.(settles := s.settles[k := Settle(n, amount, if amount < 0 then Answered(None) else Asked)])
    case OnSettle(k) => if k in s.settles then Settled(s, k, SettleNext(book, s, s.settles[k])) else s
    case SettleFails(k) =>
      if k in s.settles && !s.settles[k].stage.Answered? then Settled(s, k, Moves(s, Answered(None))) else s
    case Release(n) => s.(store := Forget(s.store, n))
    case Land(t) => if t < |s.chain.txs| && s.chain.txs[t].outcome.None? then s.(chain := Mined(book, s, t)) else s
    case DropResult(n) => s.(results := s.results - {n})
    case Sweep => s.(store := Fresh(s.store, s.now))
    case Deposit(a, amount) => s.(chain := Funded(s.chain, a, amount))
    case Tick(time) => if s.now <= time then s.(now := time) else s
  }

  ghost function RunFrom(book: Book, s: Sys, steps: seq<Step>): Sys {
    if steps == [] then s else Next(book, RunFrom(book, s, steps[..|steps| - 1]), steps[|steps| - 1])
  }

  ghost function Run(book: Book, steps: seq<Step>): Sys { RunFrom(book, START, steps) }

  // ---------- What only grows ----------

  // Debits stay, transactions stay mined.
  ghost predicate ChainGrows(c: Chain, d: Chain) {
    && (forall n | n in c.debited :: n in d.debited && d.debited[n] == c.debited[n])
    && |c.txs| <= |d.txs|
    && (forall i | 0 <= i < |c.txs| ::
          && d.txs[i].nonce == c.txs[i].nonce && d.txs[i].amount == c.txs[i].amount
          && (c.txs[i].outcome.Some? ==> d.txs[i] == c.txs[i]))
  }

  ghost predicate JobsStay(s: Sys, t: Sys) {
    && (forall j | j in s.verifies :: j in t.verifies && t.verifies[j].nonce == s.verifies[j].nonce)
    && (forall k | k in s.settles ::
          k in t.settles && t.settles[k].nonce == s.settles[k].nonce && t.settles[k].amount == s.settles[k].amount)
  }

  ghost predicate Extends(s: Sys, t: Sys) {
    ChainGrows(s.chain, t.chain) && s.store.spent <= t.store.spent && JobsStay(s, t)
  }

  lemma VerifyKeepsSpent(book: Book, s: Sys, x: Verify)
    ensures VerifyNext(book, s, x).0.spent == s.store.spent
  {
    hide Locked, Outstanding, IsLive;
  }

  lemma SettleKeepsSpent(book: Book, s: Sys, x: Settle)
    ensures s.store.spent <= SettleNext(book, s, x).store.spent
    ensures |SettleNext(book, s, x).sent| <= 1
  {
    hide Takes, IsLive, Expired, DebitOf;
  }

  // A landing decides one transaction and, if it succeeds, debits its nonce for the first time.
  ghost predicate Lands(c: Chain, d: Chain, t: nat) {
    && t < |c.txs| == |d.txs|
    && (forall i | 0 <= i < |c.txs| && i != t :: d.txs[i] == c.txs[i])
    && d.txs[t].nonce == c.txs[t].nonce && d.txs[t].amount == c.txs[t].amount && d.txs[t].outcome.Some?
    && d.deposited == c.deposited
    && if d.txs[t].outcome.value
       then Signed(c.txs[t].nonce) !in c.debited && d.debited == c.debited[Signed(c.txs[t].nonce) := c.txs[t].amount]
       else d == c.(txs := d.txs)
  }

  lemma MinedLands(book: Book, s: Sys, t: nat)
    requires t < |s.chain.txs|
    ensures Lands(s.chain, Mined(book, s, t), t)
  {
    hide Noted, Account, Balance, Plus, Takes;
    var tx := s.chain.txs[t];
    TakesFresh(book, s, tx.nonce, tx.amount);
    NotedSame(book, s, tx.nonce, tx.amount,
              Debit(book, s.chain.(txs := s.chain.txs[t := tx.(outcome := Some(true))]), tx.nonce, tx.amount));
  }

  lemma LandingGrows(c: Chain, d: Chain, t: nat)
    requires Lands(c, d, t) && c.txs[t].outcome.None?
    ensures ChainGrows(c, d)
  {
  }

  lemma TakesFresh(book: Book, s: Sys, n: Nonce, amount: nat)
    ensures Takes(book, s, n, amount) ==> Signed(n) !in s.chain.debited && amount <= Balance(s.chain, Account(book, n))
  {
  }

  lemma ChainSame(c: Chain, d: Chain)
    requires d.debited == c.debited && c.txs <= d.txs
    ensures ChainGrows(c, d)
  {
  }

  lemma NextExtends(book: Book, s: Sys, step: Step)
    ensures Extends(s, Next(book, s, step))
  {
    hide VerifyNext, SettleNext, Mined, FirstStage, ChainGrows, Plus;
    if !step.Land? || Next(book, s, step) == s {
      ChainSame(s.chain, Next(book, s, step).chain);
    }
    match step
    case OnVerify(j) => {
      if j in s.verifies {
        VerifyKeepsSpent(book, s, s.verifies[j]);
      }
    }
    case OnSettle(k) => {
      if k in s.settles {
        SettleKeepsSpent(book, s, s.settles[k]);
      }
    }
    case Land(t) => {
      if t < |s.chain.txs| && s.chain.txs[t].outcome.None? {
        MinedLands(book, s, t);
        LandingGrows(s.chain, Mined(book, s, t), t);
      }
    }
    case _ =>
  }

  lemma ExtendsTwice(s: Sys, t: Sys, u: Sys)
    requires Extends(s, t) && Extends(t, u)
    ensures Extends(s, u)
  {
  }

  lemma ExtendsSelf(s: Sys)
    ensures Extends(s, s)
  {
  }

  lemma {:induction false} RunExtends(book: Book, s: Sys, steps: seq<Step>)
    ensures Extends(s, RunFrom(book, s, steps))
  {
    hide Next, Extends;
    if steps == [] {
      ExtendsSelf(s);
    } else {
      var front := steps[..|steps| - 1];
      RunExtends(book, s, front);
      NextExtends(book, RunFrom(book, s, front), steps[|steps| - 1]);
      ExtendsTwice(s, RunFrom(book, s, front), RunFrom(book, s, steps));
    }
  }

  lemma {:induction false} RunSplit(book: Book, s: Sys, before: seq<Step>, after: seq<Step>)
    ensures RunFrom(book, s, before + after) == RunFrom(book, RunFrom(book, s, before), after)
  {
    hide Next;
    if after == [] {
      assert before + after == before;
    } else {
      RunSplit(book, s, before, after[..|after| - 1]);
      assert (before + after)[..|before + after| - 1] == before + after[..|after| - 1];
    }
  }

  // ---------- What is debited ----------

  // Some settle on the signed nonce asked for this, clamped to the cap.
  ghost predicate AskedBy(book: Book, s: Sys, n: Nonce, amount: nat) {
    exists k :: k in s.settles && Signed(s.settles[k].nonce) == n && s.settles[k].amount >= 0 && DebitOf(book, s.settles[k]) == amount
  }

  ghost predicate LandedWith(c: Chain, n: Nonce) {
    exists i :: 0 <= i < |c.txs| && Signed(c.txs[i].nonce) == n && c.txs[i].outcome == Some(true)
  }

  ghost predicate Paid(c: Chain, tx: Tx) {
    tx.outcome == Some(true) ==> Signed(tx.nonce) in c.debited && c.debited[Signed(tx.nonce)] == tx.amount
  }

  ghost predicate ChainOk(book: Book, s: Sys) {
    && (forall i | 0 <= i < |s.chain.txs| ::
          AskedBy(book, s, Signed(s.chain.txs[i].nonce), s.chain.txs[i].amount) && Paid(s.chain, s.chain.txs[i]))
    && (forall n | n in s.chain.debited :: LandedWith(s.chain, n))
    && (forall k | k in s.settles :: s.settles[k].amount < 0 ==> s.settles[k].stage == Answered(None))
  }

  lemma AskedStands(book: Book, s: Sys, t: Sys, n: Nonce, amount: nat)
    requires AskedBy(book, s, n, amount) && JobsStay(s, t)
    ensures AskedBy(book, t, n, amount)
  {
    var k :| k in s.settles && Signed(s.settles[k].nonce) == n && s.settles[k].amount >= 0 && DebitOf(book, s.settles[k]) == amount;
    assert k in t.settles && DebitOf(book, t.settles[k]) == amount;
  }

  lemma LandedStands(c: Chain, d: Chain, n: Nonce)
    requires LandedWith(c, n) && ChainGrows(c, d)
    ensures LandedWith(d, n)
  {
    var i :| 0 <= i < |c.txs| && Signed(c.txs[i].nonce) == n && c.txs[i].outcome == Some(true);
    assert d.txs[i] == c.txs[i];
  }

  // Steps that debit nothing: at most one transaction more, asked by a settle.
  lemma QuietKeepsChain(book: Book, s: Sys, t: Sys)
    requires ChainOk(book, s) && Extends(s, t) && t.chain.debited == s.chain.debited
    requires s.chain.txs <= t.chain.txs
    requires forall i | |s.chain.txs| <= i < |t.chain.txs| ::
               t.chain.txs[i].outcome.None? && AskedBy(book, t, Signed(t.chain.txs[i].nonce), t.chain.txs[i].amount)
    requires forall k | k in t.settles :: t.settles[k].amount < 0 ==> t.settles[k].stage == Answered(None)
    ensures ChainOk(book, t)
  {
    hide AskedBy, LandedWith, ChainGrows, JobsStay;
    forall i | 0 <= i < |t.chain.txs|
      ensures AskedBy(book, t, Signed(t.chain.txs[i].nonce), t.chain.txs[i].amount) && Paid(t.chain, t.chain.txs[i])
    {
      if i < |s.chain.txs| {
        AskedStands(book, s, t, Signed(s.chain.txs[i].nonce), s.chain.txs[i].amount);
      }
    }
    forall n | n in t.chain.debited ensures LandedWith(t.chain, n) {
      LandedStands(s.chain, t.chain, n);
    }
  }

  lemma SettleSends(book: Book, s: Sys, x: Settle)
    ensures var e := SettleNext(book, s, x);
            && (e.sent == [] || e.sent == [Tx(x.nonce, DebitOf(book, x), None)])
            && (x.stage.Answered? ==> e == Moves(s, x.stage))
  {
    hide Takes, IsLive, Expired, DebitOf;
  }

  lemma SettleKeepsChain(book: Book, s: Sys, k: nat)
    requires ChainOk(book, s) && k in s.settles
    ensures ChainOk(book, Settled(s, k, SettleNext(book, s, s.settles[k])))
  {
    hide Extends, LandedWith, SettleNext, Paid, AskedBy;
    var x := s.settles[k];
    var t := Settled(s, k, SettleNext(book, s, x));
    SettleSends(book, s, x);
    NextExtends(book, s, OnSettle(k));
    if x.amount >= 0 {
      Asks(book, t, k);
    }
    QuietKeepsChain(book, s, t);
  }

  lemma Asks(book: Book, s: Sys, k: nat)
    requires k in s.settles && s.settles[k].amount >= 0
    ensures AskedBy(book, s, Signed(s.settles[k].nonce), DebitOf(book, s.settles[k]))
  {
  }

  lemma LandKeepsChain(book: Book, s: Sys, t: nat)
    requires ChainOk(book, s) && t < |s.chain.txs| && s.chain.txs[t].outcome.None?
    ensures ChainOk(book, s.(chain := Mined(book, s, t)))
  {
    hide Mined, AskedBy, DebitOf;
    var u := s.(chain := Mined(book, s, t));
    MinedLands(book, s, t);
    LandingGrows(s.chain, u.chain, t);
    forall i | 0 <= i < |u.chain.txs|
      ensures AskedBy(book, u, Signed(u.chain.txs[i].nonce), u.chain.txs[i].amount) && Paid(u.chain, u.chain.txs[i])
    {
      AskedStands(book, s, u, Signed(s.chain.txs[i].nonce), s.chain.txs[i].amount);
      assert Paid(s.chain, s.chain.txs[i]);
    }
    forall n | n in u.chain.debited ensures LandedWith(u.chain, n) {
      if n in s.chain.debited {
        LandedStands(s.chain, u.chain, n);
      } else {
        assert Signed(u.chain.txs[t].nonce) == n && u.chain.txs[t].outcome == Some(true);
      }
    }
  }

  lemma NextKeepsChain(book: Book, s: Sys, step: Step)
    requires ChainOk(book, s)
    ensures ChainOk(book, Next(book, s, step))
  {
    hide Extends, AskedBy, LandedWith, VerifyNext, SettleNext, Mined, FirstStage, Paid, Fresh, Forget, Plus;
    var t := Next(book, s, step);
    NextExtends(book, s, step);
    match step
    case Land(i) => {
      if i < |s.chain.txs| && s.chain.txs[i].outcome.None? {
        LandKeepsChain(book, s, i);
      }
    }
    case OnSettle(k) => {
      if k in s.settles {
        SettleKeepsChain(book, s, k);
      }
    }
    case StartSettle(_, _, _) => QuietKeepsChain(book, s, t);
    case SettleFails(_) => QuietKeepsChain(book, s, t);
    case _ => SettlesStandKeepsChain(book, s, t);
  }

  // Steps that touch no settle and debit nothing.
  lemma SettlesStandKeepsChain(book: Book, s: Sys, t: Sys)
    requires ChainOk(book, s) && Extends(s, t) && t.settles == s.settles
    requires t.chain.txs == s.chain.txs && t.chain.debited == s.chain.debited
    ensures ChainOk(book, t)
  {
    hide Extends, AskedBy, LandedWith, Paid;
    QuietKeepsChain(book, s, t);
  }

  lemma {:induction false} RunChain(book: Book, steps: seq<Step>)
    ensures ChainOk(book, Run(book, steps))
  {
    if steps != [] {
      hide ChainOk, Next;
      RunChain(book, steps[..|steps| - 1]);
      NextKeepsChain(book, Run(book, steps[..|steps| - 1]), steps[|steps| - 1]);
    }
  }

  // Whatever is replayed, respelled or retried, a signed nonce is debited at most once, for what some
  // settle on it asked, clamped to its signed cap.
  lemma DebitedOnceWithinCap(book: Book, before: seq<Step>, after: seq<Step>, n: Nonce)
    requires n in Run(book, before).chain.debited
    ensures var c, d := Run(book, before).chain, Run(book, before + after).chain;
            && n in d.debited && d.debited[n] == c.debited[n] <= book(n).cap
            && AskedBy(book, Run(book, before), n, c.debited[n])
  {
    hide Next, AskedBy;
    RunSplit(book, START, before, after);
    RunExtends(book, Run(book, before), after);
    RunChain(book, before);
    var s := Run(book, before);
    var i :| 0 <= i < |s.chain.txs| && Signed(s.chain.txs[i].nonce) == n && s.chain.txs[i].outcome == Some(true);
    AskedWithinCap(book, s, n, s.chain.txs[i].amount);
  }

  lemma AskedWithinCap(book: Book, s: Sys, n: Nonce, amount: nat)
    requires AskedBy(book, s, n, amount)
    ensures amount <= book(n).cap
  {
  }

  // ---------- Where the money went ----------

  function PaidBy(book: Book, c: Chain, account: string): set<Nonce> {
    set n | n in c.debited && Lower(book(n).buyer) == account
  }

  ghost predicate Balanced(book: Book, c: Chain, account: string) {
    Balance(c, account) + Sum(PaidBy(book, c, account), c.debited) == Weight(account, c.deposited)
  }

  lemma DebitBalances(book: Book, c: Chain, d: Chain, n: Nonce, amount: nat, account: string)
    requires Balanced(book, c, account) && Signed(n) !in c.debited
    requires d.debited == c.debited[Signed(n) := amount] && d.bal == Debit(book, c, n, amount).bal && d.deposited == c.deposited
    ensures Balanced(book, d, account)
  {
    hide Signed;
    var before, after := PaidBy(book, c, account), PaidBy(book, d, account);
    SumSame(before, c.debited, d.debited);
    if Account(book, n) == account {
      assert after == before + {Signed(n)};
      SumAdd(before, d.debited, Signed(n));
    } else {
      assert after == before;
    }
  }

  lemma SameBalanced(book: Book, c: Chain, d: Chain, account: string)
    requires Balanced(book, c, account) && d.debited == c.debited
    requires Balance(d, account) - Balance(c, account) == Weight(account, d.deposited) - Weight(account, c.deposited)
    ensures Balanced(book, d, account)
  {
    assert PaidBy(book, d, account) == PaidBy(book, c, account);
  }

  lemma MinedBalanced(book: Book, s: Sys, t: nat, account: string)
    requires t < |s.chain.txs| && Balanced(book, s.chain, account)
    ensures Balanced(book, Mined(book, s, t), account)
  {
    hide Takes, Noted, Account, Balanced, Plus;
    var tx, d := s.chain.txs[t], Mined(book, s, t);
    TakesFresh(book, s, tx.nonce, tx.amount);
    NotedSame(book, s, tx.nonce, tx.amount,
              Debit(book, s.chain.(txs := s.chain.txs[t := tx.(outcome := Some(true))]), tx.nonce, tx.amount));
    if Takes(book, s, tx.nonce, tx.amount) {
      DebitBalances(book, s.chain, d, tx.nonce, tx.amount, account);
    } else {
      SameBalanced(book, s.chain, d, account);
    }
  }

  lemma NextBalanced(book: Book, s: Sys, step: Step, account: string)
    requires Balanced(book, s.chain, account)
    ensures Balanced(book, Next(book, s, step).chain, account)
  {
    hide VerifyNext, SettleNext, Mined, Balanced, FirstStage;
    var t := Next(book, s, step);
    if step.Land? && step.t < |s.chain.txs| {
      MinedBalanced(book, s, step.t, account);
    }
    if !step.Land? {
      SameBalanced(book, s.chain, t.chain, account);
    }
  }

  lemma {:induction false} RunBalanced(book: Book, steps: seq<Step>, account: string)
    ensures Balanced(book, Run(book, steps).chain, account)
  {
    if steps == [] {
      assert PaidBy(book, START.chain, account) == {};
    } else {
      hide Next;
      RunBalanced(book, steps[..|steps| - 1], account);
      NextBalanced(book, Run(book, steps[..|steps| - 1]), steps[|steps| - 1], account);
    }
  }

  // Every account holds exactly what was deposited for it less what its own nonces were debited.
  lemma BalanceIsDepositsLessDebits(book: Book, steps: seq<Step>, account: string)
    ensures var c := Run(book, steps).chain;
            Balance(c, account) + Sum(PaidBy(book, c, account), c.debited) == Weight(account, c.deposited)
  {
    hide Run;
    RunBalanced(book, steps, account);
  }
}
