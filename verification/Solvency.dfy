// What the facilitator's open reservations are worth: the balance behind them, over every
// interleaving of verifies, settles, landings, releases and time (services/facilitator/src/verify.ts,
// packages/x402-arc/src/store.ts).
module Solvency {
  import opened Prelude
  import opened PaymentStore
  import opened Facilitator

  // ---------- What is owed ----------

  // What a reservation may still draw: its cap less what its nonce has paid.
  function Claims(s: Sys): map<Nonce, int> {
    map n | n in s.store.reservations ::
      s.store.reservations[n].cap - if Signed(n) in s.chain.debited then s.chain.debited[Signed(n)] else 0
  }

  ghost function Owed(s: Sys, account: string): int {
    Sum(LiveOf(s.store, account, s.now), Claims(s))
  }

  // The balance, the debits that landed without a live reservation, and those that landed after a
  // verify of the account had read the balance and before it summed the open reservations.
  function Backing(c: Chain, account: string): int {
    Balance(c, account) + Weight(account, c.unreserved) + Weight(account, c.windowed)
  }

  ghost predicate Bounded(s: Sys, account: string) { Owed(s, account) <= Backing(s.chain, account) }

  // Reservations carry their nonce's own authorization, and no nonce paid more than its cap.
  ghost predicate Honest(book: Book, s: Sys) {
    && (forall n | n in s.store.reservations ::
          var lock := s.store.reservations[n];
          lock.idemKey == n && lock.cap == Terms(book, n).cap && lock.buyer == Terms(book, n).buyer)
    && (forall n | n in s.chain.debited :: s.chain.debited[n] <= book(n).cap)
  }

  // What a verify that holds the lock has established.
  ghost predicate Roomy(book: Book, s: Sys, x: Verify) {
    var a := Account(book, x.nonce);
    match x.stage
    case BalanceRead(balance) => balance <= Backing(s.chain, a)
    case Covered => Owed(s, a) + Terms(book, x.nonce).cap <= Backing(s.chain, a)
    case Free => Owed(s, a) + Terms(book, x.nonce).cap <= Backing(s.chain, a)
    case Unused => Owed(s, a) + Terms(book, x.nonce).cap <= Backing(s.chain, a)
    case _ => true
  }

  // One verify of an account holds its lock at a time.
  ghost predicate LocksOk(book: Book, s: Sys) {
    forall i, j | i in s.verifies && j in s.verifies && Holds(s.verifies[i]) && Holds(s.verifies[j])
                  && Account(book, s.verifies[i].nonce) == Account(book, s.verifies[j].nonce) :: i == j
  }

  ghost predicate StraysOk(c: Chain) {
    forall a :: 0 <= Weight(a, c.unreserved) && 0 <= Weight(a, c.windowed)
  }

  ghost predicate Inv(book: Book, s: Sys) {
    && Honest(book, s)
    && LocksOk(book, s)
    && StraysOk(s.chain)
    && (forall a | Lower(a) == a :: Bounded(s, a))
    && (forall j | j in s.verifies :: Roomy(book, s, s.verifies[j]))
  }

  // An account on which nothing got tighter, or which no verify holds and is bounded anyway.
  ghost predicate Easier(s: Sys, t: Sys, account: string) {
    Owed(t, account) <= Owed(s, account) && Backing(s.chain, account) <= Backing(t.chain, account)
  }

  // An account on which as much was paid as is no longer owed.
  ghost predicate Alike(s: Sys, t: Sys, account: string) {
    Owed(t, account) - Owed(s, account) <= Backing(t.chain, account) - Backing(s.chain, account)
  }

  lemma StepKeeps(book: Book, s: Sys, t: Sys)
    requires Inv(book, s) && Honest(book, t) && LocksOk(book, t) && StraysOk(t.chain)
    requires forall a | Lower(a) == a ::
               Easier(s, t, a) || (Bounded(t, a) && !Locked(book, t, a)) || (Alike(s, t, a) && !Exposed(book, t, a))
    requires forall j | j in t.verifies ::
               (j in s.verifies && t.verifies[j] == s.verifies[j]) || Roomy(book, t, t.verifies[j])
    ensures Inv(book, t)
  {
    hide Owed, Backing, Honest, LocksOk, StraysOk;
    forall a | Lower(a) == a ensures Bounded(t, a) {
      assert Bounded(s, a);
    }
    forall j | j in t.verifies ensures Roomy(book, t, t.verifies[j]) {
      var x := t.verifies[j];
      if j in s.verifies && x == s.verifies[j] {
        var a := Account(book, x.nonce);
        if !Easier(s, t, a) {
          assert Alike(s, t, a) || !Holds(x);
          assert !x.stage.BalanceRead?;
          assert Roomy(book, s, x);
        }
      }
    }
  }

  // ---------- Steps of the store ----------

  // Dropping reservations, by release, spend, sweep or time, never raises what is owed.
  lemma ShrinkEases(s: Sys, t: Sys, account: string)
    requires t.chain.debited == s.chain.debited && s.now <= t.now
    requires Honest2(s)
    requires forall n | n in t.store.reservations ::
               n in s.store.reservations && t.store.reservations[n] == s.store.reservations[n]
    ensures Owed(t, account) <= Owed(s, account)
  {
    var small, large := LiveOf(t.store, account, t.now), LiveOf(s.store, account, s.now);
    SumSame(small, Claims(t), Claims(s));
    SumMonotone(small, large, Claims(s));
  }

  // No reservation's claim is negative.
  ghost predicate Honest2(s: Sys) {
    forall n | n in s.store.reservations && Signed(n) in s.chain.debited ::
      s.chain.debited[Signed(n)] <= s.store.reservations[n].cap
  }

  lemma HonestClaims(book: Book, s: Sys)
    requires Honest(book, s)
    ensures Honest2(s)
  {
  }

  ghost predicate Shrinks(s: Store, t: Store) {
    forall n | n in t.reservations :: n in s.reservations && t.reservations[n] == s.reservations[n]
  }

  lemma ShrinkHonest(book: Book, s: Sys, t: Sys)
    requires Honest(book, s) && Shrinks(s.store, t.store) && t.chain.debited == s.chain.debited
    ensures Honest(book, t)
  {
  }

  // A step that only drops reservations and at most moves one verify on.
  lemma ShrinkKeeps(book: Book, s: Sys, t: Sys)
    requires Inv(book, s) && Shrinks(s.store, t.store) && s.now <= t.now
    requires t.chain.debited == s.chain.debited
    requires forall a :: Backing(s.chain, a) <= Backing(t.chain, a)
    requires LocksOk(book, t) && StraysOk(t.chain)
    requires forall j | j in t.verifies ::
               (j in s.verifies && t.verifies[j] == s.verifies[j]) || Roomy(book, t, t.verifies[j])
    ensures Inv(book, t)
  {
    hide Owed, Backing, Honest, LocksOk, Roomy, Honest2, StraysOk;
    ShrinkHonest(book, s, t);
    HonestClaims(book, s);
    forall a | Lower(a) == a ensures Easier(s, t, a) {
      ShrinkEases(s, t, a);
    }
    StepKeeps(book, s, t);
  }

  lemma SameVerifies(book: Book, s: Sys, t: Sys)
    requires LocksOk(book, s) && t.verifies == s.verifies
    ensures LocksOk(book, t)
  {
  }

  // ---------- Steps of a verify ----------

  lemma OutstandingCovers(book: Book, s: Sys, account: string)
    requires Honest(book, s)
    ensures Owed(s, account) <= Outstanding(s.store, account, s.now)
  {
    SumAtMost(LiveOf(s.store, account, s.now), Claims(s), Caps(s.store));
  }

  lemma StoreShrinks(s: Sys, n: Nonce)
    ensures Shrinks(s.store, Fresh(s.store, s.now)) && Shrinks(s.store, Forget(s.store, n))
    ensures Shrinks(s.store, Touched(s.store, n, s.now)) && Shrinks(s.store, s.store) && Shrinks(s.store, Spent(s.store, n))
  {
  }

  // The lock passes to a verify only when no other of its account holds it.
  lemma MoveLocks(book: Book, s: Sys, j: nat, store: Store, stage: VerifyStage)
    requires LocksOk(book, s) && j in s.verifies
    requires Holds(s.verifies[j].(stage := stage)) ==>
               Holds(s.verifies[j]) || !Locked(book, s, Account(book, s.verifies[j].nonce))
    ensures LocksOk(book, Verified(s, j, store, stage))
  {
    hide Account;
  }

  lemma ShrinkOwes(book: Book, s: Sys, t: Sys, account: string)
    requires Honest(book, s) && Shrinks(s.store, t.store) && t.chain == s.chain && t.now == s.now
    ensures Owed(t, account) <= Owed(s, account) <= Outstanding(s.store, account, s.now)
  {
    hide Owed, Honest, Honest2;
    HonestClaims(book, s);
    ShrinkEases(s, t, account);
    OutstandingCovers(book, s, account);
  }

  // An await of a verify short of its reserve only drops reservations, and establishes its room.
  lemma RoomAfter(book: Book, s: Sys, j: nat)
    requires Inv(book, s) && j in s.verifies && !s.verifies[j].stage.Unused?
    ensures var x := s.verifies[j]; var (store, stage) := VerifyNext(book, s, x);
            && Shrinks(s.store, store)
            && Roomy(book, Verified(s, j, store, stage), x.(stage := stage))
            && (Holds(x.(stage := stage)) ==> Holds(x) || !Locked(book, s, Account(book, x.nonce)))
  {
    hide Account, LocksOk, Owed, Outstanding, Fresh, Touched, Forget, Shrinks, IsLive, Locked, Honest;
    var x := s.verifies[j];
    var (store, stage) := VerifyNext(book, s, x);
    var t := Verified(s, j, store, stage);
    StoreShrinks(s, x.nonce);
    assert Roomy(book, s, x);
    ShrinkOwes(book, s, t, Account(book, x.nonce));
    assert 0 <= Weight(Account(book, x.nonce), s.chain.unreserved) && 0 <= Weight(Account(book, x.nonce), s.chain.windowed);
  }

  lemma VerifyKeeps(book: Book, s: Sys, j: nat)
    requires Inv(book, s) && j in s.verifies && !s.verifies[j].stage.Unused?
    ensures var (store, stage) := VerifyNext(book, s, s.verifies[j]); Inv(book, Verified(s, j, store, stage))
  {
    hide Owed, Honest, LocksOk, Roomy, VerifyNext, Shrinks, StraysOk, Backing, Locked, Bounded;
    var (store, stage) := VerifyNext(book, s, s.verifies[j]);
    RoomAfter(book, s, j);
    MoveLocks(book, s, j, store, stage);
    ShrinkKeeps(book, s, Verified(s, j, store, stage));
  }

  lemma ReservedOwes(book: Book, s: Sys, t: Sys, n: Nonce, lock: Lock, account: string)
    requires Honest(book, s) && !IsLive(s.store, n, s.now) && lock == LockFor(book, n, lock.expiresAt)
    requires t.store == WithLock(s.store, lock) && t.chain == s.chain && t.now == s.now
    ensures Owed(t, account) <= Owed(s, account) + if Account(book, n) == Lower(account) then Terms(book, n).cap else 0
  {
    hide Lower, Sum, Honest;
    var was, live := LiveOf(s.store, account, s.now), LiveOf(t.store, account, t.now);
    SumSame(was, Claims(t), Claims(s));
    if n in live {
      assert live == was + {n} && n !in was;
      SumAdd(was, Claims(t), n);
    } else {
      assert live == was;
    }
  }

  lemma ReserveHonest(book: Book, s: Sys, t: Sys, n: Nonce, lock: Lock)
    requires Honest(book, s) && lock == LockFor(book, n, lock.expiresAt)
    requires t.store == WithLock(s.store, lock) && t.chain == s.chain
    ensures Honest(book, t)
  {
  }

  // Nobody else holds the lock of the verify that reserves, and its room is what it takes.
  lemma ReserveKeeps(book: Book, s: Sys, j: nat)
    requires Inv(book, s) && j in s.verifies && s.verifies[j].stage.Unused?
    ensures var (store, stage) := VerifyNext(book, s, s.verifies[j]); Inv(book, Verified(s, j, store, stage))
  {
    hide Owed, Honest, Backing, StraysOk, LocksOk;
    var x := s.verifies[j];
    var n, a := x.nonce, Account(book, x.nonce);
    var (store, stage) := VerifyNext(book, s, x);
    var t := Verified(s, j, store, stage);
    MoveLocks(book, s, j, store, stage);
    if stage == Refused {
      StoreShrinks(s, n);
      ShrinkKeeps(book, s, t);
    } else {
      var lock := LockFor(book, n, s.now + x.ttl);
      ReserveHonest(book, s, t, n, lock);
      SoleHolder(book, s, j, store, stage);
      assert Roomy(book, s, x);
      forall b | Lower(b) == b ensures Easier(s, t, b) || (Bounded(t, b) && !Locked(book, t, b)) {
        ReservedOwes(book, s, t, n, lock, b);
        assert Bounded(s, b);
      }
      StepKeeps(book, s, t);
    }
  }

  lemma SoleHolder(book: Book, s: Sys, j: nat, store: Store, stage: VerifyStage)
    requires LocksOk(book, s) && j in s.verifies && Holds(s.verifies[j]) && !Holds(s.verifies[j].(stage := stage))
    ensures !Locked(book, Verified(s, j, store, stage), Account(book, s.verifies[j].nonce))
  {
    hide Account;
  }

  // ---------- Landings ----------

  lemma DebitOwes(book: Book, s: Sys, c: Chain, n: Nonce, amount: nat, account: string)
    requires Honest(book, s) && Signed(n) !in s.chain.debited && c.debited == s.chain.debited[Signed(n) := amount]
    requires Lower(account) == account
    ensures Owed(s.(chain := c), account)
         <= Owed(s, account) - if IsLive(s.store, n, s.now) && Account(book, n) == account then amount else 0
  {
    hide Sum;
    var t := s.(chain := c);
    var live := LiveOf(s.store, account, s.now);
    if n in live {
      SumRemove(live, Claims(s), n);
      SumRemove(live, Claims(t), n);
      SumAtMost(live - {n}, Claims(t), Claims(s));
    } else {
      SumAtMost(live, Claims(t), Claims(s));
    }
  }

  lemma PlusWeight(m: map<string, int>, a: string, amount: int, account: string)
    ensures Weight(account, Plus(m, a, amount)) == Weight(account, m) + if a == account then amount else 0
  {
  }

  lemma NotedBacking(book: Book, s: Sys, n: Nonce, amount: nat, c: Chain, account: string)
    ensures Backing(Noted(book, s, n, amount, c), account) == Backing(c, account)
              + if Account(book, n) == account && !(IsLive(s.store, n, s.now) && !Exposed(book, s, account)) then amount else 0
    ensures 0 <= Weight(account, c.unreserved) ==> 0 <= Weight(account, Noted(book, s, n, amount, c).unreserved)
    ensures 0 <= Weight(account, c.windowed) ==> 0 <= Weight(account, Noted(book, s, n, amount, c).windowed)
  {
    hide IsLive, Exposed, Account, Plus, Weight;
    PlusWeight(c.unreserved, Account(book, n), amount, account);
    PlusWeight(c.windowed, Account(book, n), amount, account);
  }

  lemma DebitBacking(book: Book, c: Chain, n: Nonce, amount: nat, account: string)
    ensures Backing(Debit(book, c, n, amount), account) == Backing(c, account) - if Account(book, n) == account then amount else 0
  {
    hide Account, Plus, Weight;
    PlusWeight(c.bal, Account(book, n), 0 - (amount as int), account);
  }

  // What a successful landing does to an account's backing: nothing to the others', nothing to its
  // own when the debit is noted, and the debit when its reservation covered it.
  lemma MinedBacking(book: Book, s: Sys, t: nat, account: string)
    requires t < |s.chain.txs|
    ensures var tx := s.chain.txs[t]; var c := Mined(book, s, t);
            Backing(c, account) == Backing(s.chain, account)
              - if Takes(book, s, tx.nonce, tx.amount) && Account(book, tx.nonce) == account
                   && IsLive(s.store, tx.nonce, s.now) && !Exposed(book, s, account)
                then tx.amount else 0
    ensures 0 <= Weight(account, s.chain.unreserved) ==> 0 <= Weight(account, Mined(book, s, t).unreserved)
    ensures 0 <= Weight(account, s.chain.windowed) ==> 0 <= Weight(account, Mined(book, s, t).windowed)
  {
    hide IsLive, Exposed, Account, Takes, Noted, Plus;
    var tx := s.chain.txs[t];
    var c := s.chain.(txs := s.chain.txs[t := tx.(outcome := Some(true))]);
    DebitBacking(book, c, tx.nonce, tx.amount, account);
    NotedBacking(book, s, tx.nonce, tx.amount, Debit(book, c, tx.nonce, tx.amount), account);
  }

  lemma MinedStrays(book: Book, s: Sys, t: nat)
    requires t < |s.chain.txs| && StraysOk(s.chain)
    ensures StraysOk(Mined(book, s, t))
  {
    hide Mined, Backing;
    forall a ensures 0 <= Weight(a, Mined(book, s, t).unreserved) && 0 <= Weight(a, Mined(book, s, t).windowed) {
      MinedBacking(book, s, t, a);
    }
  }

  lemma LandKeeps(book: Book, s: Sys, t: nat)
    requires Inv(book, s) && t < |s.chain.txs| && s.chain.txs[t].outcome.None?
    requires s.chain.txs[t].amount <= Terms(book, s.chain.txs[t].nonce).cap
    ensures Inv(book, s.(chain := Mined(book, s, t)))
  {
    hide Owed, Backing, Honest, LocksOk, StraysOk, Mined, IsLive, Roomy, Account, Locked, Exposed;
    var tx, u := s.chain.txs[t], s.(chain := Mined(book, s, t));
    MinedLands(book, s, t);
    LandHonest(book, s, u.chain, t);
    SameVerifies(book, s, u);
    SameExposed(book, s, u);
    assert StraysOk(u.chain) by {
      MinedStrays(book, s, t);
    }
    forall a | Lower(a) == a ensures Easier(s, u, a) || (Alike(s, u, a) && !Exposed(book, u, a)) {
      MinedBacking(book, s, t, a);
      assert Bounded(s, a);
      if u.chain.txs[t].outcome == Some(true) {
        DebitOwes(book, s, u.chain, tx.nonce, tx.amount, a);
        MinedTakes(book, s, t);
      } else {
        MinedTakes(book, s, t);
        SameOwed(s, u, a);
      }
    }
    StepKeeps(book, s, u);
  }

  lemma MinedTakes(book: Book, s: Sys, t: nat)
    requires t < |s.chain.txs|
    ensures Takes(book, s, s.chain.txs[t].nonce, s.chain.txs[t].amount) <==> Mined(book, s, t).txs[t].outcome == Some(true)
  {
    hide Takes, Noted, Account, Plus;
    var tx := s.chain.txs[t];
    NotedSame(book, s, tx.nonce, tx.amount,
              Debit(book, s.chain.(txs := s.chain.txs[t := tx.(outcome := Some(true))]), tx.nonce, tx.amount));
  }

  lemma SameOwed(s: Sys, t: Sys, account: string)
    requires t.store == s.store && t.now == s.now && t.chain.debited == s.chain.debited
    ensures Owed(t, account) == Owed(s, account)
  {
    SumSame(LiveOf(s.store, account, s.now), Claims(t), Claims(s));
  }

  lemma SameExposed(book: Book, s: Sys, t: Sys)
    requires t.verifies == s.verifies
    ensures forall a :: Exposed(book, t, a) <==> Exposed(book, s, a)
  {
  }

  lemma LandHonest(book: Book, s: Sys, c: Chain, t: nat)
    requires Honest(book, s) && Lands(s.chain, c, t) && s.chain.txs[t].amount <= Terms(book, s.chain.txs[t].nonce).cap
    ensures Honest(book, s.(chain := c))
  {
  }

  lemma DepositKeeps(book: Book, s: Sys, account: string, amount: nat)
    requires Inv(book, s)
    ensures Inv(book, s.(chain := Funded(s.chain, account, amount)))
  {
    hide Owed, Honest, LocksOk, Roomy, Bounded, Shrinks, IsLive;
    var t := s.(chain := Funded(s.chain, account, amount));
    StoreShrinks(s, "");
    SameVerifies(book, s, t);
    ShrinkKeeps(book, s, t);
  }

  // ---------- Every run ----------

  lemma NextKeeps(book: Book, s: Sys, step: Step)
    requires Inv(book, s) && ChainOk(book, s)
    ensures Inv(book, Next(book, s, step))
  {
    hide Owed, Honest, LocksOk, StraysOk, Bounded, Backing, Mined, VerifyNext, SettleNext, Shrinks, Expired;
    hide Forget, Fresh, Funded;
    var t := Next(book, s, step);
    match step
    case StartVerify(j, n, resourceId, ttl) => {
      if j !in s.verifies {
        StoreShrinks(s, n);
        NewVerifyLocks(book, s, j, Verify(n, ttl, FirstStage(book, n, resourceId, s.now)));
        ShrinkKeeps(book, s, t);
      }
    }
    case OnVerify(j) => {
      if j in s.verifies {
        if s.verifies[j].stage.Unused? {
          ReserveKeeps(book, s, j);
        } else {
          VerifyKeeps(book, s, j);
        }
      }
    }
    case VerifyFails(j) => {
      if j in s.verifies && !s.verifies[j].stage.Reserved? {
        StoreShrinks(s, "");
        MoveLocks(book, s, j, s.store, Refused);
        ShrinkKeeps(book, s, t);
      }
    }
    case OnSettle(k) => {
      if k in s.settles {
        SettleShrinks(book, s, s.settles[k]);
        Quiet(book, s, t);
      }
    }
    case Land(i) => {
      if i < |s.chain.txs| && s.chain.txs[i].outcome.None? {
        AskedWithinCap(book, s, Signed(s.chain.txs[i].nonce), s.chain.txs[i].amount);
        LandKeeps(book, s, i);
      }
    }
    case Deposit(a, amount) => DepositKeeps(book, s, a, amount);
    case Release(n) => {
      StoreShrinks(s, n);
      Quiet(book, s, t);
    }
    case _ => {
      StoreShrinks(s, "");
      Quiet(book, s, t);
    }
  }

  lemma NewVerifyLocks(book: Book, s: Sys, j: nat, x: Verify)
    requires LocksOk(book, s) && j !in s.verifies && !Holds(x)
    ensures LocksOk(book, s.(verifies := s.verifies[j := x]))
  {
  }

  lemma SettleShrinks(book: Book, s: Sys, x: Settle)
    ensures Shrinks(s.store, SettleNext(book, s, x).store)
  {
    hide Takes, Expired, DebitOf;
  }

  // Steps that leave the verifies and the money alone.
  lemma Quiet(book: Book, s: Sys, t: Sys)
    requires Inv(book, s) && Shrinks(s.store, t.store) && s.now <= t.now && t.verifies == s.verifies
    requires t.chain == s.chain.(txs := t.chain.txs)
    ensures Inv(book, t)
  {
    hide Owed, Honest, LocksOk, Bounded, Roomy, Shrinks;
    SameVerifies(book, s, t);
    ShrinkKeeps(book, s, t);
  }

  lemma {:induction false} RunInv(book: Book, steps: seq<Step>)
    ensures Inv(book, Run(book, steps))
  {
    if steps != [] {
      hide Inv, ChainOk, Next;
      RunInv(book, steps[..|steps| - 1]);
      RunChain(book, steps[..|steps| - 1]);
      NextKeeps(book, Run(book, steps[..|steps| - 1]), steps[|steps| - 1]);
    }
  }

  // In every run, what an account's live reservations may still draw is at most its balance and the
  // debits that no reservation covered or that landed between a verify's two reads.
  lemma OwedWithinBacking(book: Book, steps: seq<Step>, account: string)
    requires Lower(account) == account
    ensures var s := Run(book, steps);
            Owed(s, account) <= Balance(s.chain, account)
                              + Weight(account, s.chain.unreserved) + Weight(account, s.chain.windowed)
  {
    hide Run, Owed;
    RunInv(book, steps);
    assert Bounded(Run(book, steps), account);
  }

  // No debit of the account was uncovered, or landed between a verify's two reads.
  predicate Clean(c: Chain, account: string) {
    Weight(account, c.unreserved) == 0 && Weight(account, c.windowed) == 0
  }

  // The live reservations of a buyer that have paid nothing yet.
  function Unpaid(s: Sys, account: string): set<Nonce> {
    set n | n in LiveOf(s.store, account, s.now) && Signed(n) !in s.chain.debited
  }

  // Then all of a buyer's live unpaid reservations together can be settled in full from the balance.
  lemma LiveReservationsAreFunded(book: Book, steps: seq<Step>, account: string)
    requires Lower(account) == account && Clean(Run(book, steps).chain, account)
    ensures var s := Run(book, steps); Sum(Unpaid(s, account), Caps(s.store)) <= Balance(s.chain, account)
  {
    hide Run;
    OwedWithinBacking(book, steps, account);
    RunInv(book, steps);
    UnpaidWithinOwed(book, Run(book, steps), account);
  }

  lemma UnpaidWithinOwed(book: Book, s: Sys, account: string)
    requires Inv(book, s)
    ensures Sum(Unpaid(s, account), Caps(s.store)) <= Owed(s, account)
  {
    assert Honest(book, s);
    SumSame(Unpaid(s, account), Caps(s.store), Claims(s));
    SumMonotone(Unpaid(s, account), LiveOf(s.store, account, s.now), Claims(s));
  }

  // So the debit of a live unpaid reservation never fails for want of balance.
  lemma LiveReservationCanPay(book: Book, steps: seq<Step>, n: Nonce)
    requires var s := Run(book, steps);
             IsLive(s.store, n, s.now) && Signed(n) !in s.chain.debited && Clean(s.chain, Account(book, n))
    ensures Terms(book, n).cap <= Balance(Run(book, steps).chain, Account(book, n))
  {
    hide Run, Inv;
    var s, a := Run(book, steps), Account(book, n);
    LiveReservationsAreFunded(book, steps, a);
    RunInv(book, steps);
    OneUnpaid(book, s, n);
  }

  lemma OneUnpaid(book: Book, s: Sys, n: Nonce)
    requires Inv(book, s) && IsLive(s.store, n, s.now) && Signed(n) !in s.chain.debited
    ensures Terms(book, n).cap <= Sum(Unpaid(s, Account(book, n)), Caps(s.store))
  {
    var all := Unpaid(s, Account(book, n));
    assert n in all;
    SumRemove(all, Caps(s.store), n);
    SumMonotone({}, all - {n}, Caps(s.store));
  }
}
