// Debits that reservations did not cover do not matter for ever: once a buyer's reservations are
// backed by the balance again and no verify is under way, only later ones count
// (services/facilitator/src/verify.ts, packages/x402-arc/src/store.ts).
module Recovery {
  import opened Prelude
  import opened PaymentStore
  import opened Facilitator
  import opened Solvency

  // What is owed is backed by the balance, and no verify of the account is between its reads and its
  // reserve: so it is, whatever went before, when the account has no live reservation and no verify.
  ghost predicate Rested(book: Book, s: Sys, account: string) {
    Owed(s, account) <= Balance(s.chain, account) && !Locked(book, s, account)
  }

  // ---------- At rest ----------

  lemma NextNotNegative(book: Book, s: Sys, step: Step, account: string)
    requires 0 <= Balance(s.chain, account)
    ensures 0 <= Balance(Next(book, s, step).chain, account)
  {
    hide VerifyNext, SettleNext, Mined, FirstStage, Fresh, Forget, Account, Weight;
    match step
    case Land(i) => {
      if i < |s.chain.txs| {
        MinedNotNegative(book, s, i, account);
      }
    }
    case Deposit(a, amount) => PlusWeight(s.chain.bal, a, amount, account);
    case _ =>
  }

  lemma MinedNotNegative(book: Book, s: Sys, i: nat, account: string)
    requires 0 <= Balance(s.chain, account) && i < |s.chain.txs|
    ensures 0 <= Balance(Mined(book, s, i), account)
  {
    hide Noted, Account, Plus, Weight, Signed;
    var tx := s.chain.txs[i];
    var c := Debit(book, s.chain.(txs := s.chain.txs[i := tx.(outcome := Some(true))]), tx.nonce, tx.amount);
    NotedSame(book, s, tx.nonce, tx.amount, c);
    PlusWeight(s.chain.bal, Account(book, tx.nonce), 0 - (tx.amount as int), account);
  }

  lemma {:induction false} NotNegative(book: Book, steps: seq<Step>, account: string)
    ensures 0 <= Balance(Run(book, steps).chain, account)
  {
    if steps != [] {
      hide Next, Balance;
      NotNegative(book, steps[..|steps| - 1], account);
      NextNotNegative(book, Run(book, steps[..|steps| - 1]), steps[|steps| - 1], account);
    }
  }

  // Without a live reservation and a verify under way an account rests.
  lemma IdleRests(book: Book, steps: seq<Step>, account: string)
    requires var s := Run(book, steps); LiveOf(s.store, account, s.now) == {} && !Locked(book, s, account)
    ensures Rested(book, Run(book, steps), account)
  {
    hide Run, Balance, Locked;
    NotNegative(book, steps, account);
  }

  // ---------- What was noted changes nothing ----------

  // Chains that differ in what was noted alone, and for the account by a fixed amount of each kind.
  ghost predicate ChainOffset(c: Chain, d: Chain, account: string, u: int, w: int) {
    && d == c.(unreserved := d.unreserved, windowed := d.windowed)
    && Weight(account, c.unreserved) == Weight(account, d.unreserved) + u
    && Weight(account, c.windowed) == Weight(account, d.windowed) + w
  }

  ghost predicate Offset(s: Sys, t: Sys, account: string, u: int, w: int) {
    t == s.(chain := t.chain) && ChainOffset(s.chain, t.chain, account, u, w)
  }

  lemma VerifyAlike(book: Book, s: Sys, t: Sys, x: Verify)
    requires t == s.(chain := s.chain.(unreserved := t.chain.unreserved, windowed := t.chain.windowed))
    ensures VerifyNext(book, t, x) == VerifyNext(book, s, x)
  {
    hide Outstanding, Fresh, Forget, Signed, IsLive;
    assert Locked(book, t, Account(book, x.nonce)) == Locked(book, s, Account(book, x.nonce));
  }

  lemma SettleAlike(book: Book, s: Sys, t: Sys, x: Settle)
    requires t == s.(chain := s.chain.(unreserved := t.chain.unreserved, windowed := t.chain.windowed))
    ensures var e := SettleNext(book, s, x); SettleNext(book, t, x) == e
  {
    hide Fresh, Forget, Signed, IsLive, DebitOf, Expired;
  }

  lemma NotedAlike(book: Book, s: Sys, t: Sys, n: Nonce, amount: nat, c: Chain, d: Chain, account: string, u: int, w: int)
    requires t == s.(chain := t.chain) && ChainOffset(c, d, account, u, w)
    ensures ChainOffset(Noted(book, s, n, amount, c), Noted(book, t, n, amount, d), account, u, w)
  {
    hide IsLive, Account, Plus, Weight;
    PlusWeight(c.unreserved, Account(book, n), amount, account);
    PlusWeight(d.unreserved, Account(book, n), amount, account);
    PlusWeight(c.windowed, Account(book, n), amount, account);
    PlusWeight(d.windowed, Account(book, n), amount, account);
    assert Exposed(book, t, Account(book, n)) == Exposed(book, s, Account(book, n));
  }

  lemma MinedAlike(book: Book, s: Sys, t: Sys, i: nat, account: string, u: int, w: int)
    requires Offset(s, t, account, u, w) && i < |s.chain.txs|
    ensures Offset(s.(chain := Mined(book, s, i)), t.(chain := Mined(book, t, i)), account, u, w)
  {
    hide Noted, Account, Plus, Weight, Signed;
    var tx := s.chain.txs[i];
    assert Takes(book, t, tx.nonce, tx.amount) == Takes(book, s, tx.nonce, tx.amount);
    var c := Debit(book, s.chain.(txs := s.chain.txs[i := tx.(outcome := Some(true))]), tx.nonce, tx.amount);
    var d := Debit(book, t.chain.(txs := t.chain.txs[i := tx.(outcome := Some(true))]), tx.nonce, tx.amount);
    NotedAlike(book, s, t, tx.nonce, tx.amount, c, d, account, u, w);
  }

  lemma NextAlike(book: Book, s: Sys, t: Sys, step: Step, account: string, u: int, w: int)
    requires Offset(s, t, account, u, w)
    ensures Offset(Next(book, s, step), Next(book, t, step), account, u, w)
  {
    hide VerifyNext, SettleNext, Mined, Plus, Fresh, Forget, FirstStage, Weight;
    match step
    case OnVerify(j) => {
      if j in s.verifies {
        VerifyAlike(book, s, t, s.verifies[j]);
      }
    }
    case OnSettle(k) => {
      if k in s.settles {
        SettleAlike(book, s, t, s.settles[k]);
      }
    }
    case Land(i) => {
      if i < |s.chain.txs| {
        MinedAlike(book, s, t, i, account, u, w);
      }
    }
    case _ =>
  }

  lemma {:induction false} RunAlike(book: Book, s: Sys, t: Sys, steps: seq<Step>, account: string, u: int, w: int)
    requires Offset(s, t, account, u, w)
    ensures Offset(RunFrom(book, s, steps), RunFrom(book, t, steps), account, u, w)
  {
    if steps != [] {
      hide Next, Offset;
      var front := steps[..|steps| - 1];
      RunAlike(book, s, t, front, account, u, w);
      NextAlike(book, RunFrom(book, s, front), RunFrom(book, t, front), steps[|steps| - 1], account, u, w);
    }
  }

  // ---------- Starting over ----------

  // The same state with nothing noted of the account.
  function Cleared(s: Sys, account: string): Sys {
    s.(chain := s.chain.(unreserved := s.chain.unreserved[account := 0], windowed := s.chain.windowed[account := 0]))
  }

  lemma ClearedInv(book: Book, s: Sys, account: string)
    requires Inv(book, s) && Rested(book, s, account)
    ensures Inv(book, Cleared(s, account))
  {
    hide LocksOk, Locked, Owed, Roomy, Honest, Backing, StraysOk;
    var t := Cleared(s, account);
    ClearedStrays(s, account);
    forall a ensures Owed(t, a) == Owed(s, a) {
      SameOwed(s, t, a);
    }
    forall a | Lower(a) == a ensures Bounded(t, a) {
      assert Bounded(s, a);
    }
    SameVerifies(book, s, t);
    ClearedHonest(book, s, account);
    forall j | j in t.verifies ensures Roomy(book, t, t.verifies[j]) {
      ClearedRoom(book, s, account, j);
    }
  }

  lemma ClearedStrays(s: Sys, account: string)
    requires StraysOk(s.chain)
    ensures var c := Cleared(s, account).chain;
            StraysOk(c) && forall a :: Backing(c, a) == if a == account then Balance(c, a) else Backing(s.chain, a)
    ensures Balance(Cleared(s, account).chain, account) == Balance(s.chain, account)
  {
    var c := Cleared(s, account).chain;
    forall a ensures 0 <= Weight(a, c.unreserved) && 0 <= Weight(a, c.windowed) {
      assert 0 <= Weight(a, s.chain.unreserved) && 0 <= Weight(a, s.chain.windowed);
    }
  }

  lemma ClearedHonest(book: Book, s: Sys, account: string)
    requires Honest(book, s)
    ensures Honest(book, Cleared(s, account))
  {
  }

  lemma ClearedRoom(book: Book, s: Sys, account: string, j: nat)
    requires j in s.verifies && Roomy(book, s, s.verifies[j]) && !Locked(book, s, account)
    requires forall a :: Owed(Cleared(s, account), a) == Owed(s, a)
    ensures Roomy(book, Cleared(s, account), s.verifies[j])
  {
    hide Owed, Account;
    if Account(book, s.verifies[j].nonce) == account {
      assert !Holds(s.verifies[j]);
    }
  }

  lemma InvBounds(book: Book, s: Sys, account: string)
    requires Inv(book, s) && Lower(account) == account
    ensures Bounded(s, account)
  {
  }

  lemma {:induction false} RunKeepsInv(book: Book, s: Sys, steps: seq<Step>)
    requires Inv(book, s) && ChainOk(book, s)
    ensures Inv(book, RunFrom(book, s, steps)) && ChainOk(book, RunFrom(book, s, steps))
  {
    if steps != [] {
      hide Inv, ChainOk, Next;
      var front := steps[..|steps| - 1];
      RunKeepsInv(book, s, front);
      NextKeeps(book, RunFrom(book, s, front), steps[|steps| - 1]);
      NextKeepsChain(book, RunFrom(book, s, front), steps[|steps| - 1]);
    }
  }

  // ---------- Main results ----------

  // From any reachable state in which an account rests, what its live reservations may draw stays
  // within the balance and the debits that strayed since.
  lemma OwedWithinBackingSince(book: Book, before: seq<Step>, after: seq<Step>, account: string)
    requires Lower(account) == account && Rested(book, Run(book, before), account)
    ensures var c, s := Run(book, before).chain, Run(book, before + after);
            Owed(s, account) <= Balance(s.chain, account)
              + (Weight(account, s.chain.unreserved) - Weight(account, c.unreserved))
              + (Weight(account, s.chain.windowed) - Weight(account, c.windowed))
  {
    hide Inv, Owed, ChainOk;
    var s := Run(book, before);
    var t := Cleared(s, account);
    RunInv(book, before);
    RunChain(book, before);
    ClearedInv(book, s, account);
    ClearedChain(book, s, account);
    RunSplit(book, START, before, after);
    RunAlike(book, s, t, after, account, Weight(account, s.chain.unreserved), Weight(account, s.chain.windowed));
    RunKeepsInv(book, t, after);
    var s', t' := RunFrom(book, s, after), RunFrom(book, t, after);
    SameOwed(s', t', account);
    InvBounds(book, t', account);
  }

  lemma ClearedChain(book: Book, s: Sys, account: string)
    requires ChainOk(book, s)
    ensures ChainOk(book, Cleared(s, account))
  {
  }

  // So from then on its live reservations are funded for as long as no debit strays.
  lemma FundedSince(book: Book, before: seq<Step>, after: seq<Step>, account: string)
    requires Lower(account) == account && Rested(book, Run(book, before), account)
    requires var c, d := Run(book, before).chain, Run(book, before + after).chain;
             && Weight(account, d.unreserved) == Weight(account, c.unreserved)
             && Weight(account, d.windowed) == Weight(account, c.windowed)
    ensures var s := Run(book, before + after); Sum(Unpaid(s, account), Caps(s.store)) <= Balance(s.chain, account)
  {
    OwedWithinBackingSince(book, before, after, account);
    RunInv(book, before + after);
    UnpaidWithinOwed(book, Run(book, before + after), account);
  }
}
