// What a verify and a settle let through, and that nothing is debited that was not reserved
// (services/facilitator/src/verify.ts, app.ts, settle.ts, contracts/src/PaymentEscrow.sol).
module Admission {
  import opened Prelude
  import opened PaymentStore
  import opened Facilitator

  // ---------- The checks ----------

  // Times are in milliseconds here and in seconds in an authorization.
  lemma ExpiredExactly(book: Book, n: Nonce, now: int)
    ensures Expired(book, n, now) <==> Terms(book, n).validBefore * 1000 <= now
  {
  }

  // The contract takes a debit of an unused nonce through the last second of its authorization, as
  // long as the balance covers it.
  lemma TakesExactly(book: Book, s: Sys, n: Nonce, amount: nat)
    ensures Takes(book, s, n, amount)
       <==> Signed(n) !in s.chain.debited && s.now < (Terms(book, n).validBefore + 1) * 1000
            && amount <= Balance(s.chain, Account(book, n))
  {
  }

  // What a debit is for: what was asked, or the cap where that is less.
  lemma DebitExactly(book: Book, x: Settle)
    requires 0 <= x.amount
    ensures DebitOf(book, x) <= x.amount && DebitOf(book, x) <= Terms(book, x.nonce).cap
    ensures DebitOf(book, x) == x.amount || DebitOf(book, x) == Terms(book, x.nonce).cap
  {
  }

  predicate Pending(store: Store, n: Nonce, now: int) {
    n in store.reservations && now < store.reservations[n].expiresAt
  }

  // A verify is refused by the first of its checks that fails: resource and expiry, balance less what
  // is open, nonce pending, nonce used, and the reserve.
  lemma VerifyRefusesExactly(book: Book, s: Sys, x: Verify)
    ensures var n := x.nonce; var refused := VerifyNext(book, s, x).1 == Refused;
            && (x.stage.Queued? ==> !refused)
            && (x.stage.BalanceRead? ==>
                  (refused <==> x.stage.balance < Terms(book, n).cap + Outstanding(s.store, Account(book, n), s.now)))
            && (x.stage.Covered? ==> (refused <==> Pending(s.store, n, s.now)))
            && (x.stage.Free? ==> (refused <==> Signed(n) in s.chain.debited))
            && (x.stage.Unused? ==> (refused <==> n in s.store.spent || Pending(s.store, n, s.now)))
  {
    hide Outstanding, Locked;
  }

  // A settle goes on past its entry if and only if there is a stored result, or a reservation was
  // pending and the authorization has not expired; a stored result is its answer, and nothing is sent.
  lemma SettleEntry(book: Book, s: Sys, x: Settle)
    ensures var e := SettleNext(book, s, x); var n := x.nonce;
            && (x.stage.PendingRead? ==>
                  e.stage == if n in s.results || (x.stage.live && s.now < Terms(book, n).validBefore * 1000)
                             then Admitted else Answered(None))
            && (x.stage.Admitted? && n in s.results ==> e.stage == Answered(Some(s.results[n])))
            && (e.sent != [] ==> x.stage.NotStored?)
  {
    hide Takes, DebitOf;
    ExpiredExactly(book, x.nonce, s.now);
  }

  // ---------- Nothing is debited that was not reserved ----------

  // A verify of the nonce, in this spelling, obtained a reservation.
  ghost predicate Verified(s: Sys, n: Nonce) {
    exists j :: j in s.verifies && s.verifies[j].nonce == n && s.verifies[j].stage == Reserved
  }

  // A settle that is past its entry.
  predicate PastEntry(stage: SettleStage) {
    match stage
    case Asked => false
    case PendingRead(live) => live
    case Answered(answer) => answer.Some?
    case _ => true
  }

  ghost predicate AllVerified(s: Sys) {
    && (forall n | n in s.store.reservations :: Verified(s, n))
    && (forall n | n in s.results :: Verified(s, n))
    && (forall k | k in s.settles && PastEntry(s.settles[k].stage) :: Verified(s, s.settles[k].nonce))
    && (forall i | 0 <= i < |s.chain.txs| :: Verified(s, s.chain.txs[i].nonce))
  }

  lemma VerifiedStays(book: Book, s: Sys, step: Step, n: Nonce)
    requires Verified(s, n)
    ensures Verified(Next(book, s, step), n)
  {
    hide VerifyNext, SettleNext, Mined, FirstStage, Fresh, Forget, Funded;
    var j :| j in s.verifies && s.verifies[j].nonce == n && s.verifies[j].stage == Reserved;
    if step == OnVerify(j) {
      ReservedStays(book, s, s.verifies[j]);
    }
    assert j in Next(book, s, step).verifies && Next(book, s, step).verifies[j] == s.verifies[j];
  }

  lemma ReservedStays(book: Book, s: Sys, x: Verify)
    requires x.stage == Reserved
    ensures VerifyNext(book, s, x).1 == Reserved
  {
  }

  // A verify adds no reservation but its own, and only when it is let through.
  lemma VerifyReserves(book: Book, s: Sys, x: Verify)
    ensures var (store, stage) := VerifyNext(book, s, x);
            store.reservations.Keys <= s.store.reservations.Keys + if stage == Reserved then {x.nonce} else {}
  {
    hide Locked, Outstanding;
  }

  lemma SettleVerified(book: Book, s: Sys, k: nat)
    requires AllVerified(s) && k in s.settles
    ensures var x := s.settles[k]; var e := SettleNext(book, s, x);
            && (PastEntry(e.stage) ==> Verified(s, x.nonce))
            && e.store.reservations.Keys <= s.store.reservations.Keys
            && (forall i | 0 <= i < |e.sent| :: e.sent[i].nonce == x.nonce && Verified(s, x.nonce))
            && (forall n | n in e.results :: n in s.results || (n == x.nonce && Verified(s, x.nonce)))
  {
    hide Takes, DebitOf, Expired, Verified;
  }

  lemma NextVerified(book: Book, s: Sys, step: Step)
    requires AllVerified(s)
    ensures AllVerified(Next(book, s, step))
  {
    hide VerifyNext, SettleNext, Mined, FirstStage, Verified, PastEntry;
    var t := Next(book, s, step);
    forall n | Verified(s, n) ensures Verified(t, n) {
      VerifiedStays(book, s, step, n);
    }
    match step
    case OnVerify(j) => {
      if j in s.verifies {
        VerifyReserves(book, s, s.verifies[j]);
        OwnVerified(book, s, j);
      }
    }
    case OnSettle(k) => {
      if k in s.settles {
        SettleVerified(book, s, k);
      }
    }
    case Land(i) => {
      if i < |s.chain.txs| && s.chain.txs[i].outcome.None? {
        MinedLands(book, s, i);
      }
    }
    case StartSettle(_, _, _) => NewIsOutside();
    case SettleFails(_) => NewIsOutside();
    case _ =>
  }

  lemma NewIsOutside()
    ensures !PastEntry(Asked) && !PastEntry(Answered(None))
  {
  }

  lemma OwnVerified(book: Book, s: Sys, j: nat)
    requires j in s.verifies
    ensures VerifyNext(book, s, s.verifies[j]).1 == Reserved ==> Verified(Next(book, s, OnVerify(j)), s.verifies[j].nonce)
  {
    hide VerifyNext;
    var t := Next(book, s, OnVerify(j));
    assert j in t.verifies && t.verifies[j].nonce == s.verifies[j].nonce;
  }

  lemma {:induction false} RunVerified(book: Book, steps: seq<Step>)
    ensures AllVerified(Run(book, steps))
  {
    if steps != [] {
      hide AllVerified, Next;
      RunVerified(book, steps[..|steps| - 1]);
      NextVerified(book, Run(book, steps[..|steps| - 1]), steps[|steps| - 1]);
    }
  }

  // Whatever is sent to the settle endpoint, a signed nonce is debited only if a verify of a spelling
  // of it was let through.
  lemma DebitedWasReserved(book: Book, steps: seq<Step>, n: Nonce)
    requires n in Run(book, steps).chain.debited
    ensures exists a :: Signed(a) == n && Verified(Run(book, steps), a)
  {
    hide Run, Verified, Signed;
    RunVerified(book, steps);
    RunChain(book, steps);
    var c := Run(book, steps).chain;
    assert LandedWith(c, n);
    var i :| 0 <= i < |c.txs| && Signed(c.txs[i].nonce) == n && c.txs[i].outcome == Some(true);
  }
}
