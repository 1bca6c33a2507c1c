// What the receipts of the facilitator's settles are worth (services/facilitator/src/settle.ts,
// app.ts): the transaction's status is not looked at.
module Receipts {
  import opened Prelude
  import opened PaymentStore
  import opened Facilitator
  import opened Races

  // The nonce was debited, and for this amount.
  predicate IsTrue(c: Chain, n: Nonce, r: Receipt) {
    Signed(n) in c.debited && c.debited[Signed(n)] == r.amount
  }

  // A receipt rebuilt from the event states the debit; one of a mined transaction states what that
  // transaction asked for, whether or not it succeeded.
  ghost predicate ReceiptOk(c: Chain, n: Nonce, r: Receipt) {
    match r.tx
    case None => IsTrue(c, n, r)
    case Some(t) => t < |c.txs| && c.txs[t].nonce == n && c.txs[t].amount == r.amount && c.txs[t].outcome.Some?
  }

  ghost predicate SettleOk(c: Chain, x: Settle) {
    match x.stage
    case Waiting(t) => t < |c.txs| && c.txs[t].nonce == x.nonce
    case Confirmed(r) => ReceiptOk(c, x.nonce, r)
    case Marked(r) => ReceiptOk(c, x.nonce, r)
    case Answered(answer) => answer.Some? ==> ReceiptOk(c, x.nonce, answer.value)
    case _ => true
  }

  ghost predicate ReceiptsOk(s: Sys) {
    && (forall n | n in s.results :: ReceiptOk(s.chain, n, s.results[n]))
    && (forall k | k in s.settles :: SettleOk(s.chain, s.settles[k]))
  }

  lemma ReceiptStands(c: Chain, d: Chain, n: Nonce, r: Receipt)
    requires ReceiptOk(c, n, r) && ChainGrows(c, d)
    ensures ReceiptOk(d, n, r)
  {
  }

  lemma SettleStands(c: Chain, d: Chain, x: Settle)
    requires SettleOk(c, x) && ChainGrows(c, d)
    ensures SettleOk(d, x)
  {
    hide ChainGrows, ReceiptOk;
    match x.stage
    case Waiting(t) => TxStands(c, d, t);
    case Confirmed(r) => ReceiptStands(c, d, x.nonce, r);
    case Marked(r) => ReceiptStands(c, d, x.nonce, r);
    case Answered(answer) => {
      if answer.Some? {
        ReceiptStands(c, d, x.nonce, answer.value);
      }
    }
    case _ =>
  }

  lemma TxStands(c: Chain, d: Chain, t: nat)
    requires t < |c.txs| && ChainGrows(c, d)
    ensures t < |d.txs| && d.txs[t].nonce == c.txs[t].nonce
  {
  }

  // One await of a settle, over the chain it leaves.
  lemma SettleNextOk(book: Book, s: Sys, x: Settle)
    requires SettleOk(s.chain, x) && (x.nonce in s.results ==> ReceiptOk(s.chain, x.nonce, s.results[x.nonce]))
    ensures var e := SettleNext(book, s, x); var c := s.chain.(txs := s.chain.txs + e.sent);
            && SettleOk(c, x.(stage := e.stage))
            && (e.results == s.results || exists r :: e.results == s.results[x.nonce := r] && ReceiptOk(c, x.nonce, r))
  {
    hide Takes, Expired, DebitOf, IsLive;
    var e := SettleNext(book, s, x);
    var c := s.chain.(txs := s.chain.txs + e.sent);
    ChainSame(s.chain, c);
    if x.stage.Marked? {
      ReceiptStands(s.chain, c, x.nonce, x.stage.receipt);
      assert e.results == s.results[x.nonce := x.stage.receipt];
    }
  }

  lemma ReceiptsStand(s: Sys, t: Sys, k: nat)
    requires ReceiptsOk(s) && ChainGrows(s.chain, t.chain)
    requires forall n | n in t.results :: (n in s.results && t.results[n] == s.results[n]) || ReceiptOk(t.chain, n, t.results[n])
    requires forall j | j in t.settles && j != k :: j in s.settles && t.settles[j] == s.settles[j]
    requires k in t.settles ==> (k in s.settles && t.settles[k] == s.settles[k]) || SettleOk(t.chain, t.settles[k])
    ensures ReceiptsOk(t)
  {
    hide ReceiptOk, SettleOk, ChainGrows;
    forall n | n in t.results ensures ReceiptOk(t.chain, n, t.results[n]) {
      if n in s.results && t.results[n] == s.results[n] {
        ReceiptStands(s.chain, t.chain, n, s.results[n]);
      }
    }
    forall j | j in t.settles ensures SettleOk(t.chain, t.settles[j]) {
      if j in s.settles && t.settles[j] == s.settles[j] {
        SettleStands(s.chain, t.chain, s.settles[j]);
      }
    }
  }

  lemma NextKeepsReceipts(book: Book, s: Sys, step: Step)
    requires ReceiptsOk(s)
    ensures ReceiptsOk(Next(book, s, step))
  {
    hide VerifyNext, SettleNext, Mined, ReceiptOk, Expired, ChainGrows;
    NextExtends(book, s, step);
    if step.OnSettle? && step.k in s.settles {
      SettleNextOk(book, s, s.settles[step.k]);
    }
    ReceiptsStand(s, Next(book, s, step), if step.OnSettle? || step.StartSettle? || step.SettleFails? then step.k else 0);
  }

  lemma {:induction false} RunReceipts(book: Book, steps: seq<Step>)
    ensures ReceiptsOk(Run(book, steps))
  {
    if steps != [] {
      hide ReceiptsOk, Next;
      RunReceipts(book, steps[..|steps| - 1]);
      NextKeepsReceipts(book, Run(book, steps[..|steps| - 1]), steps[|steps| - 1]);
    }
  }

  // ---------- When receipts are true ----------


  // Every answered receipt whose transaction succeeded, and every rebuilt one, states the debit.
  lemma SucceededIsTrue(book: Book, steps: seq<Step>, k: nat)
    requires var s := Run(book, steps);
             && k in s.settles && s.settles[k].stage.Answered? && s.settles[k].stage.answer.Some?
             && var r := s.settles[k].stage.answer.value;
                r.tx.Some? ==> r.tx.value < |s.chain.txs| && s.chain.txs[r.tx.value].outcome == Some(true)
    ensures var s := Run(book, steps); IsTrue(s.chain, s.settles[k].nonce, s.settles[k].stage.answer.value)
  {
    hide Run;
    RunReceipts(book, steps);
    RunChain(book, steps);
    var s := Run(book, steps);
    assert SettleOk(s.chain, s.settles[k]);
    var r := s.settles[k].stage.answer.value;
    if r.tx.Some? {
      assert Facilitator.Paid(s.chain, s.chain.txs[r.tx.value]);
    }
  }

  function Reverted(txs: seq<Tx>): nat {
    if txs == [] then 0 else Reverted(txs[..|txs| - 1]) + if txs[|txs| - 1].outcome == Some(false) then 1 else 0
  }

  lemma {:induction false} NoneReverted(txs: seq<Tx>, t: nat)
    requires Reverted(txs) == 0 && t < |txs|
    ensures txs[t].outcome != Some(false)
  {
    if t < |txs| - 1 {
      NoneReverted(txs[..|txs| - 1], t);
    }
  }

  ghost predicate Reverts(book: Book, steps: seq<Step>, most: nat) { Reverted(Run(book, steps).chain.txs) <= most }

  ghost predicate ReceiptsTrue(book: Book, steps: seq<Step>) {
    var s := Run(book, steps);
    forall k | k in s.settles && s.settles[k].stage.Answered? && s.settles[k].stage.answer.Some? ::
      IsTrue(s.chain, s.settles[k].nonce, s.settles[k].stage.answer.value)
  }

  ghost predicate AlwaysTrue(most: nat) {
    forall book, steps | Reverts(book, steps, most) :: ReceiptsTrue(book, steps)
  }

  // The debit is mined after the authorization expired: it reverts, the settle answers a receipt for
  // it all the same, and marks the nonce spent.
  lemma RevertedReceipt() returns (steps: seq<Step>)
    ensures Reverts(RaceBook(1), steps, 1) && !ReceiptsTrue(RaceBook(1), steps)
    ensures "n" in Run(RaceBook(1), steps).store.spent && "n" !in Run(RaceBook(1), steps).chain.debited
  {
    hide RunFrom;
    var book, r := RaceBook(1), Receipt(1, Some(0));
    RaceAccount(1, "n");
    steps := ReachesSent(1);
    Take(book, START, steps, Tick(101000));
    steps := steps + [Tick(101000)];
    var c := OneTx(1).(txs := [Tx("n", 1, Some(false))]);
    TakeLand(book, START, steps, c);
    steps := steps + [Land(0)];
    var s := Run(book, steps);
    TakeSettle(book, START, steps, 0, Moves(s, Confirmed(r)));
    steps := steps + [OnSettle(0)];
    TakeSettle(book, START, steps, 0, Moves(s, Marked(r)).(store := Spent(s.store, "n")));
    steps := steps + [OnSettle(0)];
    TakeSettle(book, START, steps, 0, Effect(Spent(s.store, "n"), [], map["n" := r], Answered(Some(r))));
    steps := steps + [OnSettle(0)];
    assert Run(book, steps).settles[0] == Settle("n", 1, Answered(Some(r)));
    assert Run(book, steps).chain.txs == [Tx("n", 1, Some(false))];
    assert Reverted([Tx("n", 1, Some(false))]) == Reverted([]) + 1;
  }

  // Runs with at most so many reverted transactions answer only true receipts if and only if none is
  // allowed.
  lemma ReceiptsTrueExactly(most: nat)
    ensures AlwaysTrue(most) <==> most == 0
  {
    if most == 0 {
      forall book, steps | Reverts(book, steps, 0) ensures ReceiptsTrue(book, steps) {
        AllTrue(book, steps);
      }
    } else {
      var steps := RevertedReceipt();
      assert Reverts(RaceBook(1), steps, most);
    }
  }

  lemma AllTrue(book: Book, steps: seq<Step>)
    requires Reverts(book, steps, 0)
    ensures ReceiptsTrue(book, steps)
  {
    hide Run;
    var s := Run(book, steps);
    RunReceipts(book, steps);
    forall k | k in s.settles && s.settles[k].stage.Answered? && s.settles[k].stage.answer.Some?
      ensures IsTrue(s.chain, s.settles[k].nonce, s.settles[k].stage.answer.value)
    {
      assert SettleOk(s.chain, s.settles[k]);
      var r := s.settles[k].stage.answer.value;
      if r.tx.Some? {
        assert ReceiptOk(s.chain, s.settles[k].nonce, r);
        NoneReverted(s.chain.txs, r.tx.value);
        assert s.chain.txs[r.tx.value].outcome.value;
      }
      SucceededIsTrue(book, steps, k);
    }
  }
}
