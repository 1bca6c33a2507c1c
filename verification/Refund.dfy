// Refunding the buyers of a failing resource from the insurance pool, across crashes and retries
// (packages/staking/src/refund.ts).
module Refund {
  import opened Prelude

  datatype Payment = Payment(resourceId: string, payer: string, amount: nat, settledAt: int, status: string)

  datatype Window = Window(from: nat, to: nat)

  datatype Buyer = Buyer(payer: string, amount: nat)

  predicate IsAffected(p: Payment, resourceId: string, window: Window) {
    p.resourceId == resourceId && p.status == "settled" && window.from <= p.settledAt <= window.to
  }

  function IdentifyAffectedBuyers(payments: seq<Payment>, resourceId: string, window: Window): seq<Buyer> {
    if payments == [] then []
    else
      var front := IdentifyAffectedBuyers(payments[..|payments| - 1], resourceId, window);
      var p := payments[|payments| - 1];
      if IsAffected(p, resourceId, window) then front + [Buyer(p.payer, p.amount)] else front
  }

  // The affected list is the settled payments of the resource in the window, both ends included:
  // all of them, in their order, payer and amount as paid.
  lemma {:induction false} AffectedExactly(payments: seq<Payment>, resourceId: string, window: Window) returns (rows: seq<nat>)
    ensures var affected := IdentifyAffectedBuyers(payments, resourceId, window);
            && |rows| == |affected|
            && (forall i, j | 0 <= i < j < |rows| :: rows[i] < rows[j])
            && (forall k | 0 <= k < |rows| :: rows[k] < |payments|
                  && affected[k] == Buyer(payments[rows[k]].payer, payments[rows[k]].amount))
    ensures forall n: nat | n < |payments| ::
              n in rows <==> && payments[n].resourceId == resourceId && payments[n].status == "settled"
                             && window.from <= payments[n].settledAt <= window.to
  {
    rows := [];
    if payments != [] {
      var n := |payments| - 1;
      rows := AffectedExactly(payments[..n], resourceId, window);
      if IsAffected(payments[n], resourceId, window) {
        rows := rows + [n];
      }
    }
  }

  // ---------- Idempotency keys ----------

  function RefundBatchIdemKey(resourceId: string, window: Window): string {
    "refund:" + (resourceId + [':'] + (Decimal(window.from) + ['-'] + Decimal(window.to)))
  }

  function BuyerKey(idemKey: string, payer: string): string {
    idemKey + "::" + Lower(payer)
  }

  // One batch never answers for another: a key names its resource, its window and its payer, the
  // payer up to letter case.
  lemma BuyerKeyUnambiguous(r: string, w: Window, p: string, r': string, w': Window, p': string)
    requires ':' !in r && ':' !in r'
    ensures BuyerKey(RefundBatchIdemKey(r, w), p) == BuyerKey(RefundBatchIdemKey(r', w'), p')
       <==> r == r' && w == w' && Lower(p) == Lower(p')
  {
    hide Range, Lower, Decimal;
    var k, k' := BuyerKey(RefundBatchIdemKey(r, w), p), BuyerKey(RefundBatchIdemKey(r', w'), p');
    if k == k' {
      var tail, tail' := [':'] + Lower(p), [':'] + Lower(p');
      KeyShape(r, w, p);
      KeyShape(r', w', p');
      RangeHasNoColon(w);
      RangeHasNoColon(w');
      SplitUnique(r, Range(w) + [':'] + tail, r', Range(w') + [':'] + tail', ':');
      SplitUnique(Range(w), tail, Range(w'), tail', ':');
      assert tail[1..] == Lower(p) && tail'[1..] == Lower(p');
      RangeInjective(w, w');
    }
  }

  function Range(w: Window): string { Decimal(w.from) + ['-'] + Decimal(w.to) }

  lemma KeyShape(r: string, w: Window, p: string)
    ensures BuyerKey(RefundBatchIdemKey(r, w), p)[7..] == r + [':'] + (Range(w) + [':'] + ([':'] + Lower(p)))
  {
  }

  lemma RangeHasNoColon(w: Window)
    ensures ':' !in Range(w)
  {
  }

  lemma RangeInjective(w: Window, w': Window)
    requires Range(w) == Range(w')
    ensures w == w'
  {
    SplitUnique(Decimal(w.from), Decimal(w.to), Decimal(w'.from), Decimal(w'.to), '-');
    DecimalInjective(w.from, w'.from);
    DecimalInjective(w.to, w'.to);
  }

  // ---------- One attempt, by rows of the affected list ----------

  function KeyOf(affected: seq<Buyer>, idemKey: string, row: nat): string
    requires row < |affected|
  {
    BuyerKey(idemKey, affected[row].payer)
  }

  // The rows below n whose buyer is not yet marked, and those whose buyer is, in order.
  function Pending(affected: seq<Buyer>, idemKey: string, done: set<string>, n: nat): (rows: seq<nat>)
    requires n <= |affected|
    ensures forall i | 0 <= i < |rows| :: rows[i] < n && KeyOf(affected, idemKey, rows[i]) !in done
  {
    if n == 0 then []
    else
      var front := Pending(affected, idemKey, done, n - 1);
      if KeyOf(affected, idemKey, n - 1) in done then front else front + [n - 1]
  }

  function Skipped(affected: seq<Buyer>, idemKey: string, done: set<string>, n: nat): (rows: seq<nat>)
    requires n <= |affected|
    ensures forall i | 0 <= i < |rows| :: rows[i] < n && KeyOf(affected, idemKey, rows[i]) in done
  {
    if n == 0 then []
    else
      var front := Skipped(affected, idemKey, done, n - 1);
      if KeyOf(affected, idemKey, n - 1) in done then front + [n - 1] else front
  }

  predicate RowsOf(affected: seq<Buyer>, rows: seq<nat>) {
    forall i | 0 <= i < |rows| :: rows[i] < |affected|
  }

  function Buyers(affected: seq<Buyer>, rows: seq<nat>): seq<Buyer>
    requires RowsOf(affected, rows)
  {
    seq(|rows|, i requires 0 <= i < |rows| => affected[rows[i]])
  }

  function TotalOf(buyers: seq<Buyer>): nat {
    if buyers == [] then 0 else TotalOf(buyers[..|buyers| - 1]) + buyers[|buyers| - 1].amount
  }

  function Marks(affected: seq<Buyer>, idemKey: string, rows: seq<nat>): set<string>
    requires RowsOf(affected, rows)
  {
    set i | 0 <= i < |rows| :: KeyOf(affected, idemKey, rows[i])
  }

  datatype Ending = Finished | Refused | Aborted

  // The rows an attempt pays, in order: none beyond the pool, all before the write that reverts.
  function PaidRows(affected: seq<Buyer>, idemKey: string, done: set<string>, pool: nat, failAt: nat): (rows: seq<nat>)
    ensures RowsOf(affected, rows)
  {
    var rows := Pending(affected, idemKey, done, |affected|);
    if TotalOf(Buyers(affected, rows)) > pool then []
    else if failAt < |rows| then rows[..failAt] else rows
  }

  function EndingOf(affected: seq<Buyer>, idemKey: string, done: set<string>, pool: nat, failAt: nat): Ending {
    var rows := Pending(affected, idemKey, done, |affected|);
    if rows == [] then Finished
    else if TotalOf(Buyers(affected, rows)) > pool then Refused
    else if failAt < |rows| then Aborted else Finished
  }

  class InMemoryRefundIdempotencyStore {
    var done: map<string, string>

    constructor ()
      ensures done == map[]
    {
      done := map[];
    }

    method IsRefunded(idemKey: string, payer: string) returns (b: bool)
      ensures b == (BuyerKey(idemKey, payer) in done)
    {
      b := BuyerKey(idemKey, payer) in done;
    }

    method MarkRefunded(idemKey: string, payer: string, tx: string)
      modifies this
      ensures done == old(done)[BuyerKey(idemKey, payer) := tx]
    {
      done := done[BuyerKey(idemKey, payer) := tx];
    }
  }

  // The insurance pool and the refunds written to it.
  class Vault {
    var pool: nat
    var paid: seq<Buyer>

    constructor (pool: nat)
      ensures this.pool == pool && paid == []
    {
      this.pool, paid := pool, [];
    }

    method Refund(buyer: Buyer) returns (tx: string)
      requires buyer.amount <= pool
      modifies this
      ensures pool == old(pool) - buyer.amount && paid == old(paid) + [buyer]
    {
      pool, paid := pool - buyer.amount, paid + [buyer];
      tx := "0x";
    }
  }

  datatype Result = Result(ending: Ending, refunded: seq<Buyer>, totalRefunded: nat, skipped: seq<Buyer>)

  // The write at index failAt reverts, or none does; a revert comes before the mark.
  method ExecuteRefund(store: InMemoryRefundIdempotencyStore, vault: Vault, payments: seq<Payment>,
                       resourceId: string, window: Window, failAt: nat)
    returns (r: Result)
    modifies store, vault
    ensures var affected := IdentifyAffectedBuyers(payments, resourceId, window);
            var idemKey := RefundBatchIdemKey(resourceId, window);
            var rows := PaidRows(affected, idemKey, old(store.done.Keys), old(vault.pool), failAt);
            && vault.paid == old(vault.paid) + Buyers(affected, rows)
            && vault.pool == old(vault.pool) - TotalOf(Buyers(affected, rows))
            && store.done.Keys == old(store.done.Keys) + Marks(affected, idemKey, rows)
            && r.ending == EndingOf(affected, idemKey, old(store.done.Keys), old(vault.pool), failAt)
            && (r.ending.Finished? ==>
                  && r.refunded == Buyers(affected, rows)
                  && r.totalRefunded == TotalOf(r.refunded)
                  && r.skipped == Buyers(affected, Skipped(affected, idemKey, old(store.done.Keys), |affected|)))
  {
    hide BuyerKey, RefundBatchIdemKey, IdentifyAffectedBuyers, TotalOf, Marks, Pending, Skipped;
    var affected := IdentifyAffectedBuyers(payments, resourceId, window);
    var idemKey := RefundBatchIdemKey(resourceId, window);
    var skipped, pending := Partition(store, affected, idemKey);
    ghost var rows := Pending(affected, idemKey, store.done.Keys, |affected|);
    NothingPaid(affected, idemKey);
    if pending == [] {
      return Result(Finished, [], 0, skipped);
    }
    var remaining := Total(pending);
    if remaining > vault.pool {
      return Result(Refused, [], 0, skipped);
    }
    var refunded := PayPending(store, vault, affected, idemKey, pending, rows, failAt);
    if failAt < |pending| {
      return Result(Aborted, refunded, 0, skipped);
    }
    assert rows[..|rows|] == rows;
    var total := Total(refunded);
    return Result(Finished, refunded, total, skipped);
  }

  lemma NothingPaid(affected: seq<Buyer>, idemKey: string)
    ensures TotalOf([]) == 0 && Marks(affected, idemKey, []) == {} && Buyers(affected, []) == []
  {
  }

  // Write, then mark, buyer by buyer, up to the write that reverts.
  method PayPending(store: InMemoryRefundIdempotencyStore, vault: Vault, affected: seq<Buyer>, idemKey: string,
                    pending: seq<Buyer>, ghost rows: seq<nat>, failAt: nat)
    returns (refunded: seq<Buyer>)
    requires RowsOf(affected, rows) && pending == Buyers(affected, rows)
    requires TotalOf(pending) <= vault.pool
    modifies store, vault
    ensures var n := if failAt < |rows| then failAt else |rows|;
            && refunded == Buyers(affected, rows[..n])
            && vault.paid == old(vault.paid) + refunded
            && vault.pool == old(vault.pool) - TotalOf(refunded)
            && store.done.Keys == old(store.done.Keys) + Marks(affected, idemKey, rows[..n])
  {
    hide BuyerKey, Marks, TotalOf;
    NothingPaid(affected, idemKey);
    refunded := [];
    for i := 0 to |pending|
      invariant i <= failAt && refunded == pending[..i]
      invariant vault.paid == old(vault.paid) + refunded
      invariant vault.pool == old(vault.pool) - TotalOf(refunded)
      invariant store.done.Keys == old(store.done.Keys) + Marks(affected, idemKey, rows[..i])
    {
      if i == failAt {
        return;
      }
      PrefixTotal(pending, i);
      PrefixSnoc(pending, i);
      MarksSnoc(affected, idemKey, rows, i);
      var tx := vault.Refund(pending[i]);
      store.MarkRefunded(idemKey, pending[i].payer, tx);
      refunded := refunded + [pending[i]];
    }
  }

  lemma PrefixSnoc(buyers: seq<Buyer>, i: nat)
    requires i < |buyers|
    ensures buyers[..i + 1] == buyers[..i] + [buyers[i]]
    ensures TotalOf(buyers[..i] + [buyers[i]]) == TotalOf(buyers[..i]) + buyers[i].amount
  {
    assert (buyers[..i] + [buyers[i]])[..i] == buyers[..i];
  }

  method Partition(store: InMemoryRefundIdempotencyStore, affected: seq<Buyer>, idemKey: string)
    returns (skipped: seq<Buyer>, pending: seq<Buyer>)
    ensures skipped == Buyers(affected, Skipped(affected, idemKey, store.done.Keys, |affected|))
    ensures pending == Buyers(affected, Pending(affected, idemKey, store.done.Keys, |affected|))
  {
    hide BuyerKey;
    skipped, pending := [], [];
    for i := 0 to |affected|
      invariant skipped == Buyers(affected, Skipped(affected, idemKey, store.done.Keys, i))
      invariant pending == Buyers(affected, Pending(affected, idemKey, store.done.Keys, i))
    {
      var done := store.IsRefunded(idemKey, affected[i].payer);
      if done {
        skipped := skipped + [affected[i]];
      } else {
        pending := pending + [affected[i]];
      }
    }
  }

  method Total(buyers: seq<Buyer>) returns (sum: nat)
    ensures sum == TotalOf(buyers)
  {
    sum := 0;
    for i := 0 to |buyers|
      invariant sum == TotalOf(buyers[..i])
    {
      assert buyers[..i + 1][..i] == buyers[..i];
      sum := sum + buyers[i].amount;
    }
    assert buyers[..|buyers|] == buyers;
  }

  lemma {:induction false} PrefixTotal(buyers: seq<Buyer>, i: nat)
    requires i < |buyers|
    ensures TotalOf(buyers[..i]) + buyers[i].amount <= TotalOf(buyers)
    decreases |buyers|
  {
    var front := buyers[..|buyers| - 1];
    if i < |front| {
      PrefixTotal(front, i);
      assert front[..i] == buyers[..i];
    }
  }

  lemma MarksSnoc(affected: seq<Buyer>, idemKey: string, rows: seq<nat>, i: nat)
    requires RowsOf(affected, rows) && i < |rows|
    ensures Marks(affected, idemKey, rows[..i + 1])
         == Marks(affected, idemKey, rows[..i]) + {KeyOf(affected, idemKey, rows[i])}
  {
    hide BuyerKey;
  }

  // ---------- Sequences of attempts ----------

  // What the pool holds at an attempt, and the write at which it crashes.
  datatype Attempt = Attempt(pool: nat, failAt: nat)

  datatype Ledger = Ledger(done: set<string>, log: seq<nat>, last: Ending)

  function After(affected: seq<Buyer>, idemKey: string, l: Ledger, a: Attempt): Ledger {
    var rows := PaidRows(affected, idemKey, l.done, a.pool, a.failAt);
    Ledger(l.done + Marks(affected, idemKey, rows), l.log + rows,
           EndingOf(affected, idemKey, l.done, a.pool, a.failAt))
  }

  // The rows paid by a sequence of attempts that starts from a store with no mark of this batch.
  function Run(affected: seq<Buyer>, idemKey: string, start: set<string>, attempts: seq<Attempt>): Ledger {
    if attempts == [] then Ledger(start, [], Refused)
    else After(affected, idemKey, Run(affected, idemKey, start, attempts[..|attempts| - 1]), attempts[|attempts| - 1])
  }

  predicate NoDuplicates(rows: seq<nat>) {
    forall i, j | 0 <= i < j < |rows| :: rows[i] != rows[j]
  }

  lemma {:induction false} PendingAscends(affected: seq<Buyer>, idemKey: string, done: set<string>, n: nat)
    requires n <= |affected|
    ensures var rows := Pending(affected, idemKey, done, n);
            && (forall i, j | 0 <= i < j < |rows| :: rows[i] < rows[j])
            && (forall row | 0 <= row < n && KeyOf(affected, idemKey, row) !in done :: row in rows)
  {
    hide BuyerKey;
    if n > 0 {
      PendingAscends(affected, idemKey, done, n - 1);
    }
  }

  // Rows in the log are marked, and logged once.
  ghost predicate LogOk(affected: seq<Buyer>, idemKey: string, l: Ledger) {
    && NoDuplicates(l.log)
    && (forall row | row in l.log :: row < |affected| && KeyOf(affected, idemKey, row) in l.done)
  }

  lemma PaidRowsFresh(affected: seq<Buyer>, idemKey: string, done: set<string>, pool: nat, failAt: nat)
    ensures var rows := PaidRows(affected, idemKey, done, pool, failAt);
            && NoDuplicates(rows)
            && forall row | row in rows ::
                 KeyOf(affected, idemKey, row) !in done && KeyOf(affected, idemKey, row) in Marks(affected, idemKey, rows)
  {
    hide KeyOf, TotalOf;
    PendingAscends(affected, idemKey, done, |affected|);
  }

  lemma AfterLogOk(affected: seq<Buyer>, idemKey: string, l: Ledger, a: Attempt)
    requires LogOk(affected, idemKey, l)
    ensures LogOk(affected, idemKey, After(affected, idemKey, l, a))
  {
    hide KeyOf, TotalOf, PaidRows, Marks, EndingOf;
    PaidRowsFresh(affected, idemKey, l.done, a.pool, a.failAt);
    var rows := PaidRows(affected, idemKey, l.done, a.pool, a.failAt);
    JoinDistinct(l.log, rows);
  }

  lemma JoinDistinct(a: seq<nat>, b: seq<nat>)
    requires NoDuplicates(a) && NoDuplicates(b) && forall x | x in a :: x !in b
    ensures NoDuplicates(a + b)
  {
    forall i, j | 0 <= i < j < |a + b| ensures (a + b)[i] != (a + b)[j] {
      if i < |a| <= j {
        assert a[i] in a && b[j - |a|] in b;
      }
    }
  }

  // Whatever attempts crash where, no affected row is paid twice.
  lemma {:induction false} NoRowPaidTwice(affected: seq<Buyer>, idemKey: string, start: set<string>, attempts: seq<Attempt>)
    ensures LogOk(affected, idemKey, Run(affected, idemKey, start, attempts))
  {
    hide After;
    if attempts != [] {
      var front := attempts[..|attempts| - 1];
      NoRowPaidTwice(affected, idemKey, start, front);
      AfterLogOk(affected, idemKey, Run(affected, idemKey, start, front), attempts[|attempts| - 1]);
    }
  }

  // Payers differ even when letter case is ignored.
  predicate DistinctPayers(affected: seq<Buyer>) {
    forall i, j | 0 <= i < j < |affected| :: Lower(affected[i].payer) != Lower(affected[j].payer)
  }

  predicate Unmarked(affected: seq<Buyer>, idemKey: string, start: set<string>) {
    forall row | 0 <= row < |affected| :: KeyOf(affected, idemKey, row) !in start
  }

  lemma KeysTellRows(affected: seq<Buyer>, idemKey: string, i: nat, j: nat)
    requires i < |affected| && j < |affected|
    ensures KeyOf(affected, idemKey, i) == KeyOf(affected, idemKey, j)
       <==> Lower(affected[i].payer) == Lower(affected[j].payer)
  {
    var n := |idemKey| + 2;
    assert KeyOf(affected, idemKey, i)[n..] == Lower(affected[i].payer);
    assert KeyOf(affected, idemKey, j)[n..] == Lower(affected[j].payer);
  }

  // With distinct payers, a mark means its row was paid.
  lemma {:induction false} MarkedIsPaid(affected: seq<Buyer>, idemKey: string, start: set<string>,
                                        attempts: seq<Attempt>, row: nat)
    requires DistinctPayers(affected) && Unmarked(affected, idemKey, start) && row < |affected|
    ensures var l := Run(affected, idemKey, start, attempts);
            KeyOf(affected, idemKey, row) in l.done ==> row in l.log
  {
    hide BuyerKey, PaidRows, EndingOf;
    if attempts != [] {
      var front := attempts[..|attempts| - 1];
      MarkedIsPaid(affected, idemKey, start, front, row);
      var l := Run(affected, idemKey, start, front);
      var rows := PaidRows(affected, idemKey, l.done, attempts[|attempts| - 1].pool, attempts[|attempts| - 1].failAt);
      if KeyOf(affected, idemKey, row) in Marks(affected, idemKey, rows) {
        var i :| 0 <= i < |rows| && KeyOf(affected, idemKey, row) == KeyOf(affected, idemKey, rows[i]);
        KeysTellRows(affected, idemKey, row, rows[i]);
      }
    }
  }

  predicate AllPaid(affected: seq<Buyer>, log: seq<nat>) {
    forall row | 0 <= row < |affected| :: row in log
  }

  lemma FinishedMarksAll(affected: seq<Buyer>, idemKey: string, l: Ledger, a: Attempt, row: nat)
    requires row < |affected| && After(affected, idemKey, l, a).last.Finished?
    ensures KeyOf(affected, idemKey, row) in After(affected, idemKey, l, a).done
  {
    hide BuyerKey, TotalOf;
    PendingAscends(affected, idemKey, l.done, |affected|);
    var rows := PaidRows(affected, idemKey, l.done, a.pool, a.failAt);
    if KeyOf(affected, idemKey, row) !in l.done {
      assert row in rows;
    }
  }

  lemma ReturnPaysAll(affected: seq<Buyer>, idemKey: string, start: set<string>, attempts: seq<Attempt>)
    requires DistinctPayers(affected) && Unmarked(affected, idemKey, start)
    requires attempts != [] && Run(affected, idemKey, start, attempts).last.Finished?
    ensures AllPaid(affected, Run(affected, idemKey, start, attempts).log)
  {
    var front, a := attempts[..|attempts| - 1], attempts[|attempts| - 1];
    forall row | 0 <= row < |affected| ensures row in Run(affected, idemKey, start, attempts).log {
      FinishedMarksAll(affected, idemKey, Run(affected, idemKey, start, front), a, row);
      MarkedIsPaid(affected, idemKey, start, attempts, row);
    }
  }

  // ---------- Exactly when a normal return pays everyone ----------

  lemma {:induction false} AllPending(affected: seq<Buyer>, idemKey: string, done: set<string>, n: nat)
    requires n <= |affected| && Unmarked(affected, idemKey, done)
    ensures |Pending(affected, idemKey, done, n)| == n
    ensures forall i | 0 <= i < n :: Pending(affected, idemKey, done, n)[i] == i
  {
    hide BuyerKey;
    if n > 0 {
      AllPending(affected, idemKey, done, n - 1);
    }
  }

  // Crash right after paying row i, then retry: the pool is never short.
  function CrashAfter(affected: seq<Buyer>, i: nat): seq<Attempt> {
    [Attempt(TotalOf(affected), i + 1), Attempt(TotalOf(affected), |affected|)]
  }

  ghost predicate AlwaysPaysAll(affected: seq<Buyer>, idemKey: string, start: set<string>) {
    forall attempts | attempts != [] && Run(affected, idemKey, start, attempts).last.Finished? ::
      AllPaid(affected, Run(affected, idemKey, start, attempts).log)
  }

  lemma {:induction false} PendingShrinks(affected: seq<Buyer>, idemKey: string, done: set<string>, n: nat)
    requires n <= |affected|
    ensures TotalOf(Buyers(affected, Pending(affected, idemKey, done, n))) <= TotalOf(affected[..n])
  {
    hide BuyerKey;
    if n > 0 {
      PendingShrinks(affected, idemKey, done, n - 1);
      PrefixSnoc(affected, n - 1);
      var front := Pending(affected, idemKey, done, n - 1);
      var rows := Pending(affected, idemKey, done, n);
      if rows != front {
        assert Buyers(affected, rows) == Buyers(affected, front) + [affected[n - 1]];
        assert Buyers(affected, rows)[..|front|] == Buyers(affected, front);
      }
    }
  }

  lemma CrashPaysPrefix(affected: seq<Buyer>, idemKey: string, start: set<string>, i: nat)
    requires Unmarked(affected, idemKey, start) && i + 1 < |affected|
    ensures var l := Run(affected, idemKey, start, CrashAfter(affected, i)[..1]);
            && l.log == seq(i + 1, k => k)
            && l.done == start + Marks(affected, idemKey, seq(i + 1, k => k))
  {
    hide BuyerKey;
    var attempts := CrashAfter(affected, i)[..1];
    assert attempts == [Attempt(TotalOf(affected), i + 1)] && attempts[..0] == [];
    AllPending(affected, idemKey, start, |affected|);
    PendingShrinks(affected, idemKey, start, |affected|);
    assert affected[..|affected|] == affected;
    var rows := Pending(affected, idemKey, start, |affected|);
    assert rows[..i + 1] == seq(i + 1, k => k);
    assert Run(affected, idemKey, start, attempts[..0]) == Ledger(start, [], Refused);
  }

  // A second row of a payer already marked is skipped by the retry and never paid.
  lemma SharedPayerIsSkipped(affected: seq<Buyer>, idemKey: string, start: set<string>, i: nat, j: nat)
    requires Unmarked(affected, idemKey, start) && i < j < |affected|
    requires Lower(affected[i].payer) == Lower(affected[j].payer)
    ensures var l := Run(affected, idemKey, start, CrashAfter(affected, i)); l.last.Finished? && j !in l.log
  {
    hide BuyerKey, TotalOf, Pending;
    var attempts := CrashAfter(affected, i);
    CrashPaysPrefix(affected, idemKey, start, i);
    var l := Run(affected, idemKey, start, attempts[..1]);
    KeysTellRows(affected, idemKey, i, j);
    var first: seq<nat> := seq(i + 1, k => k);
    assert first[i] == i && KeyOf(affected, idemKey, first[i]) in Marks(affected, idemKey, first);
    PendingShrinks(affected, idemKey, l.done, |affected|);
    assert affected[..|affected|] == affected;
    PendingShort(affected, idemKey, l.done, |affected|);
  }

  lemma {:induction false} PendingShort(affected: seq<Buyer>, idemKey: string, done: set<string>, n: nat)
    requires n <= |affected|
    ensures |Pending(affected, idemKey, done, n)| <= n
  {
    hide BuyerKey;
    if n > 0 {
      PendingShort(affected, idemKey, done, n - 1);
    }
  }

  // Every retry schedule that ends in a normal return has paid every affected row once, exactly when
  // no two affected rows share a payer, letter case ignored.
  lemma PaysAllIffPayersDistinct(affected: seq<Buyer>, idemKey: string, start: set<string>)
    requires Unmarked(affected, idemKey, start)
    ensures AlwaysPaysAll(affected, idemKey, start) <==> DistinctPayers(affected)
  {
    hide Run, AllPaid;
    if DistinctPayers(affected) {
      forall attempts | attempts != [] && Run(affected, idemKey, start, attempts).last.Finished?
        ensures AllPaid(affected, Run(affected, idemKey, start, attempts).log)
      {
        ReturnPaysAll(affected, idemKey, start, attempts);
      }
    } else {
      var i, j :| 0 <= i < j < |affected| && Lower(affected[i].payer) == Lower(affected[j].payer);
      SharedPayerIsSkipped(affected, idemKey, start, i, j);
      NotAllPaid(affected, Run(affected, idemKey, start, CrashAfter(affected, i)).log, j);
    }
  }

  lemma NotAllPaid(affected: seq<Buyer>, log: seq<nat>, j: nat)
    requires j < |affected| && j !in log
    ensures !AllPaid(affected, log)
  {
  }

  function AllRows(n: nat): (rows: seq<nat>)
    ensures |rows| == n && forall i | 0 <= i < n :: rows[i] == i
  {
    if n == 0 then [] else AllRows(n - 1) + [n - 1]
  }

  lemma AddEither(x: multiset<nat>, y: multiset<nat>, z: multiset<nat>, row: nat)
    requires x + y == z
    ensures (x + multiset{row}) + y == z + multiset{row} && x + (y + multiset{row}) == z + multiset{row}
  {
  }

  // A normal return splits the affected rows into those it paid and those it skipped.
  lemma {:induction false} SkippedAndPendingPartition(affected: seq<Buyer>, idemKey: string, done: set<string>, n: nat)
    requires n <= |affected|
    ensures multiset(Skipped(affected, idemKey, done, n)) + multiset(Pending(affected, idemKey, done, n))
         == multiset(AllRows(n))
  {
    hide KeyOf;
    if n > 0 {
      SkippedAndPendingPartition(affected, idemKey, done, n - 1);
      AddEither(multiset(Skipped(affected, idemKey, done, n - 1)), multiset(Pending(affected, idemKey, done, n - 1)),
                multiset(AllRows(n - 1)), n - 1);
    }
  }

  // No attempt pays a row unless the pool covers every row still unpaid.
  lemma NeverBeyondPool(affected: seq<Buyer>, idemKey: string, done: set<string>, pool: nat, failAt: nat)
    ensures var rows := PaidRows(affected, idemKey, done, pool, failAt);
            && TotalOf(Buyers(affected, rows)) <= pool
            && (rows != [] ==> TotalOf(Buyers(affected, Pending(affected, idemKey, done, |affected|))) <= pool)
  {
    hide BuyerKey, Pending;
    var all := Pending(affected, idemKey, done, |affected|);
    var rows := PaidRows(affected, idemKey, done, pool, failAt);
    if rows != [] && failAt < |all| {
      var buyers := Buyers(affected, all);
      assert Buyers(affected, rows) == buyers[..failAt];
      PrefixTotal(buyers, failAt);
    } else {
      assert rows == [] ==> Buyers(affected, rows) == [];
    }
  }

  // ---------- Refunds that are broadcast and revert ----------

  lemma {:induction false} LogGrows(affected: seq<Buyer>, idemKey: string, start: set<string>, before: seq<Attempt>, after: seq<Attempt>)
    ensures Run(affected, idemKey, start, before).log <= Run(affected, idemKey, start, before + after).log
  {
    hide PaidRows, Marks, EndingOf;
    if after == [] {
      assert before + after == before;
    } else {
      LogGrows(affected, idemKey, start, before, after[..|after| - 1]);
      assert (before + after)[..|before + after| - 1] == before + after[..|after| - 1];
    }
  }

  // A refund counts from its broadcast. One that is broadcast and later reverts is marked, and no
  // later attempt sends it again.
  lemma RevertedIsNotRepaid(affected: seq<Buyer>, idemKey: string, start: set<string>,
                            before: seq<Attempt>, after: seq<Attempt>, row: nat)
    requires row in Run(affected, idemKey, start, before).log
    ensures var sent := Run(affected, idemKey, start, before).log;
            var all := Run(affected, idemKey, start, before + after).log;
            sent <= all && row !in all[|sent|..]
  {
    hide Run;
    LogGrows(affected, idemKey, start, before, after);
    NoRowPaidTwice(affected, idemKey, start, before + after);
    var sent, all := Run(affected, idemKey, start, before).log, Run(affected, idemKey, start, before + after).log;
    var i :| 0 <= i < |sent| && sent[i] == row;
    assert all[i] == row;
    forall j | |sent| <= j < |all| ensures all[j] != row {
    }
  }
}
