// One signed nonce in two spellings: the stores key reservations, spent nonces and results on the
// text (packages/x402-arc/src/store.ts), the contract and the rebuilt receipt go by the bytes
// (services/facilitator/src/settle.ts, packages/x402-arc/src/codec.ts).
module Spellings {
  import opened Prelude
  import opened PaymentStore
  import opened Facilitator
  import opened Races

  // ---------- After the debit ----------

  ghost predicate ReservesSpelled(book: Book, s: Sys, more: seq<Step>, a: Nonce, signed: Nonce) {
    Signed(a) == signed && ReservesLater(book, s, more, a)
  }

  ghost predicate StillFree(s: Sys, a: Nonce, signed: Nonce) {
    Signed(a) == signed && a !in s.store.spent && ReadUnused(s, a)
  }

  // Once a signed nonce is debited, some continuation reserves it under some spelling if and only if
  // a verify read a spelling of it unused before the debit landed and has yet to reserve, and no
  // settle has marked that spelling spent.
  lemma AnySpellingReservesExactly(book: Book, s: Sys, signed: Nonce)
    requires signed in s.chain.debited
    ensures (exists a, more :: ReservesSpelled(book, s, more, a, signed)) <==> exists a :: StillFree(s, a, signed)
  {
    hide ReservesLater, ReadUnused, Signed;
    if a, more :| ReservesSpelled(book, s, more, a, signed) {
      UsedNonceReservesExactly(book, s, a);
      assert StillFree(s, a, signed);
    }
    if a :| StillFree(s, a, signed) {
      UsedNonceReservesExactly(book, s, a);
      var more :| ReservesLater(book, s, more, a);
      assert ReservesSpelled(book, s, more, a, signed);
    }
  }

  // ---------- Before the debit ----------

  function Reserve(cap: nat, store: Store, n: Nonce): Store { WithLock(store, LockFor(RaceBook(cap), n, 50)) }

  function One(cap: nat, a: Nonce): Store { Reserve(cap, PaymentStore.EMPTY, a) }

  function Twice(cap: nat): nat { cap + cap }

  // Both spellings are reserved, against twice the cap, and nothing is sent yet.
  function Both(cap: nat, a: Nonce, b: Nonce): Sys {
    Sys(0, Reserve(cap, One(cap, a), b), Chain(map["b" := Twice(cap)], map[], [], map["b" := Twice(cap)], map[], map[]),
        map[], map[0 := Verify(a, 50, Reserved), 1 := Verify(b, 50, Reserved)], map[])
  }

  lemma OneOpen(cap: nat, a: Nonce)
    ensures One(cap, a).reservations == map[a := Lock(a, "b", cap, "r", 50)] && One(cap, a).spent == {}
    ensures Outstanding(One(cap, a), "b", 0) == cap && Fresh(One(cap, a), 0) == One(cap, a)
  {
    var store := One(cap, a);
    RaceAccount(cap, a);
    assert LiveOf(store, "b", 0) == {a};
    SumRemove({a}, Caps(store), a);
    assert {a} - {a} == {};
  }

  lemma ReachesOne(cap: nat, a: Nonce) returns (steps: seq<Step>)
    ensures Run(RaceBook(cap), steps)
         == Both(cap, a, a).(store := One(cap, a), verifies := map[0 := Verify(a, 50, Reserved)])
  {
    hide RunFrom;
    var book := RaceBook(cap);
    RaceAccount(cap, a);
    OneOpen(cap, a);
    Races.RunNothing(book, START);
    Take(book, START, [], Deposit("b", Twice(cap)));
    steps := [] + [Deposit("b", Twice(cap))];
    NothingOpen(PaymentStore.EMPTY, "b", 0);
    steps := ReadsThrough(book, steps, 0, a);
    TakeReserve(book, START, steps, 0);
    steps := steps + [OnVerify(0)];
  }

  lemma ReachesBoth(cap: nat, a: Nonce, b: Nonce) returns (steps: seq<Step>)
    requires a != b
    ensures Run(RaceBook(cap), steps) == Both(cap, a, b)
  {
    hide RunFrom;
    var book := RaceBook(cap);
    RaceAccount(cap, b);
    OneOpen(cap, a);
    steps := ReachesOne(cap, a);
    steps := ReadsThrough(book, steps, 1, b);
    TakeReserve(book, START, steps, 1);
    steps := steps + [OnVerify(1)];
  }

  // ---------- Two settles, one debit ----------

  function Sent2(cap: nat, a: Nonce, b: Nonce): Sys {
    var s := Both(cap, a, b);
    s.(chain := s.chain.(txs := [Tx(a, cap, None)]), settles := map[0 := Settle(a, cap, Waiting(0))])
  }

  lemma FirstSends(cap: nat, a: Nonce, b: Nonce) returns (steps: seq<Step>)
    requires a != b
    ensures Run(RaceBook(cap), steps) == Sent2(cap, a, b)
  {
    hide RunFrom;
    var book := RaceBook(cap);
    RaceAccount(cap, a);
    steps := ReachesBoth(cap, a, b);
    Take(book, START, steps, StartSettle(0, a, cap));
    steps := steps + [StartSettle(0, a, cap)];
    var s := Run(book, steps);
    TakeSettle(book, START, steps, 0, Moves(s, PendingRead(true)));
    steps := steps + [OnSettle(0)];
    TakeSettle(book, START, steps, 0, Moves(s, Admitted));
    steps := steps + [OnSettle(0)];
    TakeSettle(book, START, steps, 0, Moves(s, NotStored));
    steps := steps + [OnSettle(0)];
    TakeSettle(book, START, steps, 0, Effect(s.store, [Tx(a, cap, None)], s.results, Waiting(0)));
    steps := steps + [OnSettle(0)];
  }

  function Landed(cap: nat, a: Nonce): Chain {
    Chain(map["b" := cap], map[Signed(a) := cap], [Tx(a, cap, Some(true))], map["b" := Twice(cap)], map[], map[])
  }

  // The first settle has answered; the second spelling is reserved still.
  function Answered1(cap: nat, a: Nonce, b: Nonce): Sys {
    var r := Receipt(cap, Some(0));
    Both(cap, a, b).(store := Store(map[b := LockFor(RaceBook(cap), b, 50)], {a}), chain := Landed(cap, a),
                     results := map[a := r], settles := map[0 := Settle(a, cap, Answered(Some(r)))])
  }

  lemma FirstConfirms(cap: nat, a: Nonce, b: Nonce) returns (steps: seq<Step>)
    requires a != b
    ensures Run(RaceBook(cap), steps)
         == Both(cap, a, b).(chain := Landed(cap, a), settles := map[0 := Settle(a, cap, Confirmed(Receipt(cap, Some(0))))])
  {
    hide RunFrom, Mined, Signed;
    var book := RaceBook(cap);
    steps := FirstSends(cap, a, b);
    FirstLands(cap, a, b);
    TakeLand(book, START, steps, Landed(cap, a));
    steps := steps + [Land(0)];
    TakeSettle(book, START, steps, 0, Moves(Run(book, steps), Confirmed(Receipt(cap, Some(0)))));
    steps := steps + [OnSettle(0)];
  }

  lemma SpendsFirst(cap: nat, a: Nonce, b: Nonce)
    requires a != b
    ensures Spent(Both(cap, a, b).store, a) == Answered1(cap, a, b).store
  {
    OneOpen(cap, a);
  }

  lemma FirstAnswers(cap: nat, a: Nonce, b: Nonce) returns (steps: seq<Step>)
    requires a != b
    ensures Run(RaceBook(cap), steps) == Answered1(cap, a, b)
  {
    hide RunFrom, Mined, Signed, Spent, Takes, IsLive;
    var book, r := RaceBook(cap), Receipt(cap, Some(0));
    steps := FirstConfirms(cap, a, b);
    var s := Run(book, steps);
    var spent := Answered1(cap, a, b).store;
    SpendsFirst(cap, a, b);
    TakeSettle(book, START, steps, 0, Moves(s, Marked(r)).(store := spent));
    steps := steps + [OnSettle(0)];
    TakeSettle(book, START, steps, 0, Effect(spent, [], map[a := r], Answered(Some(r))));
    steps := steps + [OnSettle(0)];
  }

  lemma FirstLands(cap: nat, a: Nonce, b: Nonce)
    requires a != b
    ensures Mined(RaceBook(cap), Sent2(cap, a, b), 0) == Landed(cap, a)
  {
    RaceAccount(cap, a);
    OneOpen(cap, a);
  }

  // The second settle finds the signed nonce used, and rebuilds the receipt.
  lemma SecondConfirms(cap: nat, a: Nonce, b: Nonce) returns (steps: seq<Step>)
    requires a != b && Signed(a) == Signed(b)
    ensures var s := Answered1(cap, a, b);
            Run(RaceBook(cap), steps) == s.(settles := s.settles[1 := Settle(b, cap, Confirmed(Receipt(cap, None)))])
  {
    hide RunFrom, Signed;
    var book := RaceBook(cap);
    steps := FirstAnswers(cap, a, b);
    Take(book, START, steps, StartSettle(1, b, cap));
    steps := steps + [StartSettle(1, b, cap)];
    var s := Run(book, steps);
    TakeSettle(book, START, steps, 1, Moves(s, PendingRead(true)));
    steps := steps + [OnSettle(1)];
    TakeSettle(book, START, steps, 1, Moves(s, Admitted));
    steps := steps + [OnSettle(1)];
    TakeSettle(book, START, steps, 1, Moves(s, NotStored));
    steps := steps + [OnSettle(1)];
    TakeSettle(book, START, steps, 1, Moves(s, Confirmed(Receipt(cap, None))));
    steps := steps + [OnSettle(1)];
  }

  // For any two spellings of one signed nonce there is a run in which both are reserved and both
  // settle with a receipt of the full amount, and the buyer is debited once.
  lemma TwoSpellingsOneDebit(cap: nat, a: Nonce, b: Nonce) returns (steps: seq<Step>)
    requires a != b && Signed(a) == Signed(b)
    ensures var s := Run(RaceBook(cap), steps);
            && s.verifies == map[0 := Verify(a, 50, Reserved), 1 := Verify(b, 50, Reserved)]
            && s.settles == map[0 := Settle(a, cap, Answered(Some(Receipt(cap, Some(0))))),
                                1 := Settle(b, cap, Answered(Some(Receipt(cap, None))))]
            && s.chain.debited == map[Signed(a) := cap]
            && Weight("b", s.chain.deposited) == 2 * cap && Balance(s.chain, "b") == cap
  {
    hide RunFrom, Signed, Mined, Takes, IsLive, Spent;
    var book, r := RaceBook(cap), Receipt(cap, None);
    steps := SecondConfirms(cap, a, b);
    var s := Run(book, steps);
    var spent := Spent(s.store, b);
    TakeSettle(book, START, steps, 1, Moves(s, Marked(r)).(store := spent));
    steps := steps + [OnSettle(1)];
    TakeSettle(book, START, steps, 1, Effect(spent, [], s.results[b := r], Answered(Some(r))));
    steps := steps + [OnSettle(1)];
    assert Run(book, steps).settles[1] == Settle(b, cap, Answered(Some(r)));
  }
}
