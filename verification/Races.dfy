// What may happen because the reads of a verify and its reserve are not one step, and exactly when it
// can (services/facilitator/src/verify.ts, settle.ts).
module Races {
  import opened Prelude
  import opened PaymentStore
  import opened Facilitator
  import opened Solvency

  // ---------- A used nonce ----------

  // Some verify on the nonce reserves after this point.
  ghost predicate ReservesLater(book: Book, s: Sys, more: seq<Step>, n: Nonce) {
    var t := RunFrom(book, s, more);
    exists j :: j in t.verifies && t.verifies[j].nonce == n && t.verifies[j].stage == Reserved
                && !(j in s.verifies && s.verifies[j].stage == Reserved)
  }

  // A verify on the nonce has read that it is unused and has yet to reserve.
  ghost predicate ReadUnused(s: Sys, n: Nonce) {
    exists j :: j in s.verifies && s.verifies[j].nonce == n && s.verifies[j].stage == Unused
  }

  // What stays so once the nonce is debited: no verify newly reads it unused, and one that reserves
  // had done so before.
  ghost predicate After(s: Sys, t: Sys, n: Nonce) {
    && Signed(n) in t.chain.debited
    && s.store.spent <= t.store.spent
    && (forall j | j in t.verifies && t.verifies[j].nonce == n && t.verifies[j].stage == Unused ::
          j in s.verifies && s.verifies[j].nonce == n && s.verifies[j].stage == Unused)
    && (forall j | j in t.verifies && t.verifies[j].nonce == n && t.verifies[j].stage == Reserved ::
          (j in s.verifies && s.verifies[j].stage == Reserved) || (n !in s.store.spent && ReadUnused(s, n)))
  }

  lemma VerifyOfUsed(book: Book, s: Sys, x: Verify)
    requires Signed(x.nonce) in s.chain.debited
    ensures var stage := VerifyNext(book, s, x).1;
            && stage != Unused
            && (stage == Reserved ==> x.stage == Reserved || (x.stage == Unused && x.nonce !in s.store.spent))
  {
    hide Locked, Outstanding, IsLive;
  }

  lemma NextAfter(book: Book, s: Sys, t: Sys, step: Step, n: Nonce)
    requires After(s, t, n)
    ensures After(s, Next(book, t, step), n)
  {
    hide VerifyNext, SettleNext, Mined, ReadUnused, Expired, Fresh, Forget, Funded, ChainGrows;
    NextExtends(book, t, step);
    DebitsStay(t.chain, Next(book, t, step).chain, Signed(n));
    var u := Next(book, t, step);
    if step.OnVerify? && step.j in t.verifies && t.verifies[step.j].nonce == n {
      VerifyOfUsed(book, t, t.verifies[step.j]);
      if t.verifies[step.j].stage == Unused {
        UnusedThen(s, step.j, n);
      }
    }
  }

  lemma DebitsStay(c: Chain, d: Chain, n: Nonce)
    requires ChainGrows(c, d) && n in c.debited
    ensures n in d.debited
  {
  }

  lemma UnusedThen(s: Sys, j: nat, n: Nonce)
    ensures j in s.verifies && s.verifies[j].nonce == n && s.verifies[j].stage == Unused ==> ReadUnused(s, n)
  {
  }

  lemma {:induction false} RunAfter(book: Book, s: Sys, more: seq<Step>, n: Nonce)
    requires Signed(n) in s.chain.debited
    ensures After(s, RunFrom(book, s, more), n)
  {
    if more != [] {
      hide After, Next;
      RunAfter(book, s, more[..|more| - 1], n);
      NextAfter(book, s, RunFrom(book, s, more[..|more| - 1]), more[|more| - 1], n);
    }
  }

  lemma UnusedReserves(book: Book, s: Sys, n: Nonce)
    requires n !in s.store.spent && ReadUnused(s, n)
    ensures exists more :: ReservesLater(book, s, more, n)
  {
    hide VerifyNext;
    var j :| j in s.verifies && s.verifies[j].nonce == n && s.verifies[j].stage == Unused;
    var late := if n in s.store.reservations && s.now < s.store.reservations[n].expiresAt
                then s.store.reservations[n].expiresAt else s.now;
    var wait, t := Tick(late), s.(now := late);
    var more := [wait, OnVerify(j)];
    assert more[..1] == [wait] && [wait][..0] == [];
    assert RunFrom(book, s, []) == s && RunFrom(book, s, [wait]) == t;
    assert RunFrom(book, s, more) == Next(book, t, OnVerify(j));
    ReservesNow(book, t, j);
    assert ReservesLater(book, s, more, n);
  }

  lemma ReservesNow(book: Book, s: Sys, j: nat)
    requires j in s.verifies && s.verifies[j].stage == Unused
    requires s.verifies[j].nonce !in s.store.spent && !IsLive(s.store, s.verifies[j].nonce, s.now)
    ensures VerifyNext(book, s, s.verifies[j]).1 == Reserved
  {
  }

  // A used nonce is reserved again in some continuation if and only if a verify read it unused before
  // the debit landed and has yet to reserve, and no settle has marked it spent.
  lemma UsedNonceReservesExactly(book: Book, s: Sys, n: Nonce)
    requires Signed(n) in s.chain.debited
    ensures (exists more :: ReservesLater(book, s, more, n)) <==> n !in s.store.spent && ReadUnused(s, n)
  {
    if n !in s.store.spent && ReadUnused(s, n) {
      UnusedReserves(book, s, n);
    } else {
      forall more ensures !ReservesLater(book, s, more, n) {
        RunAfter(book, s, more, n);
      }
    }
  }

  // ---------- Building runs ----------

  lemma Take(book: Book, s: Sys, steps: seq<Step>, step: Step)
    ensures RunFrom(book, s, steps + [step]) == Next(book, RunFrom(book, s, steps), step)
  {
    assert (steps + [step])[..|steps|] == steps;
  }

  // One buyer; every authorization is for the same cap and expires at second 100.
  function RaceBook(cap: nat): Book { k => Auth("b", "r", cap, 100) }

  lemma RaceAccount(cap: nat, n: Nonce)
    ensures Account(RaceBook(cap), n) == "b"
    ensures Signed("n") == "n" && Signed("m") == "m"
  {
    assert Lower("b") == "b";
    assert Signed("n") == "n" && Signed("m") == "m";
  }

  lemma TakeVerify(book: Book, s: Sys, steps: seq<Step>, j: nat, stage: VerifyStage)
    requires var t := RunFrom(book, s, steps);
             j in t.verifies && VerifyNext(book, t, t.verifies[j]) == (t.store, stage)
    ensures var t := RunFrom(book, s, steps);
            RunFrom(book, s, steps + [OnVerify(j)]) == t.(verifies := t.verifies[j := t.verifies[j].(stage := stage)])
  {
    hide VerifyNext, RunFrom, Mined, SettleNext, FirstStage, Fresh, Forget, Funded;
    Take(book, s, steps, OnVerify(j));
  }

  // A verify that nothing disturbs reads everything and is ready to reserve.
  lemma Reads(book: Book, s: Sys, j: nat) returns (calls: seq<Step>)
    requires j in s.verifies && s.verifies[j].stage == Queued
    requires var n := s.verifies[j].nonce;
             && Signed(n) !in s.chain.debited && n !in s.store.reservations
             && !Locked(book, s, Account(book, n)) && Fresh(s.store, s.now) == s.store
             && Terms(book, n).cap <= Balance(s.chain, Account(book, n)) - Outstanding(s.store, Account(book, n), s.now)
    ensures RunFrom(book, s, calls) == s.(verifies := s.verifies[j := s.verifies[j].(stage := Unused)])
    ensures forall k | 0 <= k < |calls| :: calls[k].OnVerify?
  {
    hide RunFrom, Outstanding, Locked, Account, Fresh, Balance;
    var x, n := s.verifies[j], s.verifies[j].nonce;
    var balance := Balance(s.chain, Account(book, n));
    calls := [];
    RunNothing(book, s);
    TakeVerify(book, s, calls, j, BalanceRead(balance));
    calls := calls + [OnVerify(j)];
    TakeVerify(book, s, calls, j, Covered);
    calls := calls + [OnVerify(j)];
    TakeVerify(book, s, calls, j, Free);
    calls := calls + [OnVerify(j)];
    TakeVerify(book, s, calls, j, Unused);
    calls := calls + [OnVerify(j)];
    assert s.verifies[j := x.(stage := BalanceRead(balance))][j := x.(stage := Covered)][j := x.(stage := Free)]
           [j := x.(stage := Unused)] == s.verifies[j := x.(stage := Unused)];
  }

  lemma RunNothing(book: Book, s: Sys)
    ensures RunFrom(book, s, []) == s
  {
  }

  lemma Begins(book: Book, s: Sys, steps: seq<Step>, j: nat, n: Nonce)
    requires var t := RunFrom(book, s, steps); j !in t.verifies && !Expired(book, n, t.now)
    ensures var t := RunFrom(book, s, steps);
            && RunFrom(book, s, steps + [StartVerify(j, n, Terms(book, n).resourceId, 50)])
               == t.(verifies := t.verifies[j := Verify(n, 50, Queued)])
  {
    Take(book, s, steps, StartVerify(j, n, Terms(book, n).resourceId, 50));
  }

  lemma Unlocked(book: Book, s: Sys, j: nat, x: Verify, account: string)
    requires !Locked(book, s, account) && j !in s.verifies && !Holds(x)
    ensures !Locked(book, s.(verifies := s.verifies[j := x]), account)
  {
  }

  // A verify begun here that nothing disturbs.
  lemma ReadsThrough(book: Book, steps: seq<Step>, j: nat, n: Nonce) returns (more: seq<Step>)
    requires var s := Run(book, steps);
             && j !in s.verifies && Signed(n) !in s.chain.debited && n !in s.store.reservations && !Expired(book, n, s.now)
             && !Locked(book, s, Account(book, n)) && Fresh(s.store, s.now) == s.store
             && Terms(book, n).cap <= Balance(s.chain, Account(book, n)) - Outstanding(s.store, Account(book, n), s.now)
    ensures Run(book, more) == Run(book, steps).(verifies := Run(book, steps).verifies[j := Verify(n, 50, Unused)])
  {
    hide RunFrom, Outstanding, Locked, Account, Expired, Fresh, Balance;
    var s := Run(book, steps);
    more := steps + [StartVerify(j, n, Terms(book, n).resourceId, 50)];
    Begins(book, START, steps, j, n);
    Unlocked(book, s, j, Verify(n, 50, Queued), Account(book, n));
    var calls := Reads(book, Run(book, more), j);
    RunSplit(book, START, more, calls);
    more := more + calls;
    assert s.verifies[j := Verify(n, 50, Queued)][j := Verify(n, 50, Unused)] == s.verifies[j := Verify(n, 50, Unused)];
  }

  lemma TakeReserve(book: Book, s: Sys, steps: seq<Step>, j: nat)
    requires var t := RunFrom(book, s, steps);
             && j in t.verifies && t.verifies[j].stage == Unused
             && t.verifies[j].nonce !in t.store.spent && t.verifies[j].nonce !in t.store.reservations
    ensures var t := RunFrom(book, s, steps);
            var n := t.verifies[j].nonce;
            && RunFrom(book, s, steps + [OnVerify(j)])
               == t.(store := WithLock(t.store, LockFor(book, n, t.now + t.verifies[j].ttl)),
                     verifies := t.verifies[j := t.verifies[j].(stage := Reserved)])
  {
    hide RunFrom, Mined, SettleNext, FirstStage, Outstanding, Locked, Fresh, Forget, Account;
    Take(book, s, steps, OnVerify(j));
  }

  lemma TakeSettle(book: Book, s: Sys, steps: seq<Step>, k: nat, e: Effect)
    requires var t := RunFrom(book, s, steps); k in t.settles && SettleNext(book, t, t.settles[k]) == e
    ensures RunFrom(book, s, steps + [OnSettle(k)]) == Settled(RunFrom(book, s, steps), k, e)
  {
    hide SettleNext, RunFrom, Mined, VerifyNext, FirstStage, Fresh, Forget, Funded;
    Take(book, s, steps, OnSettle(k));
  }

  // ---------- A reservation whose debit is under way ----------

  function Held(cap: nat): Store { Store(map["n" := LockFor(RaceBook(cap), "n", 50)], {}) }

  function OneTx(cap: nat): Chain { Chain(map["b" := cap], map[], [Tx("n", cap, None)], map["b" := cap], map[], map[]) }

  function Sent(cap: nat): Sys {
    Sys(0, Held(cap), OneTx(cap), map[], map[0 := Verify("n", 50, Reserved)], map[0 := Settle("n", cap, Waiting(0))])
  }

  lemma NothingOpen(store: Store, account: string, now: int)
    requires store.reservations == map[]
    ensures Outstanding(store, account, now) == 0 && Fresh(store, now) == store
  {
    assert LiveOf(store, account, now) == {};
  }

  // "n" is reserved, and its settle has just been asked for.
  function ToSettle(cap: nat): Sys {
    Sys(0, Held(cap), OneTx(cap).(txs := []), map[], map[0 := Verify("n", 50, Reserved)], map[0 := Settle("n", cap, Asked)])
  }

  lemma ReservesFirst(cap: nat) returns (steps: seq<Step>)
    ensures Run(RaceBook(cap), steps) == ToSettle(cap)
  {
    hide RunFrom;
    var book := RaceBook(cap);
    RaceAccount(cap, "n");
    RunNothing(book, START);
    Take(book, START, [], Deposit("b", cap));
    steps := [] + [Deposit("b", cap)];
    NothingOpen(PaymentStore.EMPTY, "b", 0);
    steps := ReadsThrough(book, steps, 0, "n");
    TakeReserve(book, START, steps, 0);
    steps := steps + [OnVerify(0)];
    Take(book, START, steps, StartSettle(0, "n", cap));
    steps := steps + [StartSettle(0, "n", cap)];
  }

  // The settle admits, finds no stored result and sends its debit.
  lemma Sends(cap: nat) returns (calls: seq<Step>)
    ensures RunFrom(RaceBook(cap), ToSettle(cap), calls) == Sent(cap)
    ensures forall k | 0 <= k < |calls| :: calls[k].OnSettle?
  {
    hide RunFrom;
    var book, s := RaceBook(cap), ToSettle(cap);
    RaceAccount(cap, "n");
    calls := [];
    RunNothing(book, s);
    TakeSettle(book, s, calls, 0, Moves(s, PendingRead(true)));
    calls := calls + [OnSettle(0)];
    TakeSettle(book, s, calls, 0, Moves(s, Admitted));
    calls := calls + [OnSettle(0)];
    TakeSettle(book, s, calls, 0, Moves(s, NotStored));
    calls := calls + [OnSettle(0)];
    TakeSettle(book, s, calls, 0, Effect(s.store, [Tx("n", cap, None)], s.results, Waiting(0)));
    calls := calls + [OnSettle(0)];
  }

  // The debit lands where it was reserved, and the settle answers.
  lemma Answers(cap: nat) returns (calls: seq<Step>)
    ensures var s := RunFrom(RaceBook(cap), ToSettle(cap), calls);
            && s.settles == map[0 := Settle("n", cap, Answered(Some(Receipt(cap, Some(0)))))]
            && s.chain == DebitLanded(cap, map[], map[])
    ensures forall k | 0 <= k < |calls| :: calls[k].OnSettle? || calls[k].Land?
  {
    hide RunFrom, Mined, Takes, IsLive;
    var book, s, r := RaceBook(cap), ToSettle(cap), Receipt(cap, Some(0));
    calls := Sends(cap);
    ReservedMines(cap);
    TakeLand(book, s, calls, DebitLanded(cap, map[], map[]));
    calls := calls + [Land(0)];
    var t := RunFrom(book, s, calls);
    TakeSettle(book, s, calls, 0, Moves(t, Confirmed(r)));
    calls := calls + [OnSettle(0)];
    TakeSettle(book, s, calls, 0, Moves(t, Marked(r)).(store := Spent(t.store, "n")));
    calls := calls + [OnSettle(0)];
    TakeSettle(book, s, calls, 0, Effect(Spent(t.store, "n"), [], map["n" := r], Answered(Some(r))));
    calls := calls + [OnSettle(0)];
    assert RunFrom(book, s, calls).settles[0] == Settle("n", cap, Answered(Some(r)));
  }

  lemma ReservedMines(cap: nat)
    ensures Mined(RaceBook(cap), Sent(cap), 0) == DebitLanded(cap, map[], map[])
  {
    RaceAccount(cap, "n");
  }

  lemma ReachesSent(cap: nat) returns (steps: seq<Step>)
    ensures Run(RaceBook(cap), steps) == Sent(cap)
  {
    steps := ReservesFirst(cap);
    var calls := Sends(cap);
    RunSplit(RaceBook(cap), START, steps, calls);
    steps := steps + calls;
  }

  lemma TakeLand(book: Book, s: Sys, steps: seq<Step>, c: Chain)
    requires var t := RunFrom(book, s, steps); 0 < |t.chain.txs| && t.chain.txs[0].outcome.None? && Mined(book, t, 0) == c
    ensures RunFrom(book, s, steps + [Land(0)]) == RunFrom(book, s, steps).(chain := c)
  {
    hide Mined, RunFrom, VerifyNext, SettleNext, FirstStage, Fresh, Forget, Funded;
    Take(book, s, steps, Land(0));
  }

  // The debit landed, and counted as one kind of stray or the other.
  function DebitLanded(cap: nat, unreserved: map<string, int>, windowed: map<string, int>): Chain {
    Chain(map["b" := 0], map["n" := cap], [Tx("n", cap, Some(true))], map["b" := cap], unreserved, windowed)
  }

  function Taken(cap: nat, spent: set<Nonce>, n: Nonce): Store {
    Store(map[n := LockFor(RaceBook(cap), n, 50)], spent)
  }

  // Another reservation of the whole cap stands, and nothing is left to pay it.
  lemma OwesAll(cap: nat, s: Sys, n: Nonce)
    requires s.store.reservations == map[n := LockFor(RaceBook(cap), n, 50)] && s.now == 0 && Signed(n) !in s.chain.debited
    ensures Owed(s, "b") == cap
  {
    assert Lower("b") == "b";
    assert LiveOf(s.store, "b", 0) == {n};
    SumRemove({n}, Claims(s), n);
    assert {n} - {n} == {};
  }

  // A verify of "m" reads the balance; the debit of "n" lands and is marked; the verify then sums no
  // open reservation, and reserves what the balance no longer holds.
  lemma WindowRace(cap: nat) returns (steps: seq<Step>)
    ensures var s := Run(RaceBook(cap), steps);
            s.chain == DebitLanded(cap, map[], map["b" := cap]) && Owed(s, "b") == cap
  {
    hide RunFrom;
    var book := RaceBook(cap);
    RaceAccount(cap, "n");
    RaceAccount(cap, "m");
    steps := ReachesSent(cap);
    Take(book, START, steps, StartVerify(1, "m", "r", 50));
    steps := steps + [StartVerify(1, "m", "r", 50)];
    TakeVerify(book, START, steps, 1, BalanceRead(cap));
    steps := steps + [OnVerify(1)];
    steps := WindowLands(cap, steps);
    NothingOpen(Store(map[], {"n"}), "b", 0);
    TakeVerify(book, START, steps, 1, Covered);
    steps := steps + [OnVerify(1)];
    TakeVerify(book, START, steps, 1, Free);
    steps := steps + [OnVerify(1)];
    TakeVerify(book, START, steps, 1, Unused);
    steps := steps + [OnVerify(1)];
    TakeReserve(book, START, steps, 1);
    steps := steps + [OnVerify(1)];
    OwesAll(cap, Run(book, steps), "m");
  }

  lemma WindowLands(cap: nat, before: seq<Step>) returns (steps: seq<Step>)
    requires Run(RaceBook(cap), before)
          == Sent(cap).(verifies := map[0 := Verify("n", 50, Reserved), 1 := Verify("m", 50, BalanceRead(cap))])
    ensures var s := Run(RaceBook(cap), steps);
            && s.now == 0 && s.store == Store(map[], {"n"}) && s.chain == DebitLanded(cap, map[], map["b" := cap])
            && s.verifies == map[0 := Verify("n", 50, Reserved), 1 := Verify("m", 50, BalanceRead(cap))]
  {
    hide RunFrom, Mined, Takes, IsLive;
    var book := RaceBook(cap);
    WindowMines(cap, Run(book, before));
    TakeLand(book, START, before, DebitLanded(cap, map[], map["b" := cap]));
    steps := before + [Land(0)];
    var s := Run(book, steps);
    TakeSettle(book, START, steps, 0, Moves(s, Confirmed(Receipt(cap, Some(0)))));
    steps := steps + [OnSettle(0)];
    TakeSettle(book, START, steps, 0, Moves(s, Marked(Receipt(cap, Some(0)))).(store := Store(map[], {"n"})));
    steps := steps + [OnSettle(0)];
  }

  lemma WindowMines(cap: nat, s: Sys)
    requires s == Sent(cap).(verifies := map[0 := Verify("n", 50, Reserved), 1 := Verify("m", 50, BalanceRead(cap))])
    ensures Mined(RaceBook(cap), s, 0) == DebitLanded(cap, map[], map["b" := cap])
  {
    RaceAccount(cap, "n");
    RaceAccount(cap, "m");
    assert s.verifies[1].stage.BalanceRead?;
    assert Exposed(RaceBook(cap), s, "b");
  }

  // The reservation is released while its debit is under way, and the balance promised to another.
  lemma ReleaseRace(cap: nat) returns (steps: seq<Step>)
    ensures var s := Run(RaceBook(cap), steps);
            s.chain == DebitLanded(cap, map["b" := cap], map[]) && Owed(s, "b") == cap
  {
    hide RunFrom;
    var book := RaceBook(cap);
    RaceAccount(cap, "n");
    RaceAccount(cap, "m");
    steps := ReleasedPromises(cap);
    TakeLand(book, START, steps, DebitLanded(cap, map["b" := cap], map[]));
    steps := steps + [Land(0)];
    OwesAll(cap, Run(book, steps), "m");
  }

  lemma ReleasedPromises(cap: nat) returns (steps: seq<Step>)
    ensures Run(RaceBook(cap), steps)
         == Sent(cap).(store := Taken(cap, {}, "m"),
                       verifies := map[0 := Verify("n", 50, Reserved), 1 := Verify("m", 50, Reserved)])
  {
    hide RunFrom;
    var book := RaceBook(cap);
    RaceAccount(cap, "m");
    steps := ReachesReleased(cap);
    NothingOpen(PaymentStore.EMPTY, "b", 0);
    steps := ReadsThrough(book, steps, 1, "m");
    TakeReserve(book, START, steps, 1);
    steps := steps + [OnVerify(1)];
  }

  lemma ReachesReleased(cap: nat) returns (steps: seq<Step>)
    ensures Run(RaceBook(cap), steps) == Sent(cap).(store := PaymentStore.EMPTY)
  {
    hide RunFrom;
    steps := ReachesSent(cap);
    Take(RaceBook(cap), START, steps, Release("n"));
    assert Forget(Held(cap), "n") == PaymentStore.EMPTY;
    steps := steps + [Release("n")];
  }

  // A replayed verify of "n" reads it unused while its debit is under way, and reserves it once the
  // debit has landed: two verifies hold a reservation of one nonce, the second after it was debited.
  lemma ReplayRace(cap: nat) returns (before: seq<Step>, after: seq<Step>)
    ensures "n" in Run(RaceBook(cap), before).chain.debited
    ensures ReservesLater(RaceBook(cap), Run(RaceBook(cap), before), after, "n")
    ensures Run(RaceBook(cap), before + after) == RunFrom(RaceBook(cap), Run(RaceBook(cap), before), after)
  {
    var book := RaceBook(cap);
    RaceAccount(cap, "n");
    var steps := ReachesReleased(cap);
    before := ReplayLands(cap, steps);
    UsedNonceReservesExactly(book, Run(book, before), "n");
    after :| ReservesLater(book, Run(book, before), after, "n");
    RunSplit(book, START, before, after);
  }

  lemma ReplayLands(cap: nat, released: seq<Step>) returns (steps: seq<Step>)
    requires Run(RaceBook(cap), released) == Sent(cap).(store := PaymentStore.EMPTY)
    ensures var s := Run(RaceBook(cap), steps);
            "n" in s.chain.debited && "n" !in s.store.spent && ReadUnused(s, "n")
  {
    hide RunFrom;
    var book := RaceBook(cap);
    RaceAccount(cap, "n");
    NothingOpen(PaymentStore.EMPTY, "b", 0);
    steps := ReadsThrough(book, released, 1, "n");
    TakeLand(book, START, steps, DebitLanded(cap, map["b" := cap], map[]));
    steps := steps + [Land(0)];
    assert Run(book, steps).verifies[1] == Verify("n", 50, Unused);
  }

  // ---------- When reservations are sure to be funded ----------

  ghost predicate Strays(book: Book, steps: seq<Step>, account: string, unreserved: nat, windowed: nat) {
    var c := Run(book, steps).chain;
    Lower(account) == account && Weight(account, c.unreserved) <= unreserved && Weight(account, c.windowed) <= windowed
  }

  ghost predicate NothingShort(book: Book, steps: seq<Step>, account: string) {
    Owed(Run(book, steps), account) <= Balance(Run(book, steps).chain, account)
  }

  ghost predicate AlwaysFunded(unreserved: nat, windowed: nat) {
    forall book, steps, account | Strays(book, steps, account, unreserved, windowed) :: NothingShort(book, steps, account)
  }

  // Runs with at most so much debited without a live reservation, and so much between a verify's two
  // reads, all keep what is owed within the balance if and only if neither is allowed at all.
  lemma SolventExactly(unreserved: nat, windowed: nat)
    ensures AlwaysFunded(unreserved, windowed) <==> unreserved == 0 && windowed == 0
  {
    if unreserved == 0 && windowed == 0 {
      forall book, steps, account | Strays(book, steps, account, 0, 0) ensures NothingShort(book, steps, account) {
        OwedWithinBacking(book, steps, account);
      }
    } else if 0 < windowed {
      var steps := WindowRace(windowed);
      assert Lower("b") == "b";
      assert Strays(RaceBook(windowed), steps, "b", unreserved, windowed);
      assert !NothingShort(RaceBook(windowed), steps, "b");
    } else {
      var steps := ReleaseRace(unreserved);
      assert Lower("b") == "b";
      assert Strays(RaceBook(unreserved), steps, "b", unreserved, windowed);
      assert !NothingShort(RaceBook(unreserved), steps, "b");
    }
  }
}
