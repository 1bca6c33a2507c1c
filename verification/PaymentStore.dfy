// The reservation store of the escrow money path (packages/x402-arc/src/store.ts): reservations
// that expire lazily on read, and nonces spent for good.
module PaymentStore {
  import opened Prelude

  type Nonce = string

  datatype Lock = Lock(idemKey: Nonce, buyer: string, cap: nat, resourceId: string, expiresAt: int)

  datatype Store = Store(reservations: map<Nonce, Lock>, spent: set<Nonce>)

  const EMPTY: Store := Store(map[], {})

  predicate IsLive(s: Store, k: Nonce, now: int) {
    k in s.reservations && now < s.reservations[k].expiresAt
  }

  // The store without its expired reservations: what an eager store would hold.
  function Fresh(s: Store, now: int): Store {
    s.(reservations := map k | k in s.reservations && IsLive(s, k, now) :: s.reservations[k])
  }

  function Forget(s: Store, k: Nonce): Store {
    s.(reservations := s.reservations - {k})
  }

  // The lazy delete of a read.
  function Touched(s: Store, k: Nonce, now: int): Store {
    if k in s.reservations && !IsLive(s, k, now) then Forget(s, k) else s
  }

  function LiveOf(s: Store, buyer: string, now: int): set<Nonce> {
    set k | k in s.reservations && IsLive(s, k, now) && Lower(s.reservations[k].buyer) == Lower(buyer)
  }

  function Caps(s: Store): map<Nonce, int> {
    map k | k in s.reservations :: s.reservations[k].cap
  }

  ghost function Outstanding(s: Store, buyer: string, now: int): int {
    Sum(LiveOf(s, buyer, now), Caps(s))
  }

  class InMemoryPaymentStore {
    var reservations: map<Nonce, Lock>
    var spentNonces: set<Nonce>
    var strikes: map<string, nat>
    var settleTx: map<Nonce, string>

    ghost function View(): Store
      reads this
    {
      Store(reservations, spentNonces)
    }

    constructor ()
      ensures View() == EMPTY && strikes == map[] && settleTx == map[]
    {
      reservations, spentNonces, strikes, settleTx := map[], {}, map[], map[];
    }

    method CheckLive(k: Nonce, now: int) returns (live: bool)
      modifies this`reservations
      ensures live <==> k in old(reservations) && now < old(reservations)[k].expiresAt
      ensures reservations == if k in old(reservations) && !live then old(reservations) - {k} else old(reservations)
    {
      if k !in reservations {
        return false;
      }
      if reservations[k].expiresAt <= now {
        reservations := reservations - {k};
        return false;
      }
      return true;
    }

    method Reserve(lock: Lock, now: int) returns (ok: bool)
      modifies this`reservations
      ensures (View(), Flag(ok)) == LazyStep(old(View()), OpReserve(lock), now)
    {
      if lock.idemKey in spentNonces {
        return false;
      }
      var live := CheckLive(lock.idemKey, now);
      if live {
        return false;
      }
      reservations := reservations[lock.idemKey := lock];
      assert reservations == old(reservations)[lock.idemKey := lock];
      return true;
    }

    method Release(k: Nonce)
      modifies this`reservations
      ensures View() == Forget(old(View()), k)
    {
      reservations := reservations - {k};
    }

    method MarkNonceSpent(k: Nonce)
      modifies this`reservations, this`spentNonces
      ensures forall now :: (View(), Done) == LazyStep(old(View()), OpSpend(k), now)
    {
      spentNonces := spentNonces + {k};
      reservations := reservations - {k};
    }

    method IsNoncePending(k: Nonce, now: int) returns (pending: bool)
      modifies this`reservations
      ensures (View(), Flag(pending)) == LazyStep(old(View()), OpPending(k), now)
    {
      pending := CheckLive(k, now);
    }

    // Walks a snapshot of the keys, dropping the expired ones on the way.
    method OutstandingReserved(buyer: string, now: int) returns (sum: int)
      modifies this`reservations
      ensures sum == Outstanding(old(View()), buyer, now)
           == Sum(LiveOf(old(View()), buyer, now), map k | k in old(reservations) :: old(reservations)[k].cap)
      ensures View() == Fresh(old(View()), now)
    {
      hide LiveOf, Outstanding, Sum, Lower;
      ghost var was := View();
      var todo := reservations.Keys;
      ghost var seen: set<Nonce> := {};
      CountAll(was, buyer, now);
      sum := 0;
      while todo != {}
        invariant seen !! todo && seen + todo == was.reservations.Keys
        invariant spentNonces == was.spent
        invariant forall k | k in reservations :: k in was.reservations && reservations[k] == was.reservations[k]
        invariant forall k | k in was.reservations :: k in reservations <==> k in todo || IsLive(was, k, now)
        invariant sum == Counted(was, buyer, now, seen)
        decreases |todo|
      {
        var k :| k in todo;
        CountOne(was, buyer, now, seen, k);
        var live := CheckLive(k, now);
        if live && Lower(reservations[k].buyer) == Lower(buyer) {
          sum := sum + reservations[k].cap;
        }
        todo, seen := todo - {k}, seen + {k};
      }
      assert seen == was.reservations.Keys;
      assert reservations == Fresh(was, now).reservations;
      OutstandingIsSum(was, buyer, now);
    }

    method RecordStrike(resourceId: string)
      modifies this`strikes
      ensures strikes == old(strikes)[resourceId := 1 + if resourceId in old(strikes) then old(strikes)[resourceId] else 0]
    {
      strikes := strikes[resourceId := 1 + if resourceId in strikes then strikes[resourceId] else 0];
    }

    // The first recorded transaction of a nonce is kept.
    method RecordSettleTx(k: Nonce, tx: string)
      modifies this`settleTx
      ensures settleTx == if k in old(settleTx) then old(settleTx) else old(settleTx)[k := tx]
    {
      if k !in settleTx {
        settleTx := settleTx[k := tx];
      }
    }
  }

  ghost function Counted(s: Store, buyer: string, now: int, seen: set<Nonce>): int {
    Sum(LiveOf(s, buyer, now) * seen, Caps(s))
  }

  lemma CountOne(s: Store, buyer: string, now: int, seen: set<Nonce>, k: Nonce)
    requires k in s.reservations && k !in seen
    ensures Counted(s, buyer, now, seen + {k}) == Counted(s, buyer, now, seen)
          + if IsLive(s, k, now) && Lower(s.reservations[k].buyer) == Lower(buyer) then s.reservations[k].cap else 0
  {
    var mine := LiveOf(s, buyer, now);
    if k in mine {
      SumAdd(mine * seen, Caps(s), k);
      assert mine * (seen + {k}) == mine * seen + {k};
    } else {
      assert mine * (seen + {k}) == mine * seen;
    }
  }

  lemma OutstandingIsSum(s: Store, buyer: string, now: int)
    ensures Outstanding(s, buyer, now) == Sum(LiveOf(s, buyer, now), map k | k in s.reservations :: s.reservations[k].cap)
  {
  }

  lemma CountAll(s: Store, buyer: string, now: int)
    ensures Counted(s, buyer, now, {}) == 0
    ensures Counted(s, buyer, now, s.reservations.Keys) == Outstanding(s, buyer, now)
  {
    var mine := LiveOf(s, buyer, now);
    assert mine * {} == {};
    assert mine * s.reservations.Keys == mine;
  }

  // ---------- Lazy expiry against eager expiry ----------

  datatype Op =
    | OpReserve(lock: Lock)
    | OpRelease(k: Nonce)
    | OpSpend(k: Nonce)
    | OpPending(k: Nonce)
    | OpOutstanding(buyer: string)

  datatype Reply = Flag(b: bool) | Amount(n: int) | Done

  ghost function LazyStep(s: Store, op: Op, now: int): (Store, Reply) {
    match op
    case OpReserve(lock) =>
      if lock.idemKey in s.spent then (s, Flag(false))
      else if IsLive(s, lock.idemKey, now) then (s, Flag(false))
      else (s.(reservations := s.reservations[lock.idemKey := lock]), Flag(true))
    case OpRelease(k) => (Forget(s, k), Done)
    case OpSpend(k) => (Forget(s, k).(spent := s.spent + {k}), Done)
    case OpPending(k) => (Touched(s, k, now), Flag(IsLive(s, k, now)))
    case OpOutstanding(buyer) => (Fresh(s, now), Amount(Outstanding(s, buyer, now)))
  }

  // The reference: expired reservations are gone before the operation looks.
  ghost function EagerStep(s: Store, op: Op, now: int): (Store, Reply) {
    var f := Fresh(s, now);
    match op
    case OpReserve(lock) =>
      if lock.idemKey in f.spent || lock.idemKey in f.reservations then (f, Flag(false))
      else (Fresh(f.(reservations := f.reservations[lock.idemKey := lock]), now), Flag(true))
    case OpRelease(k) => (Forget(f, k), Done)
    case OpSpend(k) => (Forget(f, k).(spent := f.spent + {k}), Done)
    case OpPending(k) => (f, Flag(k in f.reservations))
    case OpOutstanding(buyer) =>
      var mine := set k | k in f.reservations && Lower(f.reservations[k].buyer) == Lower(buyer);
      (f, Amount(Sum(mine, Caps(f))))
  }

  type Timed = (Op, int)

  ghost function RunLazy(ops: seq<Timed>): (Store, seq<Reply>) {
    if ops == [] then (EMPTY, [])
    else
      var (s, replies) := RunLazy(ops[..|ops| - 1]);
      var (t, reply) := LazyStep(s, ops[|ops| - 1].0, ops[|ops| - 1].1);
      (t, replies + [reply])
  }

  ghost function RunEager(ops: seq<Timed>): (Store, seq<Reply>) {
    if ops == [] then (EMPTY, [])
    else
      var (s, replies) := RunEager(ops[..|ops| - 1]);
      var (t, reply) := EagerStep(s, ops[|ops| - 1].0, ops[|ops| - 1].1);
      (t, replies + [reply])
  }

  ghost predicate ClockAdvances(ops: seq<Timed>) {
    forall i, j | 0 <= i < j < |ops| :: ops[i].1 <= ops[j].1
  }

  lemma FreshUpdate(s: Store, f: Store, lock: Lock, now: int)
    requires Fresh(s, now) == f
    ensures Fresh(s.(reservations := s.reservations[lock.idemKey := lock]), now)
         == Fresh(f.(reservations := f.reservations[lock.idemKey := lock]), now)
  {
    var r := s.(reservations := s.reservations[lock.idemKey := lock]);
    var q := f.(reservations := f.reservations[lock.idemKey := lock]);
    assert forall k :: IsLive(r, k, now) <==> IsLive(q, k, now);
    assert Fresh(r, now).reservations == Fresh(q, now).reservations;
  }

  lemma StepRefines(s: Store, t: Store, op: Op, now: int)
    requires Fresh(s, now) == Fresh(t, now)
    ensures LazyStep(s, op, now).1 == EagerStep(t, op, now).1
    ensures Fresh(LazyStep(s, op, now).0, now) == EagerStep(t, op, now).0
  {
    var f := Fresh(t, now);
    assert s.spent == f.spent;
    assert forall k :: IsLive(s, k, now) <==> k in f.reservations;
    match op
    case OpReserve(lock) => FreshUpdate(s, f, lock, now);
    case OpRelease(k) => assert Fresh(Forget(s, k), now).reservations == Forget(f, k).reservations;
    case OpSpend(k) => assert Fresh(Forget(s, k).(spent := s.spent + {k}), now).reservations == Forget(f, k).reservations;
    case OpPending(k) => assert Fresh(Touched(s, k, now), now).reservations == f.reservations;
    case OpOutstanding(buyer) =>
      var mine := set k | k in f.reservations && Lower(f.reservations[k].buyer) == Lower(buyer);
      assert LiveOf(s, buyer, now) == mine;
      SumSame(mine, Caps(s), Caps(f));
  }

  // Under a clock that never runs back, the lazy store answers every operation as a store that
  // drops each reservation the moment it expires.
  lemma {:induction false} LazyRefinesEager(ops: seq<Timed>)
    requires ClockAdvances(ops)
    ensures RunLazy(ops).1 == RunEager(ops).1
    ensures ops != [] ==> Fresh(RunLazy(ops).0, ops[|ops| - 1].1) == RunEager(ops).0
  {
    if ops != [] {
      var front, now := ops[..|ops| - 1], ops[|ops| - 1].1;
      LazyRefinesEager(front);
      var s, t := RunLazy(front).0, RunEager(front).0;
      if front != [] {
        assert front[|front| - 1] == ops[|ops| - 2];
      }
      StepRefines(s, t, ops[|ops| - 1].0, now);
    }
  }

  // ---------- What is pending ----------

  // Operation b reserved the nonce, until a time that has not come, and none since released or spent it.
  ghost predicate ReservedAt(ops: seq<Timed>, b: int, k: Nonce, now: int) {
    && 0 <= b < |ops| && ops[b].0.OpReserve? && ops[b].0.lock.idemKey == k
    && LazyStep(RunLazy(ops[..b]).0, ops[b].0, ops[b].1).1 == Flag(true)
    && now < ops[b].0.lock.expiresAt
    && forall j | b < j < |ops| :: ops[j].0 != OpRelease(k) && ops[j].0 != OpSpend(k)
  }

  lemma ReservedLonger(front: seq<Timed>, last: Timed, b: int, k: Nonce, now: int)
    requires b < |front|
    ensures ReservedAt(front + [last], b, k, now)
       <==> ReservedAt(front, b, k, now) && last.0 != OpRelease(k) && last.0 != OpSpend(k)
  {
    hide RunLazy, LazyStep;
    var ops := front + [last];
    if 0 <= b {
      assert ops[..b] == front[..b] && ops[b] == front[b];
    }
    assert forall j | 0 <= j < |front| :: ops[j] == front[j];
    assert ops[|front|] == last;
  }

  lemma ReservedWithin(ops: seq<Timed>, b: int, k: Nonce, now: int)
    ensures ReservedAt(ops, b, k, now) ==> 0 <= b < |ops|
  {
  }

  // Under a clock that never runs back a nonce is pending if and only if a reservation of it was
  // accepted, has not expired, and has been neither released nor spent since.
  lemma {:induction false} PendingExactly(ops: seq<Timed>, k: Nonce, now: int)
    requires ClockAdvances(ops) && (ops != [] ==> ops[|ops| - 1].1 <= now)
    ensures IsLive(RunLazy(ops).0, k, now) <==> exists b :: ReservedAt(ops, b, k, now)
  {
    hide ReservedAt, RunLazy, IsLive;
    if ops == [] {
      RunNothing();
      NothingPending(k, now);
      forall b ensures !ReservedAt(ops, b, k, now) {
        ReservedWithin(ops, b, k, now);
      }
    } else {
      var n := |ops| - 1;
      assert ops == ops[..n] + [ops[n]];
      PendingExactly(ops[..n], k, now);
      PendingStep(ops[..n], ops[n], k, now);
    }
  }

  lemma PendingStep(front: seq<Timed>, last: Timed, k: Nonce, now: int)
    requires last.1 <= now && (IsLive(RunLazy(front).0, k, now) <==> exists b :: ReservedAt(front, b, k, now))
    ensures IsLive(RunLazy(front + [last]).0, k, now) <==> exists b :: ReservedAt(front + [last], b, k, now)
  {
    hide ReservedAt, RunLazy, IsLive;
    PendingNext(front, last, k, now);
    if b :| ReservedAt(front + [last], b, k, now) {
      ReservedWithin(front + [last], b, k, now);
      if b < |front| {
        ReservedLonger(front, last, b, k, now);
      }
    }
    if b :| ReservedAt(front, b, k, now) {
      ReservedWithin(front, b, k, now);
      ReservedLonger(front, last, b, k, now);
    }
  }

  lemma NothingPending(k: Nonce, now: int)
    ensures !IsLive(EMPTY, k, now)
  {
  }

  lemma PendingNext(front: seq<Timed>, last: Timed, k: Nonce, now: int)
    requires last.1 <= now
    ensures var s, ops := RunLazy(front).0, front + [last];
            IsLive(RunLazy(ops).0, k, now)
            == (ReservedAt(ops, |front|, k, now)
                || (IsLive(s, k, now) && last.0 != OpRelease(k) && last.0 != OpSpend(k)))
  {
    hide RunLazy, LiveOf, Outstanding;
    RunSnoc(front, last.0, last.1);
    assert (front + [last])[..|front|] == front;
  }

  // The reservations that count against a buyer are the pending ones of the buyer, in any letter case.
  lemma LiveExactly(s: Store, buyer: string, now: int, k: Nonce)
    ensures k in LiveOf(s, buyer, now) <==> IsLive(s, k, now) && SameLetters(s.reservations[k].buyer, buyer)
  {
    if k in s.reservations {
      LowerExactly(s.reservations[k].buyer, buyer);
    }
  }

  lemma RunNothing()
    ensures RunLazy([]) == (EMPTY, []) && RunEager([]) == (EMPTY, [])
  {
  }

  lemma RunSnoc(ops: seq<Timed>, op: Op, now: int)
    ensures RunLazy(ops + [(op, now)]) ==
            (LazyStep(RunLazy(ops).0, op, now).0, RunLazy(ops).1 + [LazyStep(RunLazy(ops).0, op, now).1])
    ensures RunEager(ops + [(op, now)]) ==
            (EagerStep(RunEager(ops).0, op, now).0, RunEager(ops).1 + [EagerStep(RunEager(ops).0, op, now).1])
  {
    assert (ops + [(op, now)])[..|ops|] == ops;
  }

  // A clock that runs back shows an expired reservation again to a store that has not read it.
  lemma ClockMustNotRunBack()
    ensures var ops := [(OpReserve(Lock("n", "b", 1, "r", 10)), 0), (OpRelease("m"), 20), (OpPending("n"), 5)];
            RunLazy(ops).1 == [Flag(true), Done, Flag(true)] && RunEager(ops).1 == [Flag(true), Done, Flag(false)]
  {
    hide RunLazy, RunEager, LiveOf, Outstanding;
    RunNothing();
    var lock := Lock("n", "b", 1, "r", 10);
    var held := Store(map["n" := lock], {});
    var first := [] + [(OpReserve(lock), 0)];
    var second := first + [(OpRelease("m"), 20)];
    RunSnoc([], OpReserve(lock), 0);
    RunSnoc(first, OpRelease("m"), 20);
    RunSnoc(second, OpPending("n"), 5);
    assert second + [(OpPending("n"), 5)] == [(OpReserve(lock), 0), (OpRelease("m"), 20), (OpPending("n"), 5)];
    assert Fresh(EMPTY, 0) == EMPTY && Fresh(held, 0) == held && Fresh(held, 20) == EMPTY;
    assert Forget(held, "m") == held && Forget(EMPTY, "m") == EMPTY && Fresh(EMPTY, 5) == EMPTY;
  }

  lemma {:induction false} SpentStaysSpent(ops: seq<Timed>, more: seq<Timed>, k: Nonce)
    requires k in RunLazy(ops).0.spent
    ensures k in RunLazy(ops + more).0.spent && k !in RunLazy(ops + more).0.reservations
  {
    if more == [] {
      assert ops + more == ops;
      ReservedIsNotSpent(ops);
    } else {
      SpentStaysSpent(ops, more[..|more| - 1], k);
      assert (ops + more)[..|ops + more| - 1] == ops + more[..|more| - 1];
    }
  }

  // Reserved and spent nonces never meet, expired or not; so a spent nonce is never pending again.
  lemma {:induction false} ReservedIsNotSpent(ops: seq<Timed>)
    ensures RunLazy(ops).0.reservations.Keys !! RunLazy(ops).0.spent
  {
    if ops != [] {
      ReservedIsNotSpent(ops[..|ops| - 1]);
    }
  }

  lemma SpentIsNeverPending(ops: seq<Timed>, more: seq<Timed>, k: Nonce, lock: Lock, now: int)
    requires k in RunLazy(ops).0.spent && lock.idemKey == k
    ensures LazyStep(RunLazy(ops + more).0, OpPending(k), now).1 == Flag(false)
    ensures LazyStep(RunLazy(ops + more).0, OpReserve(lock), now).1 == Flag(false)
  {
    SpentStaysSpent(ops, more, k);
  }
}
