// The rolling 24-hour spend cap (packages/data-proxy/src/spend-cap.ts) and the pre-reserve gate
// that holds and refunds spends (services/facilitator/src/spend-cap-gate.ts).
module SpendCap {
  import opened Prelude

  const WINDOW: int := 24 * 3600

  datatype SpendEntry = SpendEntry(at: int, amount: int)
  type Entries = seq<SpendEntry>

  function Trim(es: Entries, cutoff: int): Entries {
    if es == [] then []
    else if es[0].at > cutoff then [es[0]] + Trim(es[1..], cutoff)
    else Trim(es[1..], cutoff)
  }

  function Total(es: Entries): int {
    if es == [] then 0 else es[0].amount + Total(es[1..])
  }

  function RemoveFirst(es: Entries, e: SpendEntry): Entries {
    if es == [] then [] else if es[0] == e then es[1..] else [es[0]] + RemoveFirst(es[1..], e)
  }

  // The spends that count at an instant.
  function Rolling(es: Entries, now: int): int {
    Total(Trim(es, now - WINDOW))
  }

  function Pushed(es: Entries, amount: int, now: int): Entries {
    if amount != 0 then es + [SpendEntry(now, amount)] else es
  }

  // ---------- The store ----------

  type Store = map<string, Entries>

  function ListOf(s: Store, payer: string): Entries {
    if payer in s then s[payer] else []
  }

  function Tried(s: Store, payer: string, amount: int, cap: int, now: int): (Store, bool) {
    var kept := Trim(ListOf(s, payer), now - WINDOW);
    if Total(kept) + amount > cap then (s[payer := kept], false)
    else (s[payer := Pushed(kept, amount, now)], true)
  }

  function Refunded(s: Store, payer: string, amount: int, at: int): Store {
    s[payer := RemoveFirst(Trim(ListOf(s, payer), at - WINDOW), SpendEntry(at, amount))]
  }

  // A zero amount is a read and is never stored.
  ghost predicate NonZero(s: Store) {
    forall p, e | p in s && e in s[p] :: e.amount != 0
  }

  class InMemorySpendCapStore {
    var entries: Store

    ghost predicate Valid()
      reads this
    {
      NonZero(entries)
    }

    constructor ()
      ensures Valid() && entries == map[]
    {
      entries := map[];
    }

    method Sum(es: Entries) returns (total: int)
      ensures total == Total(es)
    {
      total := 0;
      for i := 0 to |es|
        invariant total == Total(es[..i])
      {
        assert es[..i + 1] == es[..i] + [es[i]];
        TotalAppend(es[..i], [es[i]]);
        total := total + es[i].amount;
      }
      assert es[..|es|] == es;
    }

    method RecordSpend(payer: string, amount: int, now: int) returns (total: int)
      requires Valid()
      modifies this
      ensures Valid()
      ensures entries == old(entries)[payer := Pushed(Trim(ListOf(old(entries), payer), now - WINDOW), amount, now)]
      ensures total == Rolling(ListOf(old(entries), payer), now) + amount
    {
      var kept := Trim(ListOf(entries, payer), now - WINDOW);
      TrimKeeps(ListOf(entries, payer), now - WINDOW);
      if amount != 0 {
        TotalAppend(kept, [SpendEntry(now, amount)]);
        kept := kept + [SpendEntry(now, amount)];
      }
      entries := entries[payer := kept];
      total := Sum(kept);
    }

    method TryRecordSpend(payer: string, amount: int, cap: int, now: int) returns (allowed: bool, total: int)
      requires Valid()
      modifies this
      ensures Valid()
      ensures allowed <==> Rolling(ListOf(old(entries), payer), now) + amount <= cap
      ensures total == Rolling(ListOf(old(entries), payer), now) + if allowed then amount else 0
      ensures entries == Tried(old(entries), payer, amount, cap, now).0
    {
      var kept := Trim(ListOf(entries, payer), now - WINDOW);
      TrimKeeps(ListOf(entries, payer), now - WINDOW);
      var rolling := Sum(kept);
      if rolling + amount > cap {
        entries := entries[payer := kept];
        return false, rolling;
      }
      if amount != 0 {
        kept := kept + [SpendEntry(now, amount)];
      }
      entries := entries[payer := kept];
      return true, rolling + amount;
    }

    method RefundSpend(payer: string, amount: int, now: int) returns (total: int)
      requires Valid()
      modifies this
      ensures Valid()
      ensures entries == Refunded(old(entries), payer, amount, now)
      ensures total == Total(ListOf(entries, payer))
    {
      var kept := Trim(ListOf(entries, payer), now - WINDOW);
      TrimKeeps(ListOf(entries, payer), now - WINDOW);
      var e := SpendEntry(now, amount);
      var idx := 0;
      while idx < |kept| && kept[idx] != e
        invariant 0 <= idx <= |kept|
        invariant e !in kept[..idx]
      {
        idx := idx + 1;
      }
      SpliceRemovesFirst(kept, idx, e);
      if idx < |kept| {
        assert forall x | x in kept[..idx] + kept[idx + 1..] :: x in kept;
        kept := kept[..idx] + kept[idx + 1..];
      }
      entries := entries[payer := kept];
      total := Sum(kept);
    }
  }

  // Reads the window and decides; what any later read sees is unchanged.
  method SpendCapGate(payer: string, amount: int, cap: int, store: InMemorySpendCapStore, now: int)
    returns (allow: bool)
    requires store.Valid()
    modifies store
    ensures store.Valid()
    ensures allow <==> Rolling(ListOf(old(store.entries), payer), now) + amount <= cap
    ensures forall p, t | now <= t :: Rolling(ListOf(store.entries, p), t) == Rolling(ListOf(old(store.entries), p), t)
  {
    var before := store.entries;
    var rolling := store.RecordSpend(payer, 0, now);
    forall p, t | now <= t
      ensures Rolling(ListOf(store.entries, p), t) == Rolling(ListOf(before, p), t)
    {
      TrimTwice(ListOf(before, p), now - WINDOW, t - WINDOW);
    }
    return rolling + amount <= cap;
  }

  datatype Decision = Deny | ReserveRejected | Allow | Threw

  // The hold is placed before the reservation is asked for and undone when it is refused; a
  // reservation that throws (None) leaves it in place.
  method PreReserveGate(payer: string, amount: int, cap: int, store: InMemorySpendCapStore, now: int, reserves: Option<bool>)
    returns (decision: Decision)
    requires store.Valid()
    modifies store
    ensures store.Valid()
    ensures decision == (if Rolling(ListOf(old(store.entries), payer), now) + amount > cap then Deny
                         else if reserves.None? then Threw
                         else if reserves.value then Allow
                         else ReserveRejected)
    ensures decision.Allow? || decision.Threw? ==>
              Rolling(ListOf(store.entries, payer), now) == Rolling(ListOf(old(store.entries), payer), now) + amount
    ensures decision.Deny? || decision.ReserveRejected? ==>
              multiset(ListOf(store.entries, payer)) == multiset(Trim(ListOf(old(store.entries), payer), now - WINDOW))
    ensures forall p | p != payer :: ListOf(store.entries, p) == ListOf(old(store.entries), p)
  {
    hide Trim, RemoveFirst, Total;
    ghost var before := ListOf(store.entries, payer);
    HoldAndUndo(before, amount, now);
    var allowed, _ := store.TryRecordSpend(payer, amount, cap, now);
    if !allowed {
      return Deny;
    }
    if reserves.None? {
      return Threw;
    }
    if !reserves.value {
      TrimKeeps(before, now - WINDOW);
      var _ := store.RefundSpend(payer, amount, now);
      return ReserveRejected;
    }
    return Allow;
  }

  // A hold adds its amount to the window; undoing it leaves the spends of the trimmed list.
  lemma HoldAndUndo(es: Entries, amount: int, now: int)
    ensures var held := Pushed(Trim(es, now - WINDOW), amount, now);
            && Rolling(held, now) == Rolling(es, now) + amount
            && Trim(held, now - WINDOW) == held
            && (amount != 0 || SpendEntry(now, amount) !in held ==>
                  multiset(RemoveFirst(held, SpendEntry(now, amount))) == multiset(Trim(es, now - WINDOW)))
  {
    hide Trim, RemoveFirst, Total;
    var kept := Trim(es, now - WINDOW);
    var held := Pushed(kept, amount, now);
    var hold := SpendEntry(now, amount);
    TrimTwice(es, now - WINDOW, now - WINDOW);
    RollingPush(kept, amount, now);
    TrimPushed(es, amount, now);
    RemoveFirstMultiset(held, hold);
    assert multiset(kept + [hold]) - multiset{hold} == multiset(kept);
  }

  lemma TrimPushed(es: Entries, amount: int, now: int)
    ensures var kept := Trim(es, now - WINDOW);
            Trim(Pushed(kept, amount, now), now - WINDOW) == Pushed(kept, amount, now)
  {
    TrimTwice(es, now - WINDOW, now - WINDOW);
    TrimAppend(Trim(es, now - WINDOW), [SpendEntry(now, amount)], now - WINDOW);
  }

  // ---------- Small facts ----------

  lemma {:induction false} TrimKeeps(es: Entries, c: int)
    ensures forall e | e in Trim(es, c) :: e in es && e.at > c
  {
    if es != [] {
      TrimKeeps(es[1..], c);
    }
  }

  lemma {:induction false} TotalAppend(a: Entries, b: Entries)
    ensures Total(a + b) == Total(a) + Total(b)
  {
    if a == [] {
      assert a + b == b;
    } else {
      TotalAppend(a[1..], b);
      assert (a + b)[1..] == a[1..] + b;
    }
  }

  lemma {:induction false} TrimAppend(a: Entries, b: Entries, c: int)
    ensures Trim(a + b, c) == Trim(a, c) + Trim(b, c)
  {
    if a == [] {
      assert a + b == b;
    } else {
      assert (a + b)[1..] == a[1..] + b;
      TrimAppend(a[1..], b, c);
      if a[0].at > c {
        Regroup([a[0]], Trim(a[1..], c), Trim(b, c));
      }
    }
  }

  lemma {:induction false} TrimTwice(es: Entries, c: int, d: int)
    requires c <= d
    ensures Trim(Trim(es, c), d) == Trim(es, d)
  {
    if es != [] {
      TrimTwice(es[1..], c, d);
    }
  }

  lemma {:induction false} RemoveFirstMultiset(es: Entries, e: SpendEntry)
    ensures multiset(RemoveFirst(es, e)) == multiset(es) - multiset{e}
  {
    if es != [] {
      assert es == [es[0]] + es[1..];
      if es[0] != e {
        RemoveFirstMultiset(es[1..], e);
      }
    }
  }

  lemma SpliceRemovesFirst(es: Entries, idx: nat, e: SpendEntry)
    requires idx <= |es| && e !in es[..idx]
    requires idx < |es| ==> es[idx] == e
    ensures RemoveFirst(es, e) == if idx < |es| then es[..idx] + es[idx + 1..] else es
  {
    assert es == es[..idx] + es[idx..];
    RemoveFirstAppend(es[..idx], es[idx..], e);
    if idx < |es| {
      assert es[idx..][1..] == es[idx + 1..];
    }
  }

  lemma {:induction false} RemoveFirstAppend(a: Entries, b: Entries, e: SpendEntry)
    ensures RemoveFirst(a + b, e) == if e in a then RemoveFirst(a, e) + b else a + RemoveFirst(b, e)
  {
    if a == [] {
      assert a + b == b;
    } else {
      assert (a + b)[1..] == a[1..] + b;
      if a[0] != e {
        RemoveFirstAppend(a[1..], b, e);
        Regroup([a[0]], RemoveFirst(a[1..], e), b);
        assert [a[0]] + a[1..] == a;
        Regroup([a[0]], a[1..], RemoveFirst(b, e));
        assert e in a <==> e in a[1..];
      }
    }
  }

  // Removing an entry a trim keeps commutes with it; one it drops leaves no trace.
  lemma {:induction false} TrimRemove(es: Entries, e: SpendEntry, c: int)
    ensures Trim(RemoveFirst(es, e), c) == if e.at > c then RemoveFirst(Trim(es, c), e) else Trim(es, c)
  {
    if es != [] && es[0] != e {
      TrimRemove(es[1..], e, c);
    }
  }

  lemma {:induction false} TotalNonNegative(es: Entries)
    requires forall i | 0 <= i < |es| :: 0 <= es[i].amount
    ensures 0 <= Total(es)
  {
    if es != [] {
      TotalNonNegative(es[1..]);
    }
  }

  // ---------- Runs: the trimmed store beside the full history ----------

  datatype Op =
    | Try(payer: string, amount: nat, now: int)
    | Read(payer: string, now: int)
    | Refund(payer: string, amount: nat, at: int)

  function Next(s: Store, cap: int, op: Op): Store {
    match op
    case Try(payer, amount, now) => Tried(s, payer, amount, cap, now).0
    case Read(payer, now) => s[payer := Trim(ListOf(s, payer), now - WINDOW)]
    case Refund(payer, amount, at) => Refunded(s, payer, amount, at)
  }

  // The history that forgets nothing: every accepted spend that has not been refunded.
  function NextFull(s: Store, cap: int, op: Op): Store {
    match op
    case Try(payer, amount, now) =>
      var h := ListOf(s, payer);
      if Rolling(h, now) + amount > cap then s else s[payer := Pushed(h, amount, now)]
    case Read(_, _) => s
    case Refund(payer, amount, at) => s[payer := RemoveFirst(ListOf(s, payer), SpendEntry(at, amount))]
  }

  function Run(cap: int, ops: seq<Op>): Store {
    if ops == [] then map[] else Next(Run(cap, ops[..|ops| - 1]), cap, ops[|ops| - 1])
  }

  function RunFull(cap: int, ops: seq<Op>): Store {
    if ops == [] then map[] else NextFull(RunFull(cap, ops[..|ops| - 1]), cap, ops[|ops| - 1])
  }

  // Spends and reads move the clock; a refund carries the time of the hold it undoes.
  function Clock(start: int, ops: seq<Op>): int {
    if ops == [] then start
    else
      match ops[|ops| - 1]
      case Try(_, _, now) => now
      case Read(_, now) => now
      case Refund(_, _, _) => Clock(start, ops[..|ops| - 1])
  }

  predicate Timed(start: int, ops: seq<Op>) {
    ops == [] ||
    (Timed(start, ops[..|ops| - 1]) &&
     var clock := Clock(start, ops[..|ops| - 1]);
     match ops[|ops| - 1]
     case Try(_, _, now) => clock <= now
     case Read(_, now) => clock <= now
     case Refund(_, _, at) => at <= clock)
  }

  // Both lists count the same spends at the clock and ever after.
  ghost predicate Agree(kept: Entries, full: Entries, clock: int) {
    forall c | clock - WINDOW <= c :: Trim(kept, c) == Trim(full, c)
  }

  lemma AgreeSelf(h: Entries, clock: int)
    ensures Agree(h, h, clock)
  {
  }

  lemma AgreeLater(kept: Entries, full: Entries, clock: int, now: int)
    requires Agree(kept, full, clock) && clock <= now
    ensures Agree(kept, full, now) && Total(Trim(kept, now - WINDOW)) == Rolling(full, now)
  {
  }

  lemma AgreePush(kept: Entries, full: Entries, clock: int, amount: int, now: int)
    requires Agree(kept, full, clock) && clock <= now
    ensures Agree(Trim(kept, now - WINDOW), full, now)
    ensures Agree(Pushed(Trim(kept, now - WINDOW), amount, now), Pushed(full, amount, now), now)
  {
    forall c | now - WINDOW <= c
      ensures Trim(Trim(kept, now - WINDOW), c) == Trim(full, c)
      ensures Trim(Pushed(Trim(kept, now - WINDOW), amount, now), c) == Trim(Pushed(full, amount, now), c)
    {
      TrimTwice(kept, now - WINDOW, c);
      TrimAppend(Trim(kept, now - WINDOW), [SpendEntry(now, amount)], c);
      TrimAppend(full, [SpendEntry(now, amount)], c);
    }
  }

  lemma AgreeRefund(kept: Entries, full: Entries, clock: int, e: SpendEntry)
    requires Agree(kept, full, clock) && e.at <= clock
    ensures Agree(RemoveFirst(Trim(kept, e.at - WINDOW), e), RemoveFirst(full, e), clock)
  {
    forall c | clock - WINDOW <= c
      ensures Trim(RemoveFirst(Trim(kept, e.at - WINDOW), e), c) == Trim(RemoveFirst(full, e), c)
    {
      TrimRemove(Trim(kept, e.at - WINDOW), e, c);
      TrimRemove(full, e, c);
      TrimTwice(kept, e.at - WINDOW, c);
    }
  }

  lemma {:induction false} RunsAgree(cap: int, start: int, ops: seq<Op>, payer: string)
    requires Timed(start, ops)
    ensures Agree(ListOf(Run(cap, ops), payer), ListOf(RunFull(cap, ops), payer), Clock(start, ops))
  {
    hide Agree, Trim, RemoveFirst;
    if ops == [] {
      AgreeSelf([], start);
    } else {
      var front, op := ops[..|ops| - 1], ops[|ops| - 1];
      RunsAgree(cap, start, front, payer);
      var kept, full := ListOf(Run(cap, front), payer), ListOf(RunFull(cap, front), payer);
      AgreeLater(kept, full, Clock(start, front), Clock(start, ops));
      match op
      case Try(_, amount, now) => AgreePush(kept, full, Clock(start, front), amount, now);
      case Read(_, now) => AgreePush(kept, full, Clock(start, front), 0, now);
      case Refund(_, amount, at) => AgreeRefund(kept, full, Clock(start, front), SpendEntry(at, amount));
    }
  }

  // The trimmed store accepts a spend exactly when the full history would.
  lemma TrimmedDecidesAsFull(cap: int, start: int, ops: seq<Op>, payer: string, amount: nat, now: int)
    requires Timed(start, ops) && Clock(start, ops) <= now
    ensures Tried(Run(cap, ops), payer, amount, cap, now).1
       <==> Rolling(ListOf(RunFull(cap, ops), payer), now) + amount <= cap
  {
    RunsAgree(cap, start, ops, payer);
  }

  // ---------- Runs: no window exceeds the cap ----------

  ghost predicate Ordered(h: Entries, clock: int) {
    && (forall i, j | 0 <= i < j < |h| :: h[i].at <= h[j].at)
    && (forall i | 0 <= i < |h| :: h[i].at <= clock && 0 < h[i].amount)
  }

  // Each spend, when accepted, kept the window ending at it within the cap.
  ghost predicate Capped(h: Entries, cap: int) {
    h == [] || (Capped(h[..|h| - 1], cap) && Rolling(h, h[|h| - 1].at) <= cap)
  }

  lemma RemoveShrinks(h: Entries, e: SpendEntry, c: int)
    requires forall i | 0 <= i < |h| :: 0 < h[i].amount
    ensures Total(Trim(RemoveFirst(h, e), c)) <= Total(Trim(h, c))
  {
    TrimRemove(h, e, c);
    TrimKeeps(h, c);
    RemoveTotal(Trim(h, c), e);
  }

  lemma {:induction false} RemoveTotal(es: Entries, e: SpendEntry)
    requires forall x | x in es :: 0 < x.amount
    ensures Total(RemoveFirst(es, e)) <= Total(es)
  {
    if es != [] && es[0] != e {
      RemoveTotal(es[1..], e);
    }
  }

  lemma {:induction false} RemoveOrdered(h: Entries, e: SpendEntry, clock: int)
    requires Ordered(h, clock)
    ensures Ordered(RemoveFirst(h, e), clock)
    ensures forall x | x in RemoveFirst(h, e) :: x in h
  {
    if h != [] && h[0] != e {
      RemoveOrdered(h[1..], e, clock);
      var tail := RemoveFirst(h[1..], e);
      forall i | 0 <= i < |tail| ensures h[0].at <= tail[i].at {
        assert tail[i] in h[1..];
      }
    }
  }

  lemma {:induction false} RemoveCapped(h: Entries, e: SpendEntry, cap: int)
    requires Capped(h, cap) && forall i | 0 <= i < |h| :: 0 < h[i].amount
    ensures Capped(RemoveFirst(h, e), cap)
  {
    hide Rolling;
    if h != [] {
      var front, last := h[..|h| - 1], h[|h| - 1];
      assert h == front + [last];
      RemoveFirstAppend(front, [last], e);
      RemoveCapped(front, e, cap);
      if e in front {
        CappedSnoc(RemoveFirst(front, e), last, cap, h, e);
      } else if last == e {
        assert RemoveFirst(h, e) == front;
      } else {
        assert RemoveFirst(h, e) == h;
      }
    }
  }

  lemma CappedSnoc(rest: Entries, last: SpendEntry, cap: int, h: Entries, e: SpendEntry)
    requires Capped(rest, cap) && rest + [last] == RemoveFirst(h, e)
    requires Rolling(h, last.at) <= cap && forall i | 0 <= i < |h| :: 0 < h[i].amount
    ensures Capped(rest + [last], cap)
  {
    assert (rest + [last])[..|rest|] == rest;
    RemoveShrinks(h, e, last.at - WINDOW);
  }

  lemma PushCapped(h: Entries, amount: nat, now: int, cap: int, clock: int)
    requires Capped(h, cap) && Ordered(h, clock) && clock <= now
    requires Rolling(h, now) + amount <= cap
    ensures Capped(Pushed(h, amount, now), cap) && Ordered(Pushed(h, amount, now), now)
  {
    hide Trim, Total;
    if amount != 0 {
      var e := [SpendEntry(now, amount)];
      assert (h + e)[..|h|] == h;
      RollingPush(h, amount, now);
    }
  }

  lemma RollingPush(h: Entries, amount: int, now: int)
    ensures Rolling(h + [SpendEntry(now, amount)], now) == Rolling(h, now) + amount
  {
    var e := [SpendEntry(now, amount)];
    TrimAppend(h, e, now - WINDOW);
    TotalAppend(Trim(h, now - WINDOW), e);
    assert Trim(e, now - WINDOW) == e && Total(e) == amount + Total(e[1..]);
  }

  lemma {:induction false} HistoryCapped(cap: nat, start: int, ops: seq<Op>, payer: string)
    requires Timed(start, ops)
    ensures var h := ListOf(RunFull(cap, ops), payer); Capped(h, cap) && Ordered(h, Clock(start, ops))
  {
    if ops != [] {
      var front, op := ops[..|ops| - 1], ops[|ops| - 1];
      HistoryCapped(cap, start, front, payer);
      var h := ListOf(RunFull(cap, front), payer);
      match op
      case Try(p, amount, now) =>
        if p == payer && Rolling(h, now) + amount <= cap {
          PushCapped(h, amount, now, cap, Clock(start, front));
        }
      case Read(_, _) =>
      case Refund(_, amount, at) =>
        RemoveCapped(h, SpendEntry(at, amount), cap);
        RemoveOrdered(h, SpendEntry(at, amount), Clock(start, front));
    }
  }

  // The spends of the window that ends at an instant, whether or not a call happened then.
  function InWindow(h: Entries, t: int): Entries {
    if h == [] then []
    else if t - 86400 < h[0].at <= t then [h[0]] + InWindow(h[1..], t)
    else InWindow(h[1..], t)
  }

  lemma {:induction false} InWindowAppend(a: Entries, b: Entries, t: int)
    ensures InWindow(a + b, t) == InWindow(a, t) + InWindow(b, t)
  {
    if a == [] {
      assert a + b == b;
    } else {
      assert (a + b)[1..] == a[1..] + b;
      InWindowAppend(a[1..], b, t);
      if t - 86400 < a[0].at <= t {
        Regroup([a[0]], InWindow(a[1..], t), InWindow(b, t));
      }
    }
  }

  lemma {:induction false} WindowWithinTrim(h: Entries, t: int, c: int)
    requires c <= t - WINDOW && forall i | 0 <= i < |h| :: 0 < h[i].amount
    ensures Total(InWindow(h, t)) <= Total(Trim(h, c))
  {
    if h != [] {
      WindowWithinTrim(h[1..], t, c);
    }
  }

  lemma {:induction false} CappedWindow(h: Entries, cap: nat, clock: int, t: int)
    requires Capped(h, cap) && Ordered(h, clock)
    ensures Total(InWindow(h, t)) <= cap
  {
    if h != [] {
      var front, last := h[..|h| - 1], h[|h| - 1];
      if last.at <= t {
        WindowWithinTrim(h, t, last.at - WINDOW);
      } else {
        assert h == front + [last];
        InWindowAppend(front, [last], t);
        assert [last][1..] == [] && InWindow([last], t) == InWindow([], t);
        assert InWindow(h, t) == InWindow(front, t);
        CappedWindow(front, cap, clock, t);
      }
    }
  }

  lemma {:induction false} RollingIsWindow(h: Entries, now: int)
    requires forall i | 0 <= i < |h| :: h[i].at <= now
    ensures Rolling(h, now) == Total(InWindow(h, now))
  {
    if h != [] {
      RollingIsWindow(h[1..], now);
    }
  }

  // Along every run the store accepts a spend if and only if it and the accepted and unrefunded
  // spends of the 24 hours up to it come to the cap at most.
  lemma AcceptsExactly(cap: nat, start: int, ops: seq<Op>, payer: string, amount: nat, now: int)
    requires Timed(start, ops) && Clock(start, ops) <= now
    ensures Tried(Run(cap, ops), payer, amount, cap, now).1
       <==> Total(InWindow(ListOf(RunFull(cap, ops), payer), now)) + amount <= cap
  {
    TrimmedDecidesAsFull(cap, start, ops, payer, amount, now);
    HistoryCapped(cap, start, ops, payer);
    RollingIsWindow(ListOf(RunFull(cap, ops), payer), now);
  }

  // At every instant, the accepted and unrefunded spends of any 24 hours stay within the cap.
  lemma WindowNeverExceedsCap(cap: nat, start: int, ops: seq<Op>, payer: string, t: int)
    requires Timed(start, ops)
    ensures Total(InWindow(ListOf(RunFull(cap, ops), payer), t)) <= cap
  {
    HistoryCapped(cap, start, ops, payer);
    CappedWindow(ListOf(RunFull(cap, ops), payer), cap, Clock(start, ops), t);
  }
}
