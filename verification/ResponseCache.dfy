// The response cache and getOrInvoke (services/deployer/src/cache.ts, stores/memory.ts): what a
// cached answer is worth while versions change and misses finish late.
module ResponseCache {
  import opened Prelude
  import opened CacheKey
  import JsonText
  import JsonReader

  type Body = string
  datatype Entry = Entry(body: Body, expiresAt: int)
  type Entries = map<string, Entry>

  // What get answers at a given time.
  function Lookup(entries: Entries, key: string, now: int): Option<Body> {
    if key in entries && now < entries[key].expiresAt then Some(entries[key].body) else None
  }

  function DropPrefix(entries: Entries, prefix: string): Entries {
    map k | k in entries && !(prefix <= k) :: entries[k]
  }

  class InMemoryResponseCache {
    var entries: Entries

    constructor ()
      ensures entries == map[]
    {
      entries := map[];
    }

    // Answers the body of an entry until it expires, and deletes the entry then; the deletion is
    // invisible at this and every later time.
    method Get(key: string, now: int) returns (r: Option<Body>)
      modifies this
      ensures r.Some? <==> key in old(entries) && now < old(entries)[key].expiresAt
      ensures r.Some? ==> r.value == old(entries)[key].body
      ensures entries == if key in old(entries) && old(entries)[key].expiresAt <= now then old(entries) - {key} else old(entries)
      ensures forall k, t | now <= t :: Lookup(entries, k, t) == Lookup(old(entries), k, t)
    {
      if key !in entries {
        return None;
      }
      var entry := entries[key];
      if entry.expiresAt <= now {
        entries := entries - {key};
        return None;
      }
      return Some(entry.body);
    }

    method Set(key: string, body: Body, ttlSeconds: int, now: int)
      modifies this
      ensures entries == old(entries)[key := Entry(body, now + ttlSeconds * 1000)]
    {
      entries := entries[key := Entry(body, now + ttlSeconds * 1000)];
    }

    method DelByPrefix(prefix: string)
      modifies this
      ensures entries == DropPrefix(old(entries), prefix)
    {
      var todo := entries.Keys;
      while todo != {}
        invariant todo <= entries.Keys <= old(entries).Keys
        invariant forall k | k in entries :: entries[k] == old(entries)[k]
        invariant forall k | k in old(entries) && k !in todo :: k in entries <==> !(prefix <= k)
        decreases |todo|
      {
        var key :| key in todo;
        if prefix <= key {
          entries := entries - {key};
        }
        todo := todo - {key};
      }
    }
  }

  // ---------- What get answers ----------

  datatype Op =
    | OpGet(key: string, now: int)
    | OpSet(key: string, body: Body, ttlSeconds: int, now: int)
    | OpDel(prefix: string)

  // The entries after some calls, each as its method says.
  function After(ops: seq<Op>): Entries {
    if ops == [] then map[]
    else
      var entries := After(ops[..|ops| - 1]);
      match ops[|ops| - 1]
      case OpGet(key, now) => if key in entries && entries[key].expiresAt <= now then entries - {key} else entries
      case OpSet(key, body, ttl, now) => entries[key := Entry(body, now + ttl * 1000)]
      case OpDel(prefix) => DropPrefix(entries, prefix)
  }

  predicate Overwrites(op: Op, key: string) {
    (op.OpSet? && op.key == key) || (op.OpDel? && op.prefix <= key)
  }

  // Call b set this body for the key, no later one set or deleted the key, and it has not expired.
  predicate SetAt(ops: seq<Op>, b: int, key: string, body: Body, now: int) {
    && 0 <= b < |ops| && ops[b].OpSet? && ops[b].key == key && ops[b].body == body
    && now < ops[b].now + ops[b].ttlSeconds * 1000
    && forall k | b < k < |ops| :: !Overwrites(ops[k], key)
  }

  // After any calls, under a clock that has not run back, a get answers a body if and only if that is
  // what was set last for the key and not deleted since, less than its seconds to live ago.
  lemma {:induction false} GetAnswersExactly(ops: seq<Op>, key: string, body: Body, now: int)
    requires forall k | 0 <= k < |ops| && ops[k].OpGet? :: ops[k].now <= now
    ensures Lookup(After(ops), key, now) == Some(body) <==> exists b :: SetAt(ops, b, key, body, now)
  {
    if ops != [] {
      var n := |ops| - 1;
      var front, op := ops[..n], ops[n];
      GetAnswersExactly(front, key, body, now);
      assert forall k | 0 <= k < n :: front[k] == ops[k];
      if b :| SetAt(front, b, key, body, now) {
        assert !Overwrites(op, key) ==> SetAt(ops, b, key, body, now);
      }
      if op.OpSet? && op.key == key && op.body == body && now < op.now + op.ttlSeconds * 1000 {
        assert SetAt(ops, n, key, body, now);
      }
      if b :| SetAt(ops, b, key, body, now) {
        assert b < n ==> SetAt(front, b, key, body, now);
      }
    }
  }

  // ---------- Handlers ----------

  // One deterministic handler per resource and version.
  type Handler = (Id, nat, Request) -> Body

  datatype Env = Env(numbers: JsonText.Numbers, digest: Digest, handler: Handler)

  // The handler answers requests that mean the same alike.
  ghost predicate Sound(env: Env) {
    && JsonReader.Faithful(env.numbers)
    && Injective(env.digest)
    && forall id, v, a, b | SameRequest(a, b, env.numbers) :: env.handler(id, v, a) == env.handler(id, v, b)
  }

  function KeyOf(env: Env, id: Id, version: nat, r: Request): string {
    Key(id, version, r, env.numbers, env.digest)
  }

  ghost predicate Explains(env: Env, id: Id, version: nat, r: Request, key: string, body: Body) {
    IsId(id) && SingleLine(r) && key == KeyOf(env, id, version, r) && body == env.handler(id, version, r)
  }

  // Every entry holds what the handler of the version in its key gives for the request in its key.
  ghost predicate Coherent(env: Env, entries: Entries) {
    forall k | k in entries :: exists id, v, r :: Explains(env, id, v, r, k, entries[k].body)
  }

  lemma HitIsRight(env: Env, entries: Entries, id: Id, version: nat, r: Request, now: int)
    requires Sound(env) && Coherent(env, entries) && IsId(id) && SingleLine(r)
    requires Lookup(entries, KeyOf(env, id, version, r), now).Some?
    ensures Lookup(entries, KeyOf(env, id, version, r), now).value == env.handler(id, version, r)
  {
    var key := KeyOf(env, id, version, r);
    var id', v', r' :| Explains(env, id', v', r', key, entries[key].body);
    KeyUnambiguous(id, version, r, id', v', r', env.numbers, env.digest);
  }

  lemma StoreCoherent(env: Env, entries: Entries, id: Id, version: nat, r: Request, expiresAt: int)
    requires Coherent(env, entries) && IsId(id) && SingleLine(r)
    ensures Coherent(env, entries[KeyOf(env, id, version, r) := Entry(env.handler(id, version, r), expiresAt)])
  {
    var key := KeyOf(env, id, version, r);
    assert Explains(env, id, version, r, key, env.handler(id, version, r));
  }

  lemma RemoveCoherent(env: Env, entries: Entries, keys: set<string>)
    requires Coherent(env, entries)
    ensures Coherent(env, entries - keys)
  {
    forall k | k in entries - keys ensures exists id, v, r :: Explains(env, id, v, r, k, (entries - keys)[k].body) {
      var id, v, r :| Explains(env, id, v, r, k, entries[k].body);
      assert Explains(env, id, v, r, k, (entries - keys)[k].body);
    }
  }

  lemma DropCoherent(env: Env, entries: Entries, prefix: string)
    requires Coherent(env, entries)
    ensures Coherent(env, DropPrefix(entries, prefix))
  {
    hide Coherent;
    RemoveCoherent(env, entries, set k | k in entries && prefix <= k);
    assert DropPrefix(entries, prefix) == entries - set k | k in entries && prefix <= k;
  }

  // Deleting a version's namespace removes the entries of that resource and version, no other.
  lemma DropExact(env: Env, entries: Entries, id: Id, version: nat, id': Id, version': nat, r: Request)
    requires IsId(id) && IsId(id')
    ensures KeyOf(env, id', version', r) in DropPrefix(entries, Namespace(id, version))
       <==> KeyOf(env, id', version', r) in entries && !(id == id' && version == version')
  {
    NamespaceExact(id, version, id', version', env.digest(Material(r, env.numbers)));
  }

  // ---------- One call ----------

  datatype Bill = Bill(resourceId: Id, idemKey: string, cached: bool)

  class BillingLog {
    var calls: seq<Bill>

    constructor ()
      ensures calls == []
    {
      calls := [];
    }

    method Record(bill: Bill)
      modifies this
      ensures calls == old(calls) + [bill]
    {
      calls := calls + [bill];
    }
  }

  datatype Answer = Answer(body: Body, cached: bool, header: string)

  // What the handler gives, when it answers at all.
  predicate IsHandlers(env: Env, id: Id, version: nat, r: Request, outcome: Option<Body>) {
    outcome.Some? ==> outcome.value == env.handler(id, version, r)
  }

  ghost predicate Served(env: Env, id: Id, version: nat, r: Request, entries: Entries) {
    Sound(env) && IsId(id) && SingleLine(r) && Coherent(env, entries)
  }

  // The lookup happens at one time, the store of a miss at a later one; the outcome is what invoke
  // brings on a miss, None when it throws. Exactly the calls that return a body are billed, once; a
  // coherent cache returns what the handler gives, and stays coherent.
  method GetOrInvoke(cache: InMemoryResponseCache, log: BillingLog, env: Env, id: Id, version: nat,
                     r: Request, ttlSeconds: int, idemKey: string, outcome: Option<Body>, lookupAt: int, storeAt: int)
    returns (answer: Option<Answer>)
    modifies cache, log
    ensures var key := KeyOf(env, id, version, r); var hit := Lookup(old(cache.entries), key, lookupAt);
            if hit.Some? then answer == Some(Answer(hit.value, true, "HIT")) && cache.entries == old(cache.entries)
            else if outcome.Some? then
              && answer == Some(Answer(outcome.value, false, "MISS"))
              && cache.entries == old(cache.entries)[key := Entry(outcome.value, storeAt + ttlSeconds * 1000)]
            else
              && answer == None
              && forall k, t | lookupAt <= t :: Lookup(cache.entries, k, t) == Lookup(old(cache.entries), k, t)
    ensures log.calls == if answer.Some? then old(log.calls) + [Bill(id, idemKey, answer.value.cached)] else old(log.calls)
    ensures Served(env, id, version, r, old(cache.entries)) && IsHandlers(env, id, version, r, outcome) ==>
              && Coherent(env, cache.entries)
              && (answer.Some? ==> answer.value.body == env.handler(id, version, r))
  {
    hide Sound, KeyOf, Coherent;
    var key := KeyOf(env, id, version, r);
    var hit := cache.Get(key, lookupAt);
    if hit.Some? {
      if Served(env, id, version, r, old(cache.entries)) {
        HitIsRight(env, old(cache.entries), id, version, r, lookupAt);
      }
      log.Record(Bill(id, idemKey, true));
      return Some(Answer(hit.value, true, "HIT"));
    }
    if Served(env, id, version, r, old(cache.entries)) {
      RemoveCoherent(env, old(cache.entries), {key});
    }
    if outcome.None? {
      return None;
    }
    if Served(env, id, version, r, old(cache.entries)) && IsHandlers(env, id, version, r, outcome) {
      StoreCoherent(env, cache.entries, id, version, r, storeAt + ttlSeconds * 1000);
    }
    cache.Set(key, outcome.value, ttlSeconds, storeAt);
    log.Record(Bill(id, idemKey, false));
    return Some(Answer(outcome.value, false, "MISS"));
  }

  // ---------- Interleaved calls ----------

  // Where a call stands between its awaits.
  datatype Phase =
    | Started
    | Hit(body: Body)
    | Missed
    | Invoked(body: Body)
    | Stored(body: Body)
    | Billed(body: Body, cached: bool)
    | Returned(body: Body, cached: bool)
    | Failed

  datatype Call = Call(id: Id, version: nat, req: Request, idemKey: string, phase: Phase)

  // A bill remembers the call that made it, so bills and calls can be matched.
  datatype Tagged = Tagged(call: nat, bill: Bill)

  datatype State = State(
    now: int,
    versions: map<Id, nat>,
    entries: Entries,
    calls: map<nat, Call>,
    bills: seq<Tagged>)

  const EMPTY: State := State(0, map[], map[], map[], [])

  datatype Step =
    | Deploy(id: Id, version: nat)
    | Start(c: nat, id: Id, req: Request, idemKey: string)
    | LookUp(c: nat)
    | Invoke(c: nat)
    | Store(c: nat, ttlSeconds: int)
    | Charge(c: nat)
    | Return(c: nat)
    | Fail(c: nat)
    | DropVersion(id: Id, version: nat)
    | Evict(key: string)
    | Tick(now: int)

  function Advance(s: State, c: nat, phase: Phase): State
    requires c in s.calls
  {
    s.(calls := s.calls[c := s.calls[c].(phase := phase)])
  }

  // A step that is not enabled changes nothing. A redeploy is a Deploy, which writes the version it
  // derived from what it read, however old, and a later DropVersion, which clears the old namespace;
  // a call keeps the version it started at.
  function Next(env: Env, s: State, step: Step): State {
    match step
    case Deploy(id, version) => if IsId(id) then s.(versions := s.versions[id := version]) else s
    case Start(c, id, req, idemKey) =>
      if c in s.calls || id !in s.versions || !SingleLine(req) then s
      else s.(calls := s.calls[c := Call(id, s.versions[id], req, idemKey, Started)])
    case DropVersion(id, version) =>
      if IsId(id) then s.(entries := DropPrefix(s.entries, Namespace(id, version))) else s
    case Evict(key) => s.(entries := s.entries - {key})
    case Tick(now) => if s.now <= now then s.(now := now) else s
    case _ =>
      if step.c !in s.calls then s
      else NextOfCall(env, s, step, s.calls[step.c])
  }

  function NextOfCall(env: Env, s: State, step: Step, call: Call): State
    requires step.LookUp? || step.Invoke? || step.Store? || step.Charge? || step.Return? || step.Fail?
    requires step.c in s.calls && s.calls[step.c] == call
  {
    var key := KeyOf(env, call.id, call.version, call.req);
    match (step, call.phase)
    case (LookUp(c), Started) =>
      var hit := Lookup(s.entries, key, s.now);
      Advance(s, c, if hit.Some? then Hit(hit.value) else Missed)
    case (Invoke(c), Missed) => Advance(s, c, Invoked(env.handler(call.id, call.version, call.req)))
    case (Store(c, ttl), Invoked(body)) =>
      Advance(s.(entries := s.entries[key := Entry(body, s.now + ttl * 1000)]), c, Stored(body))
    case (Charge(c), Hit(body)) => ChargeCall(s, c, body, true)
    case (Charge(c), Stored(body)) => ChargeCall(s, c, body, false)
    case (Return(c), Billed(body, cached)) => Advance(s, c, Returned(body, cached))
    case (Fail(c), Started) => Advance(s, c, Failed)
    case (Fail(c), Hit(_)) => Advance(s, c, Failed)
    case (Fail(c), Missed) => Advance(s, c, Failed)
    case (Fail(c), Invoked(_)) => Advance(s, c, Failed)
    case (Fail(c), Stored(_)) => Advance(s, c, Failed)
    case _ => s
  }

  function ChargeCall(s: State, c: nat, body: Body, cached: bool): State
    requires c in s.calls
  {
    var bill := Tagged(c, Bill(s.calls[c].id, s.calls[c].idemKey, cached));
    Advance(s, c, Billed(body, cached)).(bills := s.bills + [bill])
  }

  function Run(env: Env, steps: seq<Step>): State {
    if steps == [] then EMPTY else Next(env, Run(env, steps[..|steps| - 1]), steps[|steps| - 1])
  }

  // ---------- Which calls hit ----------

  // Step b stores a body under the key: the call that stores has it from the handler.
  predicate StoresAt(env: Env, steps: seq<Step>, b: int, key: string) {
    && 0 <= b < |steps| && steps[b].Store?
    && var s := Run(env, steps[..b]);
       steps[b].c in s.calls && s.calls[steps[b].c].phase.Invoked?
       && var call := s.calls[steps[b].c];
          KeyOf(env, call.id, call.version, call.req) == key
  }

  // Step b evicts the key, or drops the version it belongs to.
  predicate ClearsAt(steps: seq<Step>, b: int, key: string) {
    && 0 <= b < |steps|
    && (steps[b] == Evict(key)
        || (steps[b].DropVersion? && IsId(steps[b].id) && Namespace(steps[b].id, steps[b].version) <= key))
  }

  // The key's entry is the one step b stored, of that body and that time of expiry.
  ghost predicate KeptSince(env: Env, steps: seq<Step>, b: int, key: string, entry: Entry) {
    && StoresAt(env, steps, b, key)
    && (var s := Run(env, steps[..b]);
        entry == Entry(s.calls[steps[b].c].phase.body, s.now + steps[b].ttlSeconds * 1000))
    && forall k | b < k < |steps| :: !StoresAt(env, steps, k, key) && !ClearsAt(steps, k, key)
  }

  lemma KeptLonger(env: Env, front: seq<Step>, step: Step, b: int, key: string, entry: Entry)
    requires b < |front|
    ensures var steps := front + [step]; var n := |front|;
            (KeptSince(env, steps, b, key, entry)
             <==> KeptSince(env, front, b, key, entry) && !StoresAt(env, steps, n, key) && !ClearsAt(steps, n, key))
  {
    hide Run, KeyOf, Namespace, IsId;
    var steps := front + [step];
    forall k | 0 <= k < |front|
      ensures steps[k] == front[k] && steps[..k] == front[..k]
      ensures StoresAt(env, steps, k, key) <==> StoresAt(env, front, k, key)
      ensures ClearsAt(steps, k, key) <==> ClearsAt(front, k, key)
    {
    }
  }

  // An entry is in the cache if and only if some step stored it and none since stored or cleared its key.
  lemma {:induction false} EntryExactly(env: Env, steps: seq<Step>, key: string, entry: Entry)
    ensures (key in Run(env, steps).entries && Run(env, steps).entries[key] == entry)
       <==> exists b :: KeptSince(env, steps, b, key, entry)
  {
    if steps != [] {
      hide KeyOf, Namespace, IsId, SingleLine, Lookup, KeptSince, Next;
      var n := |steps| - 1;
      var front, step := steps[..n], steps[n];
      assert steps == front + [step];
      EntryExactly(env, front, key, entry);
      EntryStep(env, front, step, key, entry);
      if b :| KeptSince(env, front, b, key, entry) {
        KeptWithin(env, front, b, key, entry);
        KeptLonger(env, front, step, b, key, entry);
      }
      if b :| KeptSince(env, steps, b, key, entry) {
        KeptWithin(env, steps, b, key, entry);
        if b < n {
          KeptLonger(env, front, step, b, key, entry);
        }
      }
    }
  }

  lemma KeptWithin(env: Env, steps: seq<Step>, b: int, key: string, entry: Entry)
    requires KeptSince(env, steps, b, key, entry)
    ensures 0 <= b < |steps|
  {
  }

  // What one more step does to the entry of a key.
  lemma EntryStep(env: Env, front: seq<Step>, step: Step, key: string, entry: Entry)
    ensures var steps := front + [step]; var n := |front|; var s, t := Run(env, front), Run(env, steps);
            && (StoresAt(env, steps, n, key) ==>
                  key in t.entries && (t.entries[key] == entry <==> KeptSince(env, steps, n, key, entry)))
            && (!StoresAt(env, steps, n, key) ==> !KeptSince(env, steps, n, key, entry))
            && (ClearsAt(steps, n, key) ==> key !in t.entries)
            && (!StoresAt(env, steps, n, key) && !ClearsAt(steps, n, key) ==>
                  (key in t.entries <==> key in s.entries) && (key in s.entries ==> t.entries[key] == s.entries[key]))
  {
    hide KeyOf, Namespace, IsId, SingleLine, Lookup;
    assert (front + [step])[..|front|] == front;
  }

  // A call hits, with this body, if and only if some step stored it for the call's key, no step since
  // stored or cleared the key, and it has not expired: the answer comes from a handler that ran less
  // than its seconds to live ago, and such an answer is always used.
  lemma HitsExactly(env: Env, steps: seq<Step>, c: nat, body: Body)
    requires c in Run(env, steps).calls && Run(env, steps).calls[c].phase.Started?
    ensures var s := Run(env, steps); var call := s.calls[c]; var key := KeyOf(env, call.id, call.version, call.req);
            (Run(env, steps + [LookUp(c)]).calls[c].phase == Hit(body)
             <==> exists b, expiresAt :: KeptSince(env, steps, b, key, Entry(body, expiresAt)) && s.now < expiresAt)
  {
    hide KeyOf, KeptSince;
    var s := Run(env, steps);
    var call := s.calls[c];
    var key := KeyOf(env, call.id, call.version, call.req);
    assert (steps + [LookUp(c)])[..|steps|] == steps;
    if key in s.entries {
      EntryExactly(env, steps, key, s.entries[key]);
    }
    if b, expiresAt :| KeptSince(env, steps, b, key, Entry(body, expiresAt)) && s.now < expiresAt {
      EntryExactly(env, steps, key, Entry(body, expiresAt));
    }
  }

  // ---------- Invariants of every run ----------

  function BillsOf(bills: seq<Tagged>, c: nat): seq<Bill> {
    if bills == [] then []
    else BillsOf(bills[..|bills| - 1], c) + if bills[|bills| - 1].call == c then [bills[|bills| - 1].bill] else []
  }

  function BodyOf(phase: Phase): Option<Body> {
    match phase
    case Started => None
    case Missed => None
    case Failed => None
    case _ => Some(phase.body)
  }

  // The bills a call must have: one once charged, carrying how it was served, none before.
  function BillsDue(call: Call): seq<Bill> {
    match call.phase
    case Billed(_, cached) => [Bill(call.id, call.idemKey, cached)]
    case Returned(_, cached) => [Bill(call.id, call.idemKey, cached)]
    case _ => []
  }

  ghost predicate CallOk(env: Env, s: State, c: nat)
    requires c in s.calls
  {
    var call := s.calls[c];
    && IsId(call.id) && SingleLine(call.req)
    && (BodyOf(call.phase).Some? ==> BodyOf(call.phase).value == env.handler(call.id, call.version, call.req))
    && BillsOf(s.bills, c) == BillsDue(call)
  }

  ghost predicate Inv(env: Env, s: State) {
    && Coherent(env, s.entries)
    && (forall c | c in s.calls :: CallOk(env, s, c))
    && (forall i | 0 <= i < |s.bills| :: s.bills[i].call in s.calls)
    && (forall id | id in s.versions :: IsId(id))
  }

  lemma {:induction false} NoBills(bills: seq<Tagged>, c: nat)
    requires forall i | 0 <= i < |bills| :: bills[i].call != c
    ensures BillsOf(bills, c) == []
  {
    if bills != [] {
      NoBills(bills[..|bills| - 1], c);
    }
  }

  lemma BillsAppend(bills: seq<Tagged>, bill: Tagged, d: nat)
    ensures BillsOf(bills + [bill], d) == BillsOf(bills, d) + if bill.call == d then [bill.bill] else []
  {
    assert (bills + [bill])[..|bills|] == bills;
  }

  lemma ChargeKeeps(env: Env, s: State, c: nat, body: Body, cached: bool)
    requires Inv(env, s) && c in s.calls
    requires BillsDue(s.calls[c]) == []
    requires body == env.handler(s.calls[c].id, s.calls[c].version, s.calls[c].req)
    ensures Inv(env, ChargeCall(s, c, body, cached))
  {
    hide KeyOf, Coherent, BillsOf, SingleLine, IsId;
    var t := ChargeCall(s, c, body, cached);
    var bill := t.bills[|s.bills|];
    forall d | d in t.calls ensures CallOk(env, t, d) {
      assert CallOk(env, s, d);
      BillsAppend(s.bills, bill, d);
    }
  }

  lemma AdvanceKeeps(env: Env, s: State, c: nat, phase: Phase)
    requires Inv(env, s) && c in s.calls
    requires BillsDue(s.calls[c].(phase := phase)) == BillsDue(s.calls[c])
    requires BodyOf(phase).Some? ==>
               BodyOf(phase).value == env.handler(s.calls[c].id, s.calls[c].version, s.calls[c].req)
    ensures Inv(env, Advance(s, c, phase))
  {
    forall d | d in s.calls ensures CallOk(env, Advance(s, c, phase), d) {
      assert CallOk(env, s, d);
    }
  }

  // Calls and bills read nothing of the store.
  lemma EntriesKeep(env: Env, s: State, entries: Entries, now: int)
    requires Inv(env, s) && Coherent(env, entries)
    ensures Inv(env, s.(entries := entries, now := now))
  {
    var t := s.(entries := entries, now := now);
    forall d | d in t.calls ensures CallOk(env, t, d) {
      assert CallOk(env, s, d);
    }
  }

  lemma LookUpKeeps(env: Env, s: State, c: nat)
    requires Sound(env) && Inv(env, s) && c in s.calls && s.calls[c].phase.Started?
    ensures Inv(env, NextOfCall(env, s, LookUp(c), s.calls[c]))
  {
    hide Sound, KeyOf, Coherent;
    var call := s.calls[c];
    assert CallOk(env, s, c);
    var hit := Lookup(s.entries, KeyOf(env, call.id, call.version, call.req), s.now);
    if hit.Some? {
      HitIsRight(env, s.entries, call.id, call.version, call.req, s.now);
    }
    AdvanceKeeps(env, s, c, if hit.Some? then Hit(hit.value) else Missed);
  }

  lemma StoreKeeps(env: Env, s: State, c: nat, ttl: int)
    requires Inv(env, s) && c in s.calls && s.calls[c].phase.Invoked?
    ensures Inv(env, NextOfCall(env, s, Store(c, ttl), s.calls[c]))
  {
    hide KeyOf, Coherent, BillsOf, SingleLine, IsId;
    var call := s.calls[c];
    assert CallOk(env, s, c);
    var body := call.phase.body;
    var entries := s.entries[KeyOf(env, call.id, call.version, call.req) := Entry(body, s.now + ttl * 1000)];
    StoreCoherent(env, s.entries, call.id, call.version, call.req, s.now + ttl * 1000);
    EntriesKeep(env, s, entries, s.now);
    AdvanceKeeps(env, s.(entries := entries), c, Stored(body));
  }

  lemma AnswerKeeps(env: Env, s: State, step: Step)
    requires Inv(env, s) && (step.Invoke? || step.Charge? || step.Return? || step.Fail?)
    requires step.c in s.calls
    ensures Inv(env, NextOfCall(env, s, step, s.calls[step.c]))
  {
    hide Inv, KeyOf, BillsOf, SingleLine, IsId, Lookup;
    var c := step.c;
    var call := s.calls[c];
    CallIsOk(env, s, c);
    match step
    case Invoke(_) =>
      if call.phase.Missed? {
        AdvanceKeeps(env, s, c, Invoked(env.handler(call.id, call.version, call.req)));
      }
    case Charge(_) =>
      if call.phase.Hit? {
        ChargeKeeps(env, s, c, call.phase.body, true);
      } else if call.phase.Stored? {
        ChargeKeeps(env, s, c, call.phase.body, false);
      }
    case Return(_) =>
      if call.phase.Billed? {
        AdvanceKeeps(env, s, c, Returned(call.phase.body, call.phase.cached));
      }
    case Fail(_) =>
      if !call.phase.Billed? && !call.phase.Returned? && !call.phase.Failed? {
        AdvanceKeeps(env, s, c, Failed);
      }
  }

  lemma CallIsOk(env: Env, s: State, c: nat)
    requires Inv(env, s) && c in s.calls
    ensures CallOk(env, s, c)
  {
  }

  lemma StartKeeps(env: Env, s: State, c: nat, call: Call)
    requires Inv(env, s) && c !in s.calls
    requires IsId(call.id) && SingleLine(call.req) && call.phase == Started
    ensures Inv(env, s.(calls := s.calls[c := call]))
  {
    var t := s.(calls := s.calls[c := call]);
    NoBills(s.bills, c);
    forall d | d in t.calls ensures CallOk(env, t, d) {
      if d != c {
        assert CallOk(env, s, d);
      }
    }
  }

  lemma DeployKeeps(env: Env, s: State, id: Id, version: nat)
    requires Inv(env, s)
    ensures Inv(env, Next(env, s, Deploy(id, version)))
  {
    hide KeyOf, Coherent;
    var t := Next(env, s, Deploy(id, version));
    forall d | d in t.calls ensures CallOk(env, t, d) {
      assert CallOk(env, s, d);
    }
  }

  lemma CallStepKeeps(env: Env, s: State, step: Step)
    requires Sound(env) && Inv(env, s)
    requires step.LookUp? || step.Invoke? || step.Store? || step.Charge? || step.Return? || step.Fail?
    requires step.c in s.calls
    ensures Inv(env, NextOfCall(env, s, step, s.calls[step.c]))
  {
    hide Sound, Inv, KeyOf;
    if step.LookUp? && s.calls[step.c].phase.Started? {
      LookUpKeeps(env, s, step.c);
    } else if step.Store? && s.calls[step.c].phase.Invoked? {
      StoreKeeps(env, s, step.c, step.ttlSeconds);
    } else if !step.LookUp? && !step.Store? {
      AnswerKeeps(env, s, step);
    }
  }

  lemma NextKeeps(env: Env, s: State, step: Step)
    requires Sound(env) && Inv(env, s)
    ensures Inv(env, Next(env, s, step))
  {
    hide Sound, KeyOf, Coherent, CallOk, NextOfCall, SingleLine, IsId, Namespace;
    match step
    case Deploy(id, version) => DeployKeeps(env, s, id, version);
    case Start(c, id, req, idemKey) =>
      if c !in s.calls && id in s.versions && SingleLine(req) {
        StartKeeps(env, s, c, Call(id, s.versions[id], req, idemKey, Started));
      }
    case DropVersion(id, version) =>
      DropCoherent(env, s.entries, Namespace(id, version));
      EntriesKeep(env, s, DropPrefix(s.entries, Namespace(id, version)), s.now);
    case Evict(key) =>
      RemoveCoherent(env, s.entries, {key});
      EntriesKeep(env, s, s.entries - {key}, s.now);
    case Tick(now) => EntriesKeep(env, s, s.entries, now);
    case _ =>
      if step.c in s.calls {
        CallStepKeeps(env, s, step);
      }
  }

  lemma {:induction false} RunInv(env: Env, steps: seq<Step>)
    requires Sound(env)
    ensures Inv(env, Run(env, steps))
  {
    if steps != [] {
      RunInv(env, steps[..|steps| - 1]);
      NextKeeps(env, Run(env, steps[..|steps| - 1]), steps[|steps| - 1]);
    }
  }

  // Whatever redeploys, late stores, evictions and expiries a run interleaves, a returned body is
  // what the handler of the call's own version gives for that request, and it has exactly one bill.
  lemma ReturnedBodiesAreRightAndBilledOnce(env: Env, steps: seq<Step>, c: nat)
    requires Sound(env)
    requires c in Run(env, steps).calls && Run(env, steps).calls[c].phase.Returned?
    ensures var call := Run(env, steps).calls[c];
            && call.phase.body == env.handler(call.id, call.version, call.req)
            && BillsOf(Run(env, steps).bills, c) == [Bill(call.id, call.idemKey, call.phase.cached)]
  {
    RunInv(env, steps);
    assert CallOk(env, Run(env, steps), c);
  }

  // A call that has no answer yet, or never gets one, is not billed; every bill has its call.
  lemma UnansweredCallsAreNotBilled(env: Env, steps: seq<Step>, c: nat)
    requires Sound(env)
    requires c !in Run(env, steps).calls || !(Run(env, steps).calls[c].phase.Returned? || Run(env, steps).calls[c].phase.Billed?)
    ensures BillsOf(Run(env, steps).bills, c) == []
  {
    RunInv(env, steps);
    var s := Run(env, steps);
    if c in s.calls {
      assert CallOk(env, s, c);
    } else {
      NoBills(s.bills, c);
    }
  }

  lemma Snoc(env: Env, steps: seq<Step>, step: Step)
    ensures Run(env, steps + [step]) == Next(env, Run(env, steps), step)
  {
    assert (steps + [step])[..|steps|] == steps;
  }

  // Wherever a run has come to, deploying a resource and calling it answers, at the version deployed.
  lemma CallCompletes(env: Env, steps: seq<Step>, c: nat, id: Id, version: nat, req: Request, idemKey: string, ttl: int)
    returns (more: seq<Step>)
    requires c !in Run(env, steps).calls && IsId(id) && SingleLine(req)
    ensures var t := Run(env, more);
            && steps <= more && c in t.calls && t.calls[c].phase.Returned?
            && t.calls[c].(phase := Started) == Call(id, version, req, idemKey, Started)
  {
    hide Run, KeyOf, SingleLine, IsId;
    Snoc(env, steps, Deploy(id, version));
    more := steps + [Deploy(id, version)];
    Snoc(env, more, Start(c, id, req, idemKey));
    more := more + [Start(c, id, req, idemKey)];
    Snoc(env, more, LookUp(c));
    more := more + [LookUp(c)];
    if Run(env, more).calls[c].phase.Missed? {
      Snoc(env, more, Invoke(c));
      more := more + [Invoke(c)];
      Snoc(env, more, Store(c, ttl));
      more := more + [Store(c, ttl)];
    }
    Snoc(env, more, Charge(c));
    more := more + [Charge(c)];
    Snoc(env, more, Return(c));
    more := more + [Return(c)];
  }

  lemma NextKeepsCall(env: Env, s: State, step: Step, c: nat)
    requires c in s.calls
    ensures c in Next(env, s, step).calls
    ensures Next(env, s, step).calls[c].(phase := Started) == s.calls[c].(phase := Started)
  {
    hide KeyOf, SingleLine, IsId, DropPrefix, Lookup, Namespace;
  }

  // A call answers for the version that was current when it started, however late it finishes:
  // nothing a run does after the start changes what the call was for.
  lemma {:induction false} CallsKeepTheirVersion(env: Env, before: seq<Step>, after: seq<Step>, c: nat)
    requires c in Run(env, before).calls
    ensures c in Run(env, before + after).calls
    ensures Run(env, before + after).calls[c].(phase := Started) == Run(env, before).calls[c].(phase := Started)
  {
    hide Next;
    if after == [] {
      assert before + after == before;
    } else {
      var front := after[..|after| - 1];
      CallsKeepTheirVersion(env, before, front, c);
      NextKeepsCall(env, Run(env, before + front), after[|after| - 1], c);
      assert (before + after)[..|before + after| - 1] == before + front;
    }
  }
}
