// Deployment records, redeploy and recordDeployment (services/deployer/src/redeploy.ts,
// record-deploy.ts, stores/memory.ts).
module Deployments {
  import opened Prelude
  import opened CacheKey
  import ResponseCache

  datatype Status = Running | Stopped | Deploying | Failed

  datatype Record = Record(
    agentId: Id,
    resourceId: Id,
    slug: string,
    deployVersion: nat,
    status: Status,
    updatedAt: int,
    cap: Option<int>)

  datatype Db = Db(deployments: map<Id, Record>, slugs: map<string, Id>)

  const EMPTY: Db := Db(map[], map[])

  // Records and the slug index are inverse: each slug has one owner, which holds that slug.
  ghost predicate Consistent(db: Db) {
    && (forall id | id in db.deployments ::
          var r := db.deployments[id];
          r.resourceId == id && r.slug in db.slugs && db.slugs[r.slug] == id)
    && (forall slug | slug in db.slugs ::
          db.slugs[slug] in db.deployments && db.deployments[db.slugs[slug]].slug == slug)
  }

  predicate SlugTaken(db: Db, r: Record) {
    r.slug in db.slugs && db.slugs[r.slug] != r.resourceId
  }

  function Stored(db: Db, r: Record): Db {
    var freed := if r.resourceId in db.deployments && db.deployments[r.resourceId].slug != r.slug
                 then db.slugs - {db.deployments[r.resourceId].slug} else db.slugs;
    Db(db.deployments[r.resourceId := r], freed[r.slug := r.resourceId])
  }

  lemma StoredConsistent(db: Db, r: Record)
    requires Consistent(db) && !SlugTaken(db, r)
    ensures Consistent(Stored(db, r))
  {
  }

  class InMemoryDeploymentStore {
    var deployments: map<Id, Record>
    var slugs: map<string, Id>

    ghost function View(): Db
      reads this
    {
      Db(deployments, slugs)
    }

    constructor ()
      ensures View() == EMPTY
    {
      deployments, slugs := map[], map[];
    }

    // Refuses a slug another resource holds, before anything changes.
    method Put(r: Record) returns (ok: bool)
      requires Consistent(View())
      modifies this
      ensures ok == !SlugTaken(old(View()), r)
      ensures View() == if ok then Stored(old(View()), r) else old(View())
      ensures Consistent(View())
    {
      if r.slug in slugs && slugs[r.slug] != r.resourceId {
        return false;
      }
      StoredConsistent(View(), r);
      if r.resourceId in deployments && deployments[r.resourceId].slug != r.slug {
        slugs := slugs - {deployments[r.resourceId].slug};
      }
      slugs := slugs[r.slug := r.resourceId];
      deployments := deployments[r.resourceId := r];
      return true;
    }

    method GetBySlug(slug: string) returns (r: Option<Record>)
      requires Consistent(View())
      ensures r.Some? ==> r.value.slug == slug && r.value.resourceId in deployments
                          && deployments[r.value.resourceId] == r.value
      ensures r.None? ==> forall id | id in deployments :: deployments[id].slug != slug
    {
      if slug !in slugs {
        return None;
      }
      return Some(deployments[slugs[slug]]);
    }
  }

  datatype Config = Config(cap: Option<int>, status: Option<Status>)

  function OrElse<T>(o: Option<T>, other: Option<T>): Option<T> {
    if o.Some? then o else other
  }

  // The record of the next version: identity kept, version bumped, configuration overlaid.
  function Bumped(r: Record, config: Config, now: int): Record {
    r.(deployVersion := r.deployVersion + 1,
       cap := OrElse(config.cap, r.cap),
       status := config.status.GetOr(r.status),
       updatedAt := now)
  }

  // The next version of a record: the same resource under the same slug, one version on, and under the
  // given configuration where it says something.
  predicate Succeeds(next: Record, r: Record, config: Config, now: int) {
    && next.agentId == r.agentId && next.resourceId == r.resourceId && next.slug == r.slug
    && next.deployVersion == r.deployVersion + 1 && next.updatedAt == now
    && (config.cap.Some? ==> next.cap == config.cap) && (config.cap.None? ==> next.cap == r.cap)
    && (config.status.Some? ==> next.status == config.status.value) && (config.status.None? ==> next.status == r.status)
  }

  // None is the "nothing to redeploy" error.
  method Redeploy(store: InMemoryDeploymentStore, id: Id, config: Config,
                  cache: ResponseCache.InMemoryResponseCache?, now: int)
    returns (r: Option<Record>)
    requires Consistent(store.View())
    modifies store, cache
    ensures r.Some? <==> id in old(store.deployments)
    ensures r.Some? ==> Succeeds(r.value, old(store.deployments)[id], config, now)
    ensures r.Some? ==> store.View() == Stored(old(store.View()), r.value)
    ensures r.None? ==> store.View() == old(store.View())
    ensures Consistent(store.View())
    ensures cache != null && r.None? ==> cache.entries == old(cache.entries)
    ensures cache != null && r.Some? ==>
              var prefix := Namespace(id, old(store.deployments)[id].deployVersion);
              cache.entries == ResponseCache.DropPrefix(old(cache.entries), prefix)
  {
    if id !in store.deployments {
      return None;
    }
    var existing := store.deployments[id];
    var next := Bumped(existing, config, now);
    var ok := store.Put(next);
    if cache != null {
      cache.DelByPrefix(Namespace(id, existing.deployVersion));
    }
    return Some(next);
  }

  datatype Params = Params(resourceId: Id, slug: string, cap: Option<int>, status: Option<Status>)

  datatype Outcome = Recorded(r: Record) | SlugConflict

  function First(p: Params, now: int): Record {
    Record(p.resourceId, p.resourceId, p.slug, 1, p.status.GetOr(Running), now, p.cap)
  }

  // What one recordDeployment call leaves behind.
  function Deployed(db: Db, p: Params, now: int): (Db, Outcome) {
    if p.resourceId in db.deployments then
      var existing := db.deployments[p.resourceId];
      var next := Bumped(existing, Config(OrElse(p.cap, existing.cap), Some(p.status.GetOr(Running))), now);
      (Stored(db, next), Recorded(next))
    else
      var first := First(p, now);
      if SlugTaken(db, first) then (db, SlugConflict) else (Stored(db, first), Recorded(first))
  }

  method RecordDeployment(store: InMemoryDeploymentStore, p: Params, now: int) returns (outcome: Outcome)
    requires Consistent(store.View())
    modifies store
    ensures (store.View(), outcome) == Deployed(old(store.View()), p, now)
    ensures Consistent(store.View())
  {
    if p.resourceId in store.deployments {
      var existing := store.deployments[p.resourceId];
      var config := Config(OrElse(p.cap, existing.cap), Some(p.status.GetOr(Running)));
      var r := Redeploy(store, p.resourceId, config, null, now);
      return Recorded(r.value);
    }
    var record := First(p, now);
    var ok := store.Put(record);
    return if ok then Recorded(record) else SlugConflict;
  }

  // A first deploy is recorded at version 1, running unless it says otherwise, under its own slug and
  // cap, unless another resource holds the slug; then nothing changes. A repeat deploy is the next
  // version, running unless it says otherwise, under the slug there was.
  lemma DeployRecords(db: Db, p: Params, now: int)
    requires Consistent(db)
    ensures var (after, outcome) := Deployed(db, p, now);
            && (outcome == SlugConflict <==>
                  p.resourceId !in db.deployments && exists id | id in db.deployments :: db.deployments[id].slug == p.slug)
            && (outcome == SlugConflict ==> after == db)
            && (outcome.Recorded? ==>
                  after.deployments == db.deployments[p.resourceId := outcome.r]
                  && outcome.r.status == if p.status.Some? then p.status.value else Running)
            && (outcome.Recorded? && p.resourceId !in db.deployments ==>
                  outcome.r.(status := Running)
                  == Record(p.resourceId, p.resourceId, p.slug, 1, Running, now, p.cap))
            && (p.resourceId in db.deployments ==>
                  outcome.Recorded?
                  && Succeeds(outcome.r, db.deployments[p.resourceId], Config(p.cap, Some(outcome.r.status)), now))
  {
  }

  // ---------- Every history of deploys ----------

  function Run(calls: seq<(Params, int)>): Db {
    if calls == [] then EMPTY
    else Deployed(Run(calls[..|calls| - 1]), calls[|calls| - 1].0, calls[|calls| - 1].1).0
  }

  lemma {:induction false} RunConsistent(calls: seq<(Params, int)>)
    ensures Consistent(Run(calls))
  {
    if calls != [] {
      RunConsistent(calls[..|calls| - 1]);
    }
  }

  function DeploysOf(calls: seq<(Params, int)>, id: Id): nat {
    if calls == [] then 0
    else DeploysOf(calls[..|calls| - 1], id) + if calls[|calls| - 1].0.resourceId == id then 1 else 0
  }

  lemma DeployKeepsIdentity(db: Db, p: Params, now: int, id: Id)
    requires Consistent(db) && id in db.deployments
    ensures id in Deployed(db, p, now).0.deployments
    ensures var x, y := db.deployments[id], Deployed(db, p, now).0.deployments[id];
            && y.agentId == x.agentId && y.resourceId == x.resourceId && y.slug == x.slug
            && y.deployVersion == x.deployVersion + if p.resourceId == id then 1 else 0
  {
  }

  // Once deployed, a resource keeps its agent id and its slug through every later deploy, of itself
  // or of others, and its version counts its deploys.
  lemma {:induction false} IdentityIsPermanent(before: seq<(Params, int)>, after: seq<(Params, int)>, id: Id)
    requires id in Run(before).deployments
    ensures id in Run(before + after).deployments
    ensures var x, y := Run(before).deployments[id], Run(before + after).deployments[id];
            && y.agentId == x.agentId && y.resourceId == x.resourceId && y.slug == x.slug
            && y.deployVersion == x.deployVersion + DeploysOf(after, id)
  {
    hide Deployed, Consistent;
    if after == [] {
      assert before + after == before;
    } else {
      var front := after[..|after| - 1];
      var last := after[|after| - 1];
      IdentityIsPermanent(before, front, id);
      RunConsistent(before + front);
      DeployKeepsIdentity(Run(before + front), last.0, last.1, id);
      assert (before + after)[..|before + after| - 1] == before + front;
    }
  }

  // The call at k is the last deploy of the resource, or the last that names a cap.
  predicate LastFor(calls: seq<(Params, int)>, id: Id, k: nat) {
    && k < |calls| && calls[k].0.resourceId == id
    && forall j | k < j < |calls| :: calls[j].0.resourceId != id
  }

  predicate LastCapFor(calls: seq<(Params, int)>, id: Id, k: nat) {
    && k < |calls| && calls[k].0.resourceId == id && calls[k].0.cap.Some?
    && forall j | k < j < |calls| :: calls[j].0.resourceId == id ==> calls[j].0.cap.None?
  }

  // A record that was x runs, after these calls, under the latest deploy: its status and time are
  // that call's, its cap the last one any of its deploys named; deploys of others leave it alone.
  ghost predicate RunsUnder(x: Record, calls: seq<(Params, int)>, id: Id, y: Record) {
    && (forall k: nat | LastFor(calls, id, k) ::
          y.status == calls[k].0.status.GetOr(Running) && y.updatedAt == calls[k].1)
    && (forall k: nat | LastCapFor(calls, id, k) :: y.cap == calls[k].0.cap)
    && ((forall k | 0 <= k < |calls| :: calls[k].0.resourceId != id) ==> y == x)
    && ((forall k | 0 <= k < |calls| && calls[k].0.resourceId == id :: calls[k].0.cap.None?) ==> y.cap == x.cap)
  }

  lemma RunsUnderMore(x: Record, calls: seq<(Params, int)>, id: Id, y: Record, last: (Params, int), z: Record)
    requires RunsUnder(x, calls, id, y)
    requires if last.0.resourceId != id then z == y
             else z.status == last.0.status.GetOr(Running) && z.updatedAt == last.1 && z.cap == OrElse(last.0.cap, y.cap)
    ensures RunsUnder(x, calls + [last], id, z)
  {
    var more, n := calls + [last], |calls|;
    assert more[n] == last;
    forall k: nat | LastFor(more, id, k)
      ensures z.status == more[k].0.status.GetOr(Running) && z.updatedAt == more[k].1
    {
      if k < n {
        assert LastFor(calls, id, k) by {
          assert forall j | k < j < n :: more[j] == calls[j];
        }
      }
    }
    forall k: nat | LastCapFor(more, id, k) ensures z.cap == more[k].0.cap {
      if k < n {
        assert LastCapFor(calls, id, k) by {
          assert forall j | k < j < n :: more[j] == calls[j];
        }
      }
    }
    assert forall k | 0 <= k < n :: more[k] == calls[k];
  }

  lemma RunsUnderNothing(x: Record, id: Id)
    ensures RunsUnder(x, [], id, x)
  {
  }

  lemma DeployedRecord(db: Db, p: Params, now: int, id: Id)
    requires Consistent(db) && id in db.deployments
    ensures id in Deployed(db, p, now).0.deployments
    ensures var y, z := db.deployments[id], Deployed(db, p, now).0.deployments[id];
            if p.resourceId != id then z == y
            else z.status == p.status.GetOr(Running) && z.updatedAt == now && z.cap == OrElse(p.cap, y.cap)
  {
  }

  lemma {:induction false} LatestDeployApplies(before: seq<(Params, int)>, after: seq<(Params, int)>, id: Id)
    requires id in Run(before).deployments
    ensures id in Run(before + after).deployments
    ensures RunsUnder(Run(before).deployments[id], after, id, Run(before + after).deployments[id])
  {
    hide Run, Consistent, Deployed, RunsUnder;
    if after == [] {
      assert before + after == before;
      RunsUnderNothing(Run(before).deployments[id], id);
    } else {
      var front, last := after[..|after| - 1], after[|after| - 1];
      LatestDeployApplies(before, front, id);
      RunConsistent(before + front);
      RunSnoc(before + front, last);
      assert before + after == before + front + [last] && after == front + [last];
      DeployedRecord(Run(before + front), last.0, last.1, id);
      RunsUnderMore(Run(before).deployments[id], front, id, Run(before + front).deployments[id],
                    last, Run(before + after).deployments[id]);
    }
  }

  lemma RunSnoc(calls: seq<(Params, int)>, call: (Params, int))
    ensures Run(calls + [call]) == Deployed(Run(calls), call.0, call.1).0
  {
    assert (calls + [call])[..|calls|] == calls;
  }

  // No history gives one slug to two resources.
  lemma SlugsAreUnique(calls: seq<(Params, int)>, a: Id, b: Id)
    requires a in Run(calls).deployments && b in Run(calls).deployments
    requires Run(calls).deployments[a].slug == Run(calls).deployments[b].slug
    ensures a == b
  {
    RunConsistent(calls);
  }

  // A repeat deploy that names no status sets the resource running: it keeps the recorded status if
  // and only if that was running already. Redeploy itself, given no status, always keeps it.
  lemma RepeatDeployRestarts(db: Db, p: Params, now: int)
    requires p.resourceId in db.deployments && p.status == None
    ensures var recorded := db.deployments[p.resourceId].status;
            && Deployed(db, p, now).1.r.status == Running
            && (Deployed(db, p, now).1.r.status == recorded <==> recorded == Running)
            && Bumped(db.deployments[p.resourceId], Config(p.cap, p.status), now).status == recorded
  {
  }

  // ---------- Redeploys that overlap ----------

  // A redeploy reads the record at one await and writes its successor at a later one.
  datatype RedeployStep =
    | ReadRecord(i: nat, id: Id)
    | WriteRecord(i: nat, config: Config, now: int)

  // What a redeploy under way has read, and every record a redeploy wrote.
  datatype Redeploys = Redeploys(db: Db, read: map<nat, Record>, written: seq<Record>)

  function RedeployNext(s: Redeploys, step: RedeployStep): Redeploys {
    match step
    case ReadRecord(i, id) =>
      s.(read := if id in s.db.deployments then s.read[i := s.db.deployments[id]] else s.read - {i})
    case WriteRecord(i, config, now) =>
      if i !in s.read || SlugTaken(s.db, Bumped(s.read[i], config, now)) then s
      else
        var next := Bumped(s.read[i], config, now);
        Redeploys(Stored(s.db, next), s.read - {i}, s.written + [next])
  }

  function RunRedeploys(db: Db, steps: seq<RedeployStep>): Redeploys {
    if steps == [] then Redeploys(db, map[], [])
    else RedeployNext(RunRedeploys(db, steps[..|steps| - 1]), steps[|steps| - 1])
  }

  // ---------- Which redeploys overtake which ----------

  // What a redeploy has read and not yet written back: the resource, and the step of the read.
  datatype Fetch = Fetch(id: Id, at: nat)

  function Fetched(ids: set<Id>, steps: seq<RedeployStep>, i: nat): Option<Fetch> {
    if steps == [] then None
    else
      var n := |steps| - 1;
      match steps[n]
      case ReadRecord(j, id) =>
        if j != i then Fetched(ids, steps[..n], i) else if id in ids then Some(Fetch(id, n)) else None
      case WriteRecord(j, _, _) => if j != i then Fetched(ids, steps[..n], i) else None
  }

  // A redeploy writes this resource at this step.
  predicate WritesAt(ids: set<Id>, steps: seq<RedeployStep>, b: int, id: Id) {
    && 0 <= b < |steps| && steps[b].WriteRecord?
    && var f := Fetched(ids, steps[..b], steps[b].i);
       f.Some? && f.value.id == id
  }

  // The redeploy that writes at step c read before step b, at which another wrote the same resource.
  predicate Overtaken(ids: set<Id>, steps: seq<RedeployStep>, b: int, c: int) {
    && 0 <= b < c < |steps| && steps[c].WriteRecord?
    && var f := Fetched(ids, steps[..c], steps[c].i);
       f.Some? && f.value.at < b && WritesAt(ids, steps, b, f.value.id)
  }

  // No redeploy that writes was overtaken between its read and its write.
  ghost predicate Serial(ids: set<Id>, steps: seq<RedeployStep>) {
    forall b, c :: !Overtaken(ids, steps, b, c)
  }

  ghost predicate WrittenSince(ids: set<Id>, steps: seq<RedeployStep>, f: Fetch) {
    exists b :: f.at < b && WritesAt(ids, steps, b, f.id)
  }

  lemma WritesLonger(ids: set<Id>, steps: seq<RedeployStep>, step: RedeployStep, b: int, id: Id)
    requires b < |steps|
    ensures WritesAt(ids, steps + [step], b, id) <==> WritesAt(ids, steps, b, id)
  {
    hide Fetched;
    if 0 <= b {
      assert (steps + [step])[..b] == steps[..b];
    }
  }

  lemma SinceLonger(ids: set<Id>, steps: seq<RedeployStep>, step: RedeployStep, f: Fetch)
    ensures WrittenSince(ids, steps + [step], f)
       <==> WrittenSince(ids, steps, f) || (f.at < |steps| && WritesAt(ids, steps + [step], |steps|, f.id))
  {
    hide WritesAt;
    if b :| f.at < b && WritesAt(ids, steps + [step], b, f.id) {
      WritesWithin(ids, steps + [step], b, f.id);
      if b < |steps| {
        WritesLonger(ids, steps, step, b, f.id);
      }
    }
    if b :| f.at < b && WritesAt(ids, steps, b, f.id) {
      WritesWithin(ids, steps, b, f.id);
      WritesLonger(ids, steps, step, b, f.id);
    }
  }

  lemma WritesWithin(ids: set<Id>, steps: seq<RedeployStep>, b: int, id: Id)
    requires WritesAt(ids, steps, b, id)
    ensures b < |steps|
  {
  }

  lemma {:induction false} FetchedWithin(ids: set<Id>, steps: seq<RedeployStep>, i: nat)
    ensures Fetched(ids, steps, i).Some? ==> Fetched(ids, steps, i).value.at < |steps| && Fetched(ids, steps, i).value.id in ids
  {
    if steps != [] {
      FetchedWithin(ids, steps[..|steps| - 1], i);
    }
  }

  // ---------- The store under redeploys that are not overtaken ----------

  // Resources and their slugs stay; each resource's writes have the versions from the one after the
  // first to the current one, in order.
  ghost predicate StoreOk(db: Db, s: Redeploys) {
    && Consistent(s.db) && s.db.deployments.Keys == db.deployments.Keys
    && (forall id | id in db.deployments :: s.db.deployments[id].resourceId == id && ReadOk(db, s.db, s.db.deployments[id]))
    && (forall i | i in s.read :: ReadOk(db, s.db, s.read[i]))
    && (forall k | 0 <= k < |s.written| :: ReadOk(db, s.db, s.written[k]))
    && Ascending(s.written)
    && (forall id, v | id in db.deployments && Since(db, s.db, id, v) :: Wrote(s.written, id, v))
  }

  ghost predicate Ascending(w: seq<Record>) {
    forall j, k | 0 <= j < k < |w| && w[j].resourceId == w[k].resourceId :: w[j].deployVersion < w[k].deployVersion
  }

  predicate Since(db: Db, now: Db, id: Id, v: int)
    requires id in db.deployments
  {
    id in now.deployments && db.deployments[id].deployVersion < v <= now.deployments[id].deployVersion
  }

  ghost predicate Wrote(w: seq<Record>, id: Id, v: int) {
    exists k :: 0 <= k < |w| && w[k].resourceId == id && w[k].deployVersion == v
  }

  // A record that was read or written: of a known resource, under its slug, at a version between the
  // first and the current one.
  ghost predicate ReadOk(db: Db, now: Db, r: Record) {
    && r.resourceId in db.deployments && r.resourceId in now.deployments
    && r.slug == db.deployments[r.resourceId].slug
    && db.deployments[r.resourceId].deployVersion <= r.deployVersion <= now.deployments[r.resourceId].deployVersion
  }

  // What is read is what the steps say, and it is older than the record exactly when another redeploy
  // has written the resource since.
  ghost predicate ReadsOk(ids: set<Id>, s: Redeploys, steps: seq<RedeployStep>) {
    forall i: nat :: FetchedOk(ids, s, steps, i)
  }

  ghost predicate FetchedOk(ids: set<Id>, s: Redeploys, steps: seq<RedeployStep>, i: nat) {
    var f := Fetched(ids, steps, i);
    && (i in s.read <==> f.Some?)
    && (i in s.read ==>
          && s.read[i].resourceId == f.value.id && f.value.id in s.db.deployments
          && (s.read[i].deployVersion < s.db.deployments[f.value.id].deployVersion <==> WrittenSince(ids, steps, f.value)))
  }

  lemma SlugIsFree(db: Db, s: Redeploys, i: nat, config: Config, now: int)
    requires StoreOk(db, s) && i in s.read
    ensures !SlugTaken(s.db, Bumped(s.read[i], config, now))
  {
    assert ReadOk(db, s.db, s.read[i]);
  }

  lemma ReadKeepsStore(db: Db, s: Redeploys, i: nat, id: Id)
    requires StoreOk(db, s)
    ensures StoreOk(db, RedeployNext(s, ReadRecord(i, id)))
  {
    hide Since, Wrote, Consistent, ReadOk;
  }

  // A write of the version after the current one.
  lemma WriteKeepsStore(db: Db, s: Redeploys, i: nat, config: Config, now: int)
    requires StoreOk(db, s)
    requires i in s.read ==> var r := s.read[i];
               r.resourceId in s.db.deployments && r.deployVersion == s.db.deployments[r.resourceId].deployVersion
    ensures StoreOk(db, RedeployNext(s, WriteRecord(i, config, now)))
  {
    hide Consistent, Wrote, Since, ReadOk, Ascending, SlugTaken, Stored, Bumped;
    if i in s.read {
      var next := Bumped(s.read[i], config, now);
      SlugIsFree(db, s, i, config, now);
      NextVersion(db, s, i, config, now);
      StoredConsistent(s.db, next);
      StoresNext(db, s.db, next);
      Ascends(db, s.db, s.written, next);
      forall id, v | id in db.deployments && Since(db, Stored(s.db, next), id, v) ensures Wrote(s.written + [next], id, v) {
        SinceNext(db, s.db, next, id, v);
        WroteMore(s.written, next, id, v);
      }
    }
  }

  // The record that comes after the current one.
  predicate Follows(db: Db, now: Db, next: Record) {
    && next.resourceId in db.deployments && next.resourceId in now.deployments
    && next.slug == db.deployments[next.resourceId].slug
    && next.deployVersion == now.deployments[next.resourceId].deployVersion + 1
  }

  lemma NextVersion(db: Db, s: Redeploys, i: nat, config: Config, now: int)
    requires i in s.read && ReadOk(db, s.db, s.read[i])
    requires s.read[i].deployVersion == s.db.deployments[s.read[i].resourceId].deployVersion
    ensures Follows(db, s.db, Bumped(s.read[i], config, now))
  {
  }

  lemma StoresNext(db: Db, now: Db, next: Record)
    requires Follows(db, now, next) && ReadOk(db, now, now.deployments[next.resourceId])
    requires now.deployments[next.resourceId].resourceId == next.resourceId
    ensures var later := Stored(now, next);
            && later.deployments == now.deployments[next.resourceId := next]
            && ReadOk(db, later, next)
            && forall r | ReadOk(db, now, r) :: ReadOk(db, later, r)
  {
  }

  lemma Ascends(db: Db, now: Db, w: seq<Record>, next: Record)
    requires Follows(db, now, next) && Ascending(w) && forall k | 0 <= k < |w| :: ReadOk(db, now, w[k])
    ensures Ascending(w + [next])
  {
  }

  lemma SinceNext(db: Db, now: Db, next: Record, id: Id, v: int)
    requires Follows(db, now, next) && id in db.deployments && Since(db, Stored(now, next), id, v)
    ensures Since(db, now, id, v) || (id == next.resourceId && v == next.deployVersion)
  {
  }

  lemma WroteMore(w: seq<Record>, next: Record, id: Id, v: int)
    ensures Wrote(w, id, v) || (id == next.resourceId && v == next.deployVersion) ==> Wrote(w + [next], id, v)
  {
    if k :| 0 <= k < |w| && w[k].resourceId == id && w[k].deployVersion == v {
      assert (w + [next])[k] == w[k];
    }
    assert (w + [next])[|w|] == next;
  }

  lemma ReadKeepsReads(db: Db, s: Redeploys, steps: seq<RedeployStep>, i: nat, id: Id)
    requires StoreOk(db, s) && ReadsOk(db.deployments.Keys, s, steps)
    ensures ReadsOk(db.deployments.Keys, RedeployNext(s, ReadRecord(i, id)), steps + [ReadRecord(i, id)])
  {
    hide Consistent, WrittenSince, ReadOk, Since, Wrote;
    var ids, step := db.deployments.Keys, ReadRecord(i, id);
    var t := RedeployNext(s, step);
    forall j: nat
      ensures FetchedOk(ids, t, steps + [step], j)
    {
      assert FetchedOk(ids, s, steps, j);
      FetchedLonger(ids, steps, step, j);
      FetchedWithin(ids, steps, j);
      if Fetched(ids, steps + [step], j).Some? {
        SinceLonger(ids, steps, step, Fetched(ids, steps + [step], j).value);
        NotSinceNow(ids, steps, Fetched(ids, steps + [step], j).value);
      }
    }
  }

  lemma FetchedLonger(ids: set<Id>, steps: seq<RedeployStep>, step: RedeployStep, i: nat)
    ensures Fetched(ids, steps + [step], i)
         == if step.i != i then Fetched(ids, steps, i)
            else if step.ReadRecord? && step.id in ids then Some(Fetch(step.id, |steps|)) else None
  {
    assert (steps + [step])[..|steps|] == steps;
  }

  lemma NotSinceNow(ids: set<Id>, steps: seq<RedeployStep>, f: Fetch)
    ensures |steps| <= f.at ==> !WrittenSince(ids, steps, f)
  {
  }

  lemma WriteKeepsReads(db: Db, s: Redeploys, steps: seq<RedeployStep>, step: RedeployStep)
    requires StoreOk(db, s) && ReadsOk(db.deployments.Keys, s, steps) && step.WriteRecord?
    requires step.i in s.read ==> var r := s.read[step.i];
               r.resourceId in s.db.deployments && r.deployVersion == s.db.deployments[r.resourceId].deployVersion
    ensures ReadsOk(db.deployments.Keys, RedeployNext(s, step), steps + [step])
  {
    hide Consistent, WrittenSince, Since, Wrote, Fetched;
    var ids := db.deployments.Keys;
    var t := RedeployNext(s, step);
    assert FetchedOk(ids, s, steps, step.i);
    if step.i in s.read {
      SlugIsFree(db, s, step.i, step.config, step.now);
    }
    forall j: nat
      ensures FetchedOk(ids, t, steps + [step], j)
    {
      assert FetchedOk(ids, s, steps, j);
      FetchedLonger(ids, steps, step, j);
      FetchedWithin(ids, steps, j);
      if j != step.i && Fetched(ids, steps, j).Some? {
        assert ReadOk(db, s.db, s.read[j]);
        SinceLonger(ids, steps, step, Fetched(ids, steps, j).value);
        WritesNow(ids, steps, step, Fetched(ids, steps, j).value.id);
      }
    }
  }

  lemma WritesNow(ids: set<Id>, steps: seq<RedeployStep>, step: RedeployStep, id: Id)
    ensures WritesAt(ids, steps + [step], |steps|, id)
       <==> step.WriteRecord? && Fetched(ids, steps, step.i).Some? && Fetched(ids, steps, step.i).value.id == id
  {
    assert (steps + [step])[..|steps|] == steps;
  }

  // ---------- When versions differ ----------

  lemma SerialFront(ids: set<Id>, front: seq<RedeployStep>, step: RedeployStep)
    ensures Serial(ids, front + [step])
       <==> Serial(ids, front) && (step.WriteRecord? && Fetched(ids, front, step.i).Some?
                                   ==> !WrittenSince(ids, front, Fetched(ids, front, step.i).value))
  {
    hide Fetched, WritesAt;
    var steps, n := front + [step], |front|;
    assert steps[..n] == front;
    forall b, c | c < n ensures Overtaken(ids, steps, b, c) <==> Overtaken(ids, front, b, c) {
      if 0 <= b < c {
        assert steps[..c] == front[..c];
        forall id ensures WritesAt(ids, steps, b, id) <==> WritesAt(ids, front, b, id) {
          WritesLonger(ids, front, step, b, id);
        }
      }
    }
    forall b, id | b < n ensures WritesAt(ids, steps, b, id) <==> WritesAt(ids, front, b, id) {
      WritesLonger(ids, front, step, b, id);
    }
    if step.WriteRecord? && Fetched(ids, front, step.i).Some? {
      var f := Fetched(ids, front, step.i).value;
      if b :| f.at < b && WritesAt(ids, front, b, f.id) {
        WritesWithin(ids, front, b, f.id);
        assert WritesAt(ids, steps, b, f.id);
        assert Overtaken(ids, steps, b, n);
      }
    }
    if Serial(ids, steps) {
      forall b, c ensures !Overtaken(ids, front, b, c) {
        assert !Overtaken(ids, steps, b, c);
      }
    }
  }

  lemma {:induction false} RunSerial(db: Db, steps: seq<RedeployStep>)
    requires Consistent(db) && Serial(db.deployments.Keys, steps)
    ensures StoreOk(db, RunRedeploys(db, steps)) && ReadsOk(db.deployments.Keys, RunRedeploys(db, steps), steps)
  {
    if steps != [] {
      hide StoreOk, ReadsOk, RedeployNext, Consistent, Serial;
      var ids, n := db.deployments.Keys, |steps| - 1;
      var front, step := steps[..n], steps[n];
      assert steps == front + [step];
      SerialFront(ids, front, step);
      RunSerial(db, front);
      var s := RunRedeploys(db, front);
      match step
      case ReadRecord(i, id) => {
        ReadKeepsStore(db, s, i, id);
        ReadKeepsReads(db, s, front, i, id);
      }
      case WriteRecord(i, config, now) => {
        ReadIsCurrent(db, s, front, i);
        WriteKeepsStore(db, s, i, config, now);
        WriteKeepsReads(db, s, front, step);
      }
    }
  }

  lemma ReadIsCurrent(db: Db, s: Redeploys, steps: seq<RedeployStep>, i: nat)
    requires StoreOk(db, s) && ReadsOk(db.deployments.Keys, s, steps)
    ensures i in s.read <==> Fetched(db.deployments.Keys, steps, i).Some?
    ensures i in s.read ==>
              var r, f := s.read[i], Fetched(db.deployments.Keys, steps, i).value;
              && r.resourceId in s.db.deployments && ReadOk(db, s.db, r)
              && (r.deployVersion == s.db.deployments[r.resourceId].deployVersion
                  <==> !WrittenSince(db.deployments.Keys, steps, f))
  {
    hide WrittenSince, Fetched;
    assert FetchedOk(db.deployments.Keys, s, steps, i);
  }

  // No two writes of one resource have the same version.
  ghost predicate VersionsApart(w: seq<Record>) {
    forall j, k | 0 <= j < k < |w| && w[j].resourceId == w[k].resourceId :: w[j].deployVersion != w[k].deployVersion
  }

  // The first redeploy to write after it was overtaken writes a version that another wrote before.
  lemma {:induction false} OvertakenRepeats(db: Db, steps: seq<RedeployStep>)
    requires Consistent(db) && !Serial(db.deployments.Keys, steps)
    ensures !VersionsApart(RunRedeploys(db, steps).written)
  {
    hide StoreOk, ReadsOk, Consistent, Overtaken;
    var ids, n := db.deployments.Keys, |steps| - 1;
    if steps == [] {
      NothingOvertaken(ids);
    } else {
      var front, step := steps[..n], steps[n];
      assert steps == front + [step];
      var s, t := RunRedeploys(db, front), RunRedeploys(db, steps);
      SerialFront(ids, front, step);
      if !Serial(ids, front) {
        OvertakenRepeats(db, front);
        StillRepeats(s.written, t.written);
      } else {
        RunSerial(db, front);
        ReadIsCurrent(db, s, front, step.i);
        RepeatsNow(db, s, step.i, step.config, step.now);
      }
    }
  }

  lemma NothingOvertaken(ids: set<Id>)
    ensures Serial(ids, [])
  {
  }

  lemma StillRepeats(w: seq<Record>, more: seq<Record>)
    requires !VersionsApart(w) && w <= more
    ensures !VersionsApart(more)
  {
  }

  lemma RepeatsNow(db: Db, s: Redeploys, i: nat, config: Config, now: int)
    requires StoreOk(db, s) && i in s.read && s.read[i].resourceId in s.db.deployments && ReadOk(db, s.db, s.read[i])
    requires s.read[i].deployVersion < s.db.deployments[s.read[i].resourceId].deployVersion
    ensures !VersionsApart(RedeployNext(s, WriteRecord(i, config, now)).written)
  {
    SlugIsFree(db, s, i, config, now);
    var next, w := Bumped(s.read[i], config, now), s.written;
    assert Since(db, s.db, next.resourceId, next.deployVersion);
    var k :| 0 <= k < |w| && w[k].resourceId == next.resourceId && w[k].deployVersion == next.deployVersion;
    assert (w + [next])[k] == w[k] && (w + [next])[|w|] == next;
  }

  // Over every interleaving of the reads and writes of redeploys, every write of a resource gets a
  // version of its own if and only if no redeploy that writes was overtaken: between its read and its
  // write, no other wrote the resource.
  lemma VersionsApartExactly(db: Db, steps: seq<RedeployStep>)
    requires Consistent(db)
    ensures VersionsApart(RunRedeploys(db, steps).written) <==> Serial(db.deployments.Keys, steps)
  {
    hide Serial, RunRedeploys, ReadsOk, Consistent;
    if Serial(db.deployments.Keys, steps) {
      RunSerial(db, steps);
      assert StoreOk(db, RunRedeploys(db, steps));
    } else {
      OvertakenRepeats(db, steps);
    }
  }

  // Then each later write has a greater version, and a cache namespace of its own.
  lemma VersionsDiffer(db: Db, steps: seq<RedeployStep>, j: nat, k: nat)
    requires Consistent(db) && Serial(db.deployments.Keys, steps)
    requires var w := RunRedeploys(db, steps).written; j < k < |w| && w[j].resourceId == w[k].resourceId
    ensures var w := RunRedeploys(db, steps).written;
            w[j].deployVersion < w[k].deployVersion
            && Namespace(w[j].resourceId, w[j].deployVersion) != Namespace(w[k].resourceId, w[k].deployVersion)
  {
    hide RunRedeploys, Consistent, Namespace, Serial, ReadsOk;
    RunSerial(db, steps);
    var w := RunRedeploys(db, steps).written;
    assert StoreOk(db, RunRedeploys(db, steps));
    NamespacesDiffer(w[j].resourceId, w[j].deployVersion, w[k].deployVersion);
  }

  lemma NamespacesDiffer(id: Id, m: nat, n: nat)
    requires m != n
    ensures Namespace(id, m) != Namespace(id, n)
  {
    if Namespace(id, m) == Namespace(id, n) {
      var head := "resource:" + (id + [':']) + "v";
      assert Namespace(id, m) == head + (Decimal(m) + [':']) && Namespace(id, n) == head + (Decimal(n) + [':']);
      assert Namespace(id, m)[|head|..] == Decimal(m) + [':'] && Namespace(id, n)[|head|..] == Decimal(n) + [':'];
      assert (Decimal(m) + [':'])[..|Decimal(m) + [':']| - 1] == Decimal(m);
      assert (Decimal(n) + [':'])[..|Decimal(n) + [':']| - 1] == Decimal(n);
      DecimalInjective(m, n);
    }
  }

  lemma RecordOfItself(db: Db, id: Id)
    requires Consistent(db) && id in db.deployments
    ensures db.deployments[id].resourceId == id
  {
  }

  // Two redeploys of one resource that both read before either writes give two configurations one
  // version, whichever those are.
  lemma OverlapSharesVersion(db: Db, id: Id, a: Config, b: Config, now: int, later: int)
    requires Consistent(db) && id in db.deployments
    ensures var r := db.deployments[id];
            var w := RunRedeploys(db, [ReadRecord(0, id), ReadRecord(1, id), WriteRecord(0, a, now), WriteRecord(1, b, later)]).written;
            && w == [Bumped(r, a, now), Bumped(r, b, later)]
            && w[0].deployVersion == w[1].deployVersion
  {
    hide RunRedeploys;
    var r := db.deployments[id];
    var steps := [ReadRecord(0, id), ReadRecord(1, id), WriteRecord(0, a, now), WriteRecord(1, b, later)];
    RecordOfItself(db, id);
    RedeploySnoc(db, [], steps[0]);
    RedeploySnoc(db, steps[..1], steps[1]);
    RedeploySnoc(db, steps[..2], steps[2]);
    RedeploySnoc(db, steps[..3], steps[3]);
    assert [] + [steps[0]] == steps[..1] && steps[..1] + [steps[1]] == steps[..2];
    assert steps[..2] + [steps[2]] == steps[..3] && steps[..3] + [steps[3]] == steps;
    NoRedeploys(db);
    StoredConsistent(db, Bumped(r, a, now));
  }

  lemma NoRedeploys(db: Db)
    ensures RunRedeploys(db, []) == Redeploys(db, map[], [])
  {
  }

  lemma RedeploySnoc(db: Db, steps: seq<RedeployStep>, step: RedeployStep)
    ensures RunRedeploys(db, steps + [step]) == RedeployNext(RunRedeploys(db, steps), step)
  {
    assert (steps + [step])[..|steps|] == steps;
  }
}
