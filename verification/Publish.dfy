// The publish pipeline (apps/marketplace/src/publish.ts) over the index and the card store
// (apps/marketplace/src/index-store.ts, card-store.ts): gate order, pay-to binding, and who owns a
// listing over every interleaving of publishes.
module Publish {
  import opened Prelude

  // bytes32 text is compared without regard to case; the stores key on the text as it is.
  predicate EqHex(a: string, b: string) { Lower(a) == Lower(b) }

  datatype Pricing = Pricing(mode: string, base: string, perKB: string, max: string)

  // What the card's x402 block holds; None is a field that is absent or not a string.
  datatype CardPricing = CardPricing(mode: Option<string>, base: Option<string>, perKB: Option<string>, max: Option<string>)

  datatype PostedBond = PostedBond(posted: bool, amount: string)

  datatype Card = Card(
    name: Option<string>,
    payTo: Option<string>,
    pricing: CardPricing,
    verified: Option<bool>,
    bond: Option<PostedBond>,
    rest: string)

  datatype IndexRecord = IndexRecord(
    resourceId: string,
    creator: Option<string>,
    agentId: string,
    slug: string,
    category: string,
    pricing: Pricing,
    reputation: nat,
    bond: nat,
    cardUrl: string,
    active: bool)

  datatype Request = Request(
    resourceId: string,
    creator: Option<string>,
    category: string,
    cardUrl: string,
    slug: Option<string>,
    reputation: Option<nat>)

  function ProjectPricing(card: Card): Pricing {
    var p := card.pricing;
    Pricing(p.mode.GetOr("metered"), p.base.GetOr("0"), p.perKB.GetOr("0"), p.max.GetOr(p.base.GetOr("0")))
  }

  function CardSlug(card: Card): string {
    if card.name.Some? && card.name.value != "" then card.name.value else "resource"
  }

  function Finalize(card: Card, bond: nat): Card {
    card.(verified := Some(true), bond := Some(PostedBond(bond > 0, Decimal(bond))))
  }

  predicate Binds(card: Card, resourceId: string) {
    card.payTo.Some? && EqHex(card.payTo.value, resourceId)
  }

  // The on-chain owner, else the existing record's creator, else the claimed one.
  function BoundCreator(owner: Option<string>, existing: Option<string>, claimed: Option<string>): Option<string> {
    if owner.Some? then owner else if existing.Some? then existing else claimed
  }

  function CreatorOf(records: map<string, IndexRecord>, id: string): Option<string> {
    if id in records then records[id].creator else None
  }

  function RecordFor(req: Request, card: Card, agentId: nat, bond: nat, creator: Option<string>): IndexRecord {
    IndexRecord(req.resourceId, creator, Decimal(agentId), req.slug.GetOr(CardSlug(card)), req.category,
                ProjectPricing(card), req.reputation.GetOr(0), bond, req.cardUrl, true)
  }

  // ---------- What a record and a served card must show ----------

  // The value given, or the default for want of one.
  predicate IsOr<T(==)>(v: T, given: Option<T>, default: T) { given == Some(v) || (given.None? && v == default) }

  // The card's own prices; without a maximum of its own the maximum is the base price.
  predicate PricesOf(p: Pricing, c: CardPricing) {
    IsOr(p.mode, c.mode, "metered") && IsOr(p.base, c.base, "0") && IsOr(p.perKB, c.perKB, "0") && IsOr(p.max, c.max, p.base)
  }

  // The minted card, marked verified and with the bond that is posted.
  predicate Serves(card: Card, minted: Card, bond: nat) {
    && card.verified == Some(true)
    && card.bond.Some? && (card.bond.value.posted <==> 0 < bond) && card.bond.value.amount == Decimal(bond)
    && card.name == minted.name && card.payTo == minted.payTo && card.pricing == minted.pricing && card.rest == minted.rest
  }

  // The record of a listing: what the request, the card, the mint and the bond read say, and active.
  predicate Describes(r: IndexRecord, req: Request, card: Card, agentId: nat, bond: nat) {
    && r.resourceId == req.resourceId && r.category == req.category && r.cardUrl == req.cardUrl
    && IsOr(r.reputation, req.reputation, 0)
    && (req.slug.Some? ==> r.slug == req.slug.value)
    && (req.slug.None? && card.name.Some? && card.name.value != "" ==> r.slug == card.name.value)
    && (req.slug.None? && (card.name.None? || card.name.value == "") ==> r.slug == "resource")
    && PricesOf(r.pricing, card.pricing)
    && r.agentId == Decimal(agentId) && r.bond == bond && r.active
  }

  // The owner where it was resolved, else the creator already recorded, else the one claimed.
  predicate Owns(creator: Option<string>, owner: Option<string>, existing: Option<string>, claimed: Option<string>) {
    && (owner.Some? ==> creator == owner)
    && (owner.None? && existing.Some? ==> creator == existing)
    && (owner.None? && existing.None? ==> creator == claimed)
  }

  // ---------- The stores ----------

  class InMemoryIndexStore {
    var records: map<string, IndexRecord>

    constructor ()
      ensures records == map[]
    {
      records := map[];
    }

    method Upsert(record: IndexRecord)
      modifies this
      ensures records == old(records)[record.resourceId := record]
    {
      records := records[record.resourceId := record];
    }

    method Get(id: string) returns (r: Option<IndexRecord>)
      ensures r == if id in records then Some(records[id]) else None
    {
      if id in records {
        return Some(records[id]);
      }
      return None;
    }

    // Idempotent, and nothing for an unknown resource; every other field and record stays.
    method Delist(id: string)
      modifies this
      ensures records.Keys == old(records.Keys)
      ensures forall k | k in records ::
                records[k] == if k == id then old(records)[k].(active := false) else old(records)[k]
    {
      if id in records {
        records := records[id := records[id].(active := false)];
      }
    }
  }

  class InMemoryCardStore {
    var cards: map<string, Card>

    constructor ()
      ensures cards == map[]
    {
      cards := map[];
    }

    method Put(id: string, card: Card)
      modifies this
      ensures cards == old(cards)[id := card]
    {
      cards := cards[id := card];
    }
  }

  // ---------- One publish ----------

  datatype Decision = Allow | Review | Block

  datatype Mint = Mint(agentId: nat, card: Card)

  // How everything outside the pipeline answers; None and false are operations that throw. A failed
  // owner read is an owner of None.
  datatype World = World(
    decision: Option<Decision>,
    bonded: bool,
    probe: Option<bool>,
    minted: Option<Mint>,
    bond: Option<nat>,
    owner: Option<string>,
    indexReads: bool,
    cardWrites: bool,
    indexWrites: bool)

  datatype Gate = Moderation | BondGate | Probe | Minting | BondRead | CardCheck | PayToBinding
                | IndexRead | CardPut | IndexUpsert

  // The order of the gates and of the listing step.
  function Rank(g: Gate): nat {
    match g
    case Moderation => 0
    case BondGate => 1
    case Probe => 2
    case Minting => 3
    case BondRead => 4
    case CardCheck => 5
    case PayToBinding => 6
    case IndexRead => 7
    case CardPut => 8
    case IndexUpsert => 9
  }

  predicate Passes(valid: Card -> bool, req: Request, w: World, g: Gate) {
    match g
    case Moderation => w.decision == Some(Allow)
    case BondGate => w.bonded
    case Probe => w.probe == Some(true)
    case Minting => w.minted.Some?
    case BondRead => w.bond.Some?
    case CardCheck => w.minted.Some? && w.bond.Some? && valid(Finalize(w.minted.value.card, w.bond.value))
    case PayToBinding => w.minted.Some? && w.bond.Some? && Binds(Finalize(w.minted.value.card, w.bond.value), req.resourceId)
    case IndexRead => w.indexReads
    case CardPut => w.cardWrites
    case IndexUpsert => w.indexWrites
  }

  class PublishPipeline {
    const valid: Card -> bool
    const index: InMemoryIndexStore
    const cards: InMemoryCardStore

    constructor (valid: Card -> bool, index: InMemoryIndexStore, cards: InMemoryCardStore)
      ensures this.valid == valid && this.index == index && this.cards == cards
    {
      this.valid, this.index, this.cards := valid, index, cards;
    }

    // The gates run in their order and stop at the first that fails; the stores change only past all
    // of them, the card first and then the record.
    method PublishResource(req: Request, w: World) returns (listed: bool, last: Gate)
      modifies index, cards
      ensures forall g | Rank(g) < Rank(last) :: Passes(valid, req, w, g)
      ensures if listed then last == IndexUpsert && Passes(valid, req, w, last) else !Passes(valid, req, w, last)
      ensures if last == IndexUpsert
              then w.minted.Some? && w.bond.Some? && req.resourceId in cards.cards
                   && cards.cards == old(cards.cards)[req.resourceId := cards.cards[req.resourceId]]
                   && Serves(cards.cards[req.resourceId], w.minted.value.card, w.bond.value)
              else cards.cards == old(cards.cards)
      ensures if listed
              then w.minted.Some? && w.bond.Some? && req.resourceId in cards.cards && req.resourceId in index.records
                   && index.records == old(index.records)[req.resourceId := index.records[req.resourceId]]
                   && Describes(index.records[req.resourceId], req, cards.cards[req.resourceId], w.minted.value.agentId, w.bond.value)
                   && Owns(index.records[req.resourceId].creator, w.owner, CreatorOf(old(index.records), req.resourceId), req.creator)
              else index.records == old(index.records)
    {
      hide Decimal, Lower, Finalize, Binds, RecordFor, Serves, Describes;
      if w.decision != Some(Allow) {
        return false, Moderation;
      }
      if !w.bonded {
        return false, BondGate;
      }
      if w.probe != Some(true) {
        return false, Probe;
      }
      if w.minted.None? {
        return false, Minting;
      }
      if w.bond.None? {
        return false, BondRead;
      }
      var minted, bond := w.minted.value, w.bond.value;
      var finalized := Finalize(minted.card, bond);
      FinalizedServes(minted.card, bond);
      if !valid(finalized) {
        return false, CardCheck;
      }
      if !Binds(finalized, req.resourceId) {
        return false, PayToBinding;
      }
      if !w.indexReads {
        return false, IndexRead;
      }
      var existing := index.Get(req.resourceId);
      var creator := BoundCreator(w.owner, if existing.Some? then existing.value.creator else None, req.creator);
      if !w.cardWrites {
        return false, CardPut;
      }
      cards.Put(req.resourceId, finalized);
      if !w.indexWrites {
        return false, IndexUpsert;
      }
      RecordKey(req, finalized, minted.agentId, bond, creator);
      index.Upsert(RecordFor(req, finalized, minted.agentId, bond, creator));
      return true, IndexUpsert;
    }
  }

  lemma RecordKey(req: Request, card: Card, agentId: nat, bond: nat, creator: Option<string>)
    ensures var r := RecordFor(req, card, agentId, bond, creator);
            r.resourceId == req.resourceId && r.creator == creator && r.bond == bond
            && PricesOf(r.pricing, card.pricing) && Describes(r, req, card, agentId, bond)
  {
    hide Decimal;
  }

  lemma FinalizedServes(card: Card, bond: nat)
    ensures Serves(Finalize(card, bond), card, bond)
  {
    hide Decimal;
  }

  // ---------- Any interleaving of publishes ----------

  // A publish past its gates: it reads the index, puts the card, upserts the record.
  datatype Stage = Gated | Read(seen: Option<string>) | CardStored(seen: Option<string>) | Listed(seen: Option<string>)

  datatype Session = Session(req: Request, card: Card, agentId: nat, bond: nat, owner: Option<string>, stage: Stage)

  // A record that was upserted: what the owner read gave, and the claimed creator.
  datatype Listing = Listing(resourceId: string, owner: Option<string>, claimed: Option<string>)

  datatype Sys = Sys(
    records: map<string, IndexRecord>,
    cards: map<string, Card>,
    sessions: map<nat, Session>,
    writer: map<string, nat>,
    putter: map<string, nat>,
    log: seq<Listing>)

  const START: Sys := Sys(map[], map[], map[], map[], map[], [])

  datatype Step =
    | Begin(i: nat, req: Request, w: World)
    | ReadIndex(i: nat)
    | PutCard(i: nat)
    | Upsert(i: nat)
    | Delist(id: string)

  ghost predicate Admitted(valid: Card -> bool, req: Request, w: World) {
    forall g | Rank(g) < Rank(IndexRead) :: Passes(valid, req, w, g)
  }

  lemma AdmittedCard(valid: Card -> bool, req: Request, w: World)
    requires Admitted(valid, req, w)
    ensures w.minted.Some? && w.bond.Some?
    ensures var c := Finalize(w.minted.value.card, w.bond.value); valid(c) && Binds(c, req.resourceId)
  {
    assert Passes(valid, req, w, Minting) && Passes(valid, req, w, BondRead);
    assert Passes(valid, req, w, CardCheck) && Passes(valid, req, w, PayToBinding);
  }

  // The owner read answers null or the resource's one on-chain owner.
  function Owner(own: string -> string, req: Request, w: World): Option<string> {
    if w.owner.Some? then Some(own(req.resourceId)) else None
  }

  function Opened(own: string -> string, req: Request, w: World): Session
    requires w.minted.Some? && w.bond.Some?
  {
    Session(req, Finalize(w.minted.value.card, w.bond.value), w.minted.value.agentId, w.bond.value, Owner(own, req, w), Gated)
  }

  function Bound(x: Session): Option<string>
    requires !x.stage.Gated?
  {
    BoundCreator(x.owner, x.stage.seen, x.req.creator)
  }

  ghost function Next(valid: Card -> bool, own: string -> string, s: Sys, step: Step): Sys {
    match step
    case Begin(i, req, w) =>
      if i in s.sessions || !Admitted(valid, req, w) || w.minted.None? || w.bond.None? then s
      else s.(sessions := s.sessions[i := Opened(own, req, w)])
    case ReadIndex(i) =>
      if i !in s.sessions || !s.sessions[i].stage.Gated? then s
      else
        var x := s.sessions[i];
        s.(sessions := s.sessions[i := x.(stage := Read(CreatorOf(s.records, x.req.resourceId)))])
    case PutCard(i) =>
      if i !in s.sessions || !s.sessions[i].stage.Read? then s
      else
        var x := s.sessions[i];
        s.(sessions := s.sessions[i := x.(stage := CardStored(x.stage.seen))],
           cards := s.cards[x.req.resourceId := x.card],
           putter := s.putter[x.req.resourceId := i])
    case Upsert(i) => if Upserting(s, i) then UpsertStep(s, i) else s
    case Delist(id) =>
      if id !in s.records then s else s.(records := s.records[id := s.records[id].(active := false)])
  }

  predicate Upserting(s: Sys, i: nat) {
    i in s.sessions && s.sessions[i].stage.CardStored?
  }

  function UpsertStep(s: Sys, i: nat): Sys
    requires Upserting(s, i)
  {
    var x := s.sessions[i];
    var id := x.req.resourceId;
    s.(records := s.records[id := RecordFor(x.req, x.card, x.agentId, x.bond, Bound(x))],
       sessions := s.sessions[i := x.(stage := Listed(x.stage.seen))],
       writer := s.writer[id := i],
       log := s.log + [Listing(id, x.owner, x.req.creator)])
  }

  ghost function Run(valid: Card -> bool, own: string -> string, steps: seq<Step>): Sys {
    if steps == [] then START
    else Next(valid, own, Run(valid, own, steps[..|steps| - 1]), steps[|steps| - 1])
  }

  // ---------- What is listed ----------

  ghost predicate CardOk(valid: Card -> bool, card: Card, id: string) {
    valid(card) && Binds(card, id)
  }

  // What the index shows of a resource is what its card says.
  predicate Mirrors(r: IndexRecord, card: Card) {
    && PricesOf(r.pricing, card.pricing)
    && card.bond == Some(PostedBond(r.bond > 0, Decimal(r.bond)))
    && card.verified == Some(true)
  }

  ghost predicate StoresOk(valid: Card -> bool, own: string -> string, s: Sys) {
    && (forall id | id in s.cards :: CardOk(valid, s.cards[id], id))
    && (forall id | id in s.records :: id in s.cards && s.records[id].resourceId == id)
    && (forall i | i in s.sessions :: SessionOk(valid, own, s.sessions[i]))
    && (forall i | i in s.sessions && Stored(s.sessions[i]) :: s.sessions[i].req.resourceId in s.cards)
  }

  ghost predicate SessionOk(valid: Card -> bool, own: string -> string, x: Session) {
    && CardOk(valid, x.card, x.req.resourceId)
    && x.card == Finalize(x.card, x.bond)
    && (x.owner.Some? ==> x.owner.value == own(x.req.resourceId))
  }

  predicate Stored(x: Session) { x.stage.CardStored? || x.stage.Listed? }

  // Who last put each card, and who last wrote each record.
  ghost predicate PuttersOk(s: Sys) {
    && s.putter.Keys == s.cards.Keys
    && (forall id | id in s.putter :: s.putter[id] in s.sessions && Put(s.cards[id], s.sessions[s.putter[id]]))
  }

  ghost predicate WritersOk(s: Sys) {
    && s.writer.Keys == s.records.Keys
    && (forall id | id in s.writer :: s.writer[id] in s.sessions && Shows(s.records[id], s.sessions[s.writer[id]]))
  }

  predicate Put(card: Card, x: Session) { Stored(x) && card == x.card }

  predicate Shows(r: IndexRecord, x: Session) {
    !x.stage.Gated? && PricesOf(r.pricing, x.card.pricing) && r.bond == x.bond
  }

  lemma BeginKeepsStores(valid: Card -> bool, own: string -> string, s: Sys, i: nat, req: Request, w: World)
    requires StoresOk(valid, own, s)
    ensures StoresOk(valid, own, Next(valid, own, s, Begin(i, req, w)))
  {
    hide Decimal, Lower, CardOk, Admitted, SessionOk, Opened;
    if i !in s.sessions && Admitted(valid, req, w) && w.minted.Some? && w.bond.Some? {
      OpenedOk(valid, own, req, w);
    }
  }

  lemma OpenedOk(valid: Card -> bool, own: string -> string, req: Request, w: World)
    requires Admitted(valid, req, w) && w.minted.Some? && w.bond.Some?
    ensures SessionOk(valid, own, Opened(own, req, w)) && Opened(own, req, w).stage.Gated?
  {
    AdmittedCard(valid, req, w);
  }

  lemma StepKeepsStores(valid: Card -> bool, own: string -> string, s: Sys, step: Step)
    requires StoresOk(valid, own, s) && !step.Begin?
    ensures StoresOk(valid, own, Next(valid, own, s, step))
  {
    hide Decimal, Lower, CardOk, Bound, RecordFor, CreatorOf, SessionOk;
    if step.Upsert? && Upserting(s, step.i) {
      var x := s.sessions[step.i];
      RecordKey(x.req, x.card, x.agentId, x.bond, Bound(x));
    }
    if (step.ReadIndex? || step.PutCard? || step.Upsert?) && step.i in s.sessions {
      SameSession(valid, own, s.sessions[step.i]);
    }
  }

  lemma SameSession(valid: Card -> bool, own: string -> string, x: Session)
    requires SessionOk(valid, own, x)
    ensures forall stage :: SessionOk(valid, own, x.(stage := stage))
    ensures CardOk(valid, x.card, x.req.resourceId)
  {
  }

  lemma StepKeepsPutters(valid: Card -> bool, own: string -> string, s: Sys, step: Step)
    requires PuttersOk(s)
    ensures PuttersOk(Next(valid, own, s, step))
  {
    hide Decimal, Lower, ProjectPricing, Admitted, Bound, RecordFor, CreatorOf, Opened;
  }

  lemma StepKeepsWriters(valid: Card -> bool, own: string -> string, s: Sys, step: Step)
    requires WritersOk(s)
    ensures WritersOk(Next(valid, own, s, step))
  {
    hide Decimal, Lower, ProjectPricing, Admitted, Bound, RecordFor, CreatorOf, Opened;
    if step.Upsert? && Upserting(s, step.i) {
      var x := s.sessions[step.i];
      RecordKey(x.req, x.card, x.agentId, x.bond, Bound(x));
    }
  }

  ghost predicate Inv(valid: Card -> bool, own: string -> string, s: Sys) {
    StoresOk(valid, own, s) && PuttersOk(s) && WritersOk(s)
  }

  lemma {:induction false} RunKeeps(valid: Card -> bool, own: string -> string, steps: seq<Step>)
    ensures Inv(valid, own, Run(valid, own, steps))
  {
    if steps != [] {
      hide StoresOk, PuttersOk, WritersOk, Next;
      var s, step := Run(valid, own, steps[..|steps| - 1]), steps[|steps| - 1];
      RunKeeps(valid, own, steps[..|steps| - 1]);
      if step.Begin? {
        BeginKeepsStores(valid, own, s, step.i, step.req, step.w);
      } else {
        StepKeepsStores(valid, own, s, step);
      }
      StepKeepsPutters(valid, own, s, step);
      StepKeepsWriters(valid, own, s, step);
    }
  }

  lemma FinalizedMirrors(valid: Card -> bool, own: string -> string, r: IndexRecord, card: Card, x: Session)
    requires SessionOk(valid, own, x) && Put(card, x) && Shows(r, x)
    ensures Mirrors(r, card)
  {
    hide Decimal, Lower, ProjectPricing, CardOk;
  }

  // Whatever interleaves or aborts, a listed resource has a stored card that validates, whose payTo
  // is the resource itself; and the record mirrors that card when one publish wrote both.
  lemma ListedHasItsCard(valid: Card -> bool, own: string -> string, steps: seq<Step>, id: string)
    requires id in Run(valid, own, steps).records
    ensures var s := Run(valid, own, steps);
            && s.records[id].resourceId == id
            && id in s.cards && valid(s.cards[id])
            && s.cards[id].payTo.Some? && EqHex(s.cards[id].payTo.value, id)
            && id in s.writer && id in s.putter
            && (s.writer[id] == s.putter[id] ==> Mirrors(s.records[id], s.cards[id]))
  {
    hide Run, EqHex, SessionOk, Mirrors, Put, Shows;
    RunKeeps(valid, own, steps);
    var s := Run(valid, own, steps);
    assert CardOk(valid, s.cards[id], id);
    if s.writer[id] == s.putter[id] {
      FinalizedMirrors(valid, own, s.records[id], s.cards[id], s.sessions[s.putter[id]]);
    }
  }

  // Two listings collect for one resource exactly when their ids differ in case alone.
  lemma OneListingPerSpelling(valid: Card -> bool, own: string -> string, steps: seq<Step>, a: string, b: string)
    requires var s := Run(valid, own, steps); a in s.records && b in s.records
    ensures var s := Run(valid, own, steps);
            && a in s.cards && b in s.cards && s.cards[a].payTo.Some? && s.cards[b].payTo.Some?
            && (EqHex(s.cards[a].payTo.value, s.cards[b].payTo.value) <==> EqHex(a, b))
  {
    ListedHasItsCard(valid, own, steps, a);
    ListedHasItsCard(valid, own, steps, b);
  }

  // ---------- What is active ----------

  // Step b lists this resource.
  ghost predicate ListsAt(valid: Card -> bool, own: string -> string, steps: seq<Step>, b: int, id: string) {
    && 0 <= b < |steps| && steps[b].Upsert?
    && var s := Run(valid, own, steps[..b]); Upserting(s, steps[b].i) && s.sessions[steps[b].i].req.resourceId == id
  }

  // And no step since takes it off.
  ghost predicate ListedSince(valid: Card -> bool, own: string -> string, steps: seq<Step>, b: int, id: string) {
    ListsAt(valid, own, steps, b, id) && forall k | b < k < |steps| :: steps[k] != Delist(id)
  }

  lemma ListedLonger(valid: Card -> bool, own: string -> string, front: seq<Step>, step: Step, b: int, id: string)
    requires b < |front|
    ensures ListedSince(valid, own, front + [step], b, id) <==> ListedSince(valid, own, front, b, id) && step != Delist(id)
  {
    hide Run, Upserting;
    var steps := front + [step];
    if 0 <= b {
      assert steps[..b] == front[..b] && steps[b] == front[b];
    }
    assert forall k | 0 <= k < |front| :: steps[k] == front[k];
    assert steps[|front|] == step;
  }

  // A record is active if and only if some publish listed it and nothing has taken it off since.
  lemma {:induction false} ActiveExactly(valid: Card -> bool, own: string -> string, steps: seq<Step>, id: string)
    ensures var s := Run(valid, own, steps);
            (id in s.records && s.records[id].active) <==> exists b :: ListedSince(valid, own, steps, b, id)
  {
    hide ListedSince, Admitted;
    if steps == [] {
      forall b ensures !ListedSince(valid, own, steps, b, id) {
        ListedWithin(valid, own, steps, b, id);
      }
    } else {
      var n := |steps| - 1;
      var front, step := steps[..n], steps[n];
      assert steps == front + [step];
      ActiveExactly(valid, own, front, id);
      ActiveNext(valid, own, front, step, id);
      forall b ensures b != n ==> (ListedSince(valid, own, steps, b, id)
                                   <==> ListedSince(valid, own, front, b, id) && step != Delist(id)) {
        ListedWithin(valid, own, steps, b, id);
        ListedWithin(valid, own, front, b, id);
        if b < n {
          ListedLonger(valid, own, front, step, b, id);
        }
      }
      ListedWithin(valid, own, front, n, id);
    }
  }

  lemma ListedWithin(valid: Card -> bool, own: string -> string, steps: seq<Step>, b: int, id: string)
    ensures ListedSince(valid, own, steps, b, id) ==> 0 <= b < |steps|
  {
  }

  lemma ActiveNext(valid: Card -> bool, own: string -> string, front: seq<Step>, step: Step, id: string)
    ensures var steps, n := front + [step], |front|; var s, t := Run(valid, own, front), Run(valid, own, steps);
            (id in t.records && t.records[id].active)
            == (ListedSince(valid, own, steps, n, id) || (id in s.records && s.records[id].active && step != Delist(id)))
  {
    hide Run, Admitted, Decimal, Bound, Describes, PricesOf;
    RunSnoc(valid, own, front, step);
    assert (front + [step])[..|front|] == front;
    var s := Run(valid, own, front);
    if step.Upsert? && Upserting(s, step.i) {
      var x := s.sessions[step.i];
      RecordIsActive(x.req, x.card, x.agentId, x.bond, Bound(x));
    }
  }

  lemma RecordIsActive(req: Request, card: Card, agentId: nat, bond: nat, creator: Option<string>)
    ensures RecordFor(req, card, agentId, bond, creator).active
  {
  }

  // ---------- Who owns a listing ----------

  predicate Resolves(log: seq<Listing>, id: string, k: int) {
    0 <= k < |log| && log[k].resourceId == id && log[k].owner.Some?
  }

  predicate Claims(log: seq<Listing>, id: string, k: int) {
    0 <= k < |log| && log[k].resourceId == id && log[k].claimed.Some?
  }

  // The owner once it has been resolved at a listing; until then the first creator claimed.
  ghost predicate Rightful(own: string -> string, log: seq<Listing>, id: string, creator: Option<string>) {
    && ((exists k :: Resolves(log, id, k)) ==> creator == Some(own(id)))
    && ((forall k :: !Resolves(log, id, k)) ==>
          && (forall k | Claims(log, id, k) && (forall j | 0 <= j < k :: !Claims(log, id, j)) :: creator == log[k].claimed)
          && ((forall k :: !Claims(log, id, k)) ==> creator == None))
  }

  // An upsert is stale when it binds what it read before another publish gave the resource its
  // creator, and no owner was resolved to put it right.
  predicate Stale(s: Sys, i: nat)
    requires Upserting(s, i)
  {
    var x := s.sessions[i];
    var now := CreatorOf(s.records, x.req.resourceId);
    x.owner.None? && x.stage.seen != now && !(x.stage.seen.None? && x.req.creator == now)
  }

  // No upsert of the run is stale.
  ghost predicate NoneStale(valid: Card -> bool, own: string -> string, steps: seq<Step>) {
    steps == [] ||
    (var s, step := Run(valid, own, steps[..|steps| - 1]), steps[|steps| - 1];
     && NoneStale(valid, own, steps[..|steps| - 1])
     && (step.Upsert? && Upserting(s, step.i) ==> !Stale(s, step.i)))
  }

  lemma RightfulUnique(own: string -> string, log: seq<Listing>, id: string, a: Option<string>, b: Option<string>)
    requires Rightful(own, log, id, a) && Rightful(own, log, id, b)
    ensures a == b
  {
    if k :| Claims(log, id, k) {
      var f := FirstClaim(log, id, k);
    }
  }

  lemma {:induction false} FirstClaim(log: seq<Listing>, id: string, k: int) returns (f: int)
    requires Claims(log, id, k)
    ensures Claims(log, id, f) && forall j | 0 <= j < f :: !Claims(log, id, j)
    decreases k
  {
    f := k;
    if j :| 0 <= j < k && Claims(log, id, j) {
      f := FirstClaim(log, id, j);
    }
  }

  // One more listing of the resource.
  lemma RightfulNext(own: string -> string, log: seq<Listing>, x: Listing, creator: Option<string>)
    requires Rightful(own, log, x.resourceId, creator)
    requires x.owner.Some? ==> x.owner.value == own(x.resourceId)
    ensures Rightful(own, log + [x], x.resourceId, BoundCreator(x.owner, creator, x.claimed))
  {
    var id, more := x.resourceId, log + [x];
    OnLog(log, x, id, |log|);
    if x.owner.Some? {
      assert Resolves(more, id, |log|);
    } else {
      hide Resolves, Claims;
      forall k ensures Resolves(more, id, k) <==> Resolves(log, id, k) {
        OnLog(log, x, id, k);
      }
      if forall k :: !Resolves(log, id, k) {
        ClaimedNext(own, log, x, creator);
      }
    }
  }

  lemma ClaimedNext(own: string -> string, log: seq<Listing>, x: Listing, creator: Option<string>)
    requires Rightful(own, log, x.resourceId, creator)
    requires x.owner.None? && forall k :: !Resolves(log + [x], x.resourceId, k) && !Resolves(log, x.resourceId, k)
    ensures Rightful(own, log + [x], x.resourceId, BoundCreator(x.owner, creator, x.claimed))
  {
    hide Resolves, Claims;
    var id, more := x.resourceId, log + [x];
    var bound := BoundCreator(x.owner, creator, x.claimed);
    OnLog(log, x, id, |log|);
    forall k ensures k != |log| ==> (Claims(more, id, k) <==> Claims(log, id, k)) {
      OnLog(log, x, id, k);
    }
    if m :| Claims(log, id, m) {
      var f := FirstClaim(log, id, m);
      OnLog(log, x, id, f);
      forall k | Claims(more, id, k) && forall j | 0 <= j < k :: !Claims(more, id, j)
        ensures 0 <= k < |more| && bound == more[k].claimed
      {
        ClaimAt(more, id, k);
        ClaimAt(log, id, f);
        assert k == f;
      }
    } else {
      forall k | Claims(more, id, k) ensures k == |log| {
      }
    }
  }

  lemma ClaimAt(log: seq<Listing>, id: string, k: int)
    requires Claims(log, id, k)
    ensures 0 <= k < |log| && log[k].claimed.Some?
  {
  }

  // What a longer log says of the old entries and of the new one.
  lemma OnLog(log: seq<Listing>, x: Listing, id: string, k: int)
    ensures k != |log| ==> (Resolves(log + [x], id, k) <==> Resolves(log, id, k))
    ensures k != |log| ==> (Claims(log + [x], id, k) <==> Claims(log, id, k))
    ensures Claims(log, id, k) ==> 0 <= k < |log| && (log + [x])[k] == log[k]
    ensures !Resolves(log, id, |log|) && !Claims(log, id, |log|)
    ensures Resolves(log + [x], id, |log|) <==> x.resourceId == id && x.owner.Some?
    ensures Claims(log + [x], id, |log|) <==> x.resourceId == id && x.claimed.Some?
  {
  }

  lemma RightfulElsewhere(own: string -> string, log: seq<Listing>, x: Listing, id: string, creator: Option<string>)
    requires Rightful(own, log, id, creator) && x.resourceId != id
    ensures Rightful(own, log + [x], id, creator)
  {
    hide Resolves, Claims;
    OnLog(log, x, id, |log|);
    forall k ensures Resolves(log + [x], id, k) <==> Resolves(log, id, k) {
      OnLog(log, x, id, k);
    }
    forall k ensures Claims(log + [x], id, k) <==> Claims(log, id, k)
             ensures Claims(log, id, k) ==> 0 <= k < |log| && (log + [x])[k] == log[k]
    {
      OnLog(log, x, id, k);
    }
  }

  // Every resource has its rightful creator, and a publish that saw one still finds one.
  ghost predicate OwnersOk(own: string -> string, s: Sys) {
    && (forall id :: Rightful(own, s.log, id, CreatorOf(s.records, id)))
    && (forall i | i in s.sessions && !s.sessions[i].stage.Gated? && s.sessions[i].stage.seen.Some? ::
          CreatorOf(s.records, s.sessions[i].req.resourceId).Some?)
  }

  // An upsert leaves its resource with the rightful creator if and only if it is not stale.
  lemma UpsertExactly(valid: Card -> bool, own: string -> string, s: Sys, i: nat)
    requires OwnersOk(own, s) && StoresOk(valid, own, s) && Upserting(s, i)
    ensures var id := s.sessions[i].req.resourceId; var t := UpsertStep(s, i);
            Rightful(own, t.log, id, CreatorOf(t.records, id)) <==> !Stale(s, i)
  {
    hide StoresOk, SessionOk, Rightful, RecordFor;
    var x, t := s.sessions[i], UpsertStep(s, i);
    var id := x.req.resourceId;
    var now := CreatorOf(s.records, id);
    OwnerFixed(valid, own, s, i);
    RightfulNext(own, s.log, Listing(id, x.owner, x.req.creator), now);
    assert CreatorOf(t.records, id) == Bound(x) by {
      RecordKey(x.req, x.card, x.agentId, x.bond, Bound(x));
    }
    if Rightful(own, t.log, id, Bound(x)) {
      RightfulUnique(own, t.log, id, Bound(x), BoundCreator(x.owner, now, x.req.creator));
    }
  }

  lemma OwnerFixed(valid: Card -> bool, own: string -> string, s: Sys, i: nat)
    requires StoresOk(valid, own, s) && i in s.sessions
    ensures s.sessions[i].owner.Some? ==> s.sessions[i].owner.value == own(s.sessions[i].req.resourceId)
  {
    assert SessionOk(valid, own, s.sessions[i]);
  }

  lemma UpsertKeepsOwners(valid: Card -> bool, own: string -> string, s: Sys, i: nat)
    requires OwnersOk(own, s) && StoresOk(valid, own, s) && Upserting(s, i) && !Stale(s, i)
    ensures OwnersOk(own, UpsertStep(s, i))
  {
    hide StoresOk, Rightful, RecordFor, Stale;
    var x, t := s.sessions[i], UpsertStep(s, i);
    UpsertExactly(valid, own, s, i);
    RecordKey(x.req, x.card, x.agentId, x.bond, Bound(x));
    forall id ensures Rightful(own, t.log, id, CreatorOf(t.records, id)) {
      if id != x.req.resourceId {
        RightfulElsewhere(own, s.log, Listing(x.req.resourceId, x.owner, x.req.creator), id, CreatorOf(s.records, id));
      }
    }
    CreatorStays(s, i);
  }

  lemma CreatorStays(s: Sys, i: nat)
    requires Upserting(s, i) && !Stale(s, i)
    ensures var id := s.sessions[i].req.resourceId;
            CreatorOf(s.records, id).Some? ==> Bound(s.sessions[i]).Some?
  {
  }

  lemma {:induction false} OwnersKept(valid: Card -> bool, own: string -> string, steps: seq<Step>)
    requires NoneStale(valid, own, steps)
    ensures OwnersOk(own, Run(valid, own, steps))
  {
    hide StoresOk, PuttersOk, WritersOk, Rightful, Stale, UpsertStep, Admitted;
    if steps == [] {
      NobodyYet(own);
    } else {
      var s, step := Run(valid, own, steps[..|steps| - 1]), steps[|steps| - 1];
      OwnersKept(valid, own, steps[..|steps| - 1]);
      RunKeeps(valid, own, steps[..|steps| - 1]);
      if step.Upsert? {
        if Upserting(s, step.i) {
          UpsertKeepsOwners(valid, own, s, step.i);
        }
      } else {
        OthersKeepOwners(valid, own, s, step);
      }
    }
  }

  lemma OthersKeepOwners(valid: Card -> bool, own: string -> string, s: Sys, step: Step)
    requires OwnersOk(own, s) && !step.Upsert?
    ensures OwnersOk(own, Next(valid, own, s, step))
  {
    hide Rightful, Admitted, Finalize;
    var t := Next(valid, own, s, step);
    assert t.log == s.log;
    forall id ensures CreatorOf(t.records, id) == CreatorOf(s.records, id) {
    }
  }

  lemma NobodyYet(own: string -> string)
    ensures OwnersOk(own, START)
  {
    forall id ensures Rightful(own, [], id, None) {
    }
  }

  ghost predicate AllRightful(own: string -> string, s: Sys) {
    forall id :: Rightful(own, s.log, id, CreatorOf(s.records, id))
  }

  // After every step of the run each resource has its rightful creator.
  ghost predicate AlwaysRightful(valid: Card -> bool, own: string -> string, steps: seq<Step>) {
    AllRightful(own, Run(valid, own, steps)) && (steps == [] || AlwaysRightful(valid, own, steps[..|steps| - 1]))
  }

  // A run keeps every resource with its rightful creator if and only if none of its upserts is stale.
  lemma {:induction false} RightfulExactly(valid: Card -> bool, own: string -> string, steps: seq<Step>)
    ensures AlwaysRightful(valid, own, steps) <==> NoneStale(valid, own, steps)
  {
    hide Rightful, Stale, UpsertStep, StoresOk, PuttersOk, WritersOk, Admitted;
    if NoneStale(valid, own, steps) {
      OwnersKept(valid, own, steps);
    }
    if steps == [] {
      NobodyYet(own);
    } else {
      var front := steps[..|steps| - 1];
      RightfulExactly(valid, own, front);
      if NoneStale(valid, own, front) && !NoneStale(valid, own, steps) {
        OwnersKept(valid, own, front);
        RunKeeps(valid, own, front);
        var s, step := Run(valid, own, front), steps[|steps| - 1];
        UpsertExactly(valid, own, s, step.i);
        var t, id := UpsertStep(s, step.i), s.sessions[step.i].req.resourceId;
        assert Run(valid, own, steps) == t;
        assert !Rightful(own, t.log, id, CreatorOf(t.records, id));
      }
    }
  }

  // ---------- Publishes that do not overlap ----------

  // A step of the run begins publish i for this resource.
  ghost predicate Begun(steps: seq<Step>, i: nat, id: string) {
    exists k | 0 <= k < |steps| :: IsBegin(steps[k], i, id)
  }

  predicate IsBegin(step: Step, i: nat, id: string) { step.Begin? && step.i == i && step.req.resourceId == id }

  // Between one publish's read of the index and its upsert, another publish upserts.
  predicate Overtakes(steps: seq<Step>, a: int, b: int, c: int) {
    && 0 <= a < b < c < |steps|
    && steps[a].ReadIndex? && steps[b].Upsert? && steps[c].Upsert?
    && steps[a].i == steps[c].i && steps[a].i != steps[b].i
  }

  // No publish is overtaken by another of the same resource: so it is when publishes of one resource
  // run one after the other.
  ghost predicate Apart(steps: seq<Step>) {
    forall a, b, c, id | Overtakes(steps, a, b, c) && Begun(steps, steps[a].i, id) :: !Begun(steps, steps[b].i, id)
  }

  ghost predicate Overtaken(steps: seq<Step>, i: nat) {
    exists a, b, id | 0 <= a < b < |steps| ::
      steps[a] == ReadIndex(i) && steps[b].Upsert? && steps[b].i != i && Begun(steps, i, id) && Begun(steps, steps[b].i, id)
  }

  lemma BegunLonger(steps: seq<Step>, step: Step, i: nat, id: string)
    requires Begun(steps, i, id)
    ensures Begun(steps + [step], i, id)
  {
    var k :| 0 <= k < |steps| && IsBegin(steps[k], i, id);
    assert IsBegin((steps + [step])[k], i, id);
  }

  lemma OvertakenLonger(steps: seq<Step>, step: Step, i: nat)
    requires Overtaken(steps, i)
    ensures Overtaken(steps + [step], i)
  {
    hide Begun;
    var more := steps + [step];
    var a, b, id :| 0 <= a < b < |steps| && steps[a] == ReadIndex(i) && steps[b].Upsert? && steps[b].i != i
                    && Begun(steps, i, id) && Begun(steps, steps[b].i, id);
    BegunLonger(steps, step, i, id);
    BegunLonger(steps, step, steps[b].i, id);
    assert more[a] == ReadIndex(i) && more[b] == steps[b];
  }

  lemma RunSnoc(valid: Card -> bool, own: string -> string, steps: seq<Step>, step: Step)
    ensures Run(valid, own, steps + [step]) == Next(valid, own, Run(valid, own, steps), step)
  {
    assert (steps + [step])[..|steps|] == steps;
  }

  // What a step makes of a publish that stays or comes to be under way.
  lemma SessionAfter(valid: Card -> bool, own: string -> string, s: Sys, step: Step, i: nat)
    requires i in Next(valid, own, s, step).sessions
    ensures var y := Next(valid, own, s, step).sessions[i];
            if i !in s.sessions then IsBegin(step, i, y.req.resourceId) && y.stage.Gated?
            else
              var x := s.sessions[i];
              && y.req == x.req
              && (x.stage.Gated? && !y.stage.Gated? ==>
                    step == ReadIndex(i) && y.stage == Read(CreatorOf(s.records, x.req.resourceId)))
              && (!x.stage.Gated? ==> !y.stage.Gated? && y.stage.seen == x.stage.seen)
              && (x.stage.Listed? || (step == Upsert(i) && x.stage.CardStored?) ==> y.stage.Listed?)
  {
    hide Admitted, Finalize, RecordFor, Bound;
  }

  lemma {:induction false} HasBegun(valid: Card -> bool, own: string -> string, steps: seq<Step>, i: nat)
    requires i in Run(valid, own, steps).sessions
    ensures Begun(steps, i, Run(valid, own, steps).sessions[i].req.resourceId)
    ensures !Run(valid, own, steps).sessions[i].stage.Gated? ==> exists a | 0 <= a < |steps| :: steps[a] == ReadIndex(i)
  {
    hide Next, Begun;
    if steps != [] {
      var n := |steps| - 1;
      var front, step := steps[..n], steps[n];
      assert steps == front + [step];
      var s := Run(valid, own, front);
      SessionAfter(valid, own, s, step, i);
      if i in s.sessions {
        HasBegun(valid, own, front, i);
        BegunLonger(front, step, i, s.sessions[i].req.resourceId);
        if !s.sessions[i].stage.Gated? {
          var a :| 0 <= a < |front| && front[a] == ReadIndex(i);
          assert steps[a] == ReadIndex(i);
        } else {
          assert step == ReadIndex(i) ==> steps[n] == ReadIndex(i);
        }
      } else {
        BeginsHere(steps, i, Run(valid, own, steps).sessions[i].req.resourceId);
      }
    }
  }

  lemma BeginsHere(steps: seq<Step>, i: nat, id: string)
    requires steps != [] && IsBegin(steps[|steps| - 1], i, id)
    ensures Begun(steps, i, id)
  {
  }

  // A step changes a resource's creator only by an upsert of a publish of that resource.
  lemma CreatorChanges(valid: Card -> bool, own: string -> string, s: Sys, step: Step, id: string)
    requires CreatorOf(Next(valid, own, s, step).records, id) != CreatorOf(s.records, id)
    ensures step.Upsert? && step.i in s.sessions && s.sessions[step.i].req.resourceId == id
    ensures s.sessions[step.i].stage.CardStored?
  {
    hide Admitted, Finalize, Bound;
  }

  // What a publish under way has read is still the creator, or it has been overtaken.
  lemma {:induction false} ReadsCurrent(valid: Card -> bool, own: string -> string, steps: seq<Step>, i: nat)
    requires var s := Run(valid, own, steps);
             i in s.sessions && (s.sessions[i].stage.Read? || s.sessions[i].stage.CardStored?)
    ensures var s := Run(valid, own, steps);
            s.sessions[i].stage.seen == CreatorOf(s.records, s.sessions[i].req.resourceId) || Overtaken(steps, i)
  {
    hide Next, CreatorOf, Overtaken;
    if steps != [] {
      var n := |steps| - 1;
      var front, step := steps[..n], steps[n];
      assert steps == front + [step];
      var s, t := Run(valid, own, front), Run(valid, own, steps);
      var id := t.sessions[i].req.resourceId;
      SessionAfter(valid, own, s, step, i);
      if s.sessions[i].stage.Gated? {
        ReadKeepsCreator(valid, own, s, i, id);
      } else {
        ReadsCurrent(valid, own, front, i);
        if Overtaken(front, i) {
          OvertakenLonger(front, step, i);
        } else if CreatorOf(t.records, id) != CreatorOf(s.records, id) {
          CreatorChanges(valid, own, s, step, id);
          assert step.i != i;
          HasBegun(valid, own, front, i);
          HasBegun(valid, own, front, step.i);
          OvertakesNow(front, step, i, id);
        }
      }
    }
  }

  lemma ReadKeepsCreator(valid: Card -> bool, own: string -> string, s: Sys, i: nat, id: string)
    ensures CreatorOf(Next(valid, own, s, ReadIndex(i)).records, id) == CreatorOf(s.records, id)
  {
  }

  lemma OvertakesNow(front: seq<Step>, step: Step, i: nat, id: string)
    requires step.Upsert? && step.i != i && Begun(front, i, id) && Begun(front, step.i, id)
    requires exists a | 0 <= a < |front| :: front[a] == ReadIndex(i)
    ensures Overtaken(front + [step], i)
  {
    hide Begun;
    var a :| 0 <= a < |front| && front[a] == ReadIndex(i);
    var more := front + [step];
    BegunLonger(front, step, i, id);
    BegunLonger(front, step, step.i, id);
    assert more[a] == ReadIndex(i) && more[|front|] == step;
  }

  lemma ApartFront(steps: seq<Step>, step: Step)
    requires Apart(steps + [step])
    ensures Apart(steps)
  {
    hide Begun;
    var more := steps + [step];
    forall a, b, c, id | Overtakes(steps, a, b, c) && Begun(steps, steps[a].i, id) ensures !Begun(steps, steps[b].i, id) {
      assert Overtakes(more, a, b, c);
      BegunLonger(steps, step, steps[a].i, id);
      if Begun(steps, steps[b].i, id) {
        BegunLonger(steps, step, steps[b].i, id);
      }
    }
  }

  lemma NotOvertaken(steps: seq<Step>, i: nat)
    requires Apart(steps + [Upsert(i)])
    ensures !Overtaken(steps, i)
  {
    hide Begun;
    var more := steps + [Upsert(i)];
    forall a, b, id | 0 <= a < b < |steps| && steps[a] == ReadIndex(i) && steps[b].Upsert? && steps[b].i != i && Begun(steps, i, id)
      ensures !Begun(steps, steps[b].i, id)
    {
      assert Overtakes(more, a, b, |steps|);
      BegunLonger(steps, Upsert(i), i, id);
      if Begun(steps, steps[b].i, id) {
        BegunLonger(steps, Upsert(i), steps[b].i, id);
      }
    }
  }

  lemma {:induction false} ApartIsNeverStale(valid: Card -> bool, own: string -> string, steps: seq<Step>)
    requires Apart(steps)
    ensures NoneStale(valid, own, steps)
  {
    hide Next, Apart, Overtaken, CreatorOf;
    if steps != [] {
      var front, step := steps[..|steps| - 1], steps[|steps| - 1];
      assert steps == front + [step];
      ApartFront(front, step);
      ApartIsNeverStale(valid, own, front);
      if step.Upsert? && Upserting(Run(valid, own, front), step.i) {
        ReadsCurrent(valid, own, front, step.i);
        NotOvertaken(front, step.i);
      }
    }
  }

  // When no publish is overtaken by another of the same resource, a listing belongs to the on-chain
  // owner for good once that has been resolved at a listing, and until then to the first creator
  // claimed.
  lemma CreatorIsRightful(valid: Card -> bool, own: string -> string, steps: seq<Step>, id: string, k: int)
    requires Apart(steps)
    ensures var s := Run(valid, own, steps);
            && (Resolves(s.log, id, k) ==> CreatorOf(s.records, id) == Some(own(id)))
            && (Claims(s.log, id, k) && (forall j :: !Resolves(s.log, id, j)) && (forall j | 0 <= j < k :: !Claims(s.log, id, j))
                ==> CreatorOf(s.records, id) == s.log[k].claimed)
  {
    hide Run, Next, Apart;
    ApartIsNeverStale(valid, own, steps);
    OwnersKept(valid, own, steps);
    assert Rightful(own, Run(valid, own, steps).log, id, CreatorOf(Run(valid, own, steps).records, id));
  }

  // ---------- Two spellings of one resource ----------

  // A publish that nothing interrupts lists its resource and takes nothing off.
  lemma ListsWhole(valid: Card -> bool, own: string -> string, steps: seq<Step>, i: nat, req: Request, w: World)
    returns (more: seq<Step>)
    requires Admitted(valid, req, w) && i !in Run(valid, own, steps).sessions
    ensures var s, t := Run(valid, own, steps), Run(valid, own, more);
            t.records.Keys == s.records.Keys + {req.resourceId} && t.sessions.Keys == s.sessions.Keys + {i}
  {
    hide Run, Admitted, RecordFor, Finalize, CreatorOf, Owner, Bound;
    AdmittedCard(valid, req, w);
    more := steps + [Begin(i, req, w)];
    RunSnoc(valid, own, steps, Begin(i, req, w));
    RunSnoc(valid, own, more, ReadIndex(i));
    more := more + [ReadIndex(i)];
    RunSnoc(valid, own, more, PutCard(i));
    more := more + [PutCard(i)];
    RunSnoc(valid, own, more, Upsert(i));
    more := more + [Upsert(i)];
  }

  // Any two admitted publishes whose ids differ in letter case alone are listed side by side, each
  // with a card that pays to the one resource both spell.
  lemma TwoSpellingsList(valid: Card -> bool, own: string -> string, req: Request, w: World, req': Request, w': World)
    returns (steps: seq<Step>)
    requires Admitted(valid, req, w) && Admitted(valid, req', w')
    requires req.resourceId != req'.resourceId && EqHex(req.resourceId, req'.resourceId)
    ensures var s := Run(valid, own, steps);
            var a, b := req.resourceId, req'.resourceId;
            && a in s.records && b in s.records && s.records.Keys == {a, b}
            && a in s.cards && b in s.cards && s.cards[a].payTo.Some? && s.cards[b].payTo.Some?
            && EqHex(s.cards[a].payTo.value, s.cards[b].payTo.value)
  {
    hide Run, EqHex, Admitted;
    RunOfNothing(valid, own);
    steps := ListsWhole(valid, own, [], 0, req, w);
    steps := ListsWhole(valid, own, steps, 1, req', w');
    OneListingPerSpelling(valid, own, steps, req.resourceId, req'.resourceId);
  }

  lemma RunOfNothing(valid: Card -> bool, own: string -> string)
    ensures Run(valid, own, []) == START
  {
  }

  // ---------- Two publishes that overlap ----------

  ghost function Lists(valid: Card -> bool, own: string -> string, s: Sys, i: nat): Sys {
    Next(valid, own, Next(valid, own, s, PutCard(i)), Upsert(i))
  }

  // A publish that found no record and no owner lists what was claimed.
  lemma ListsItsClaim(valid: Card -> bool, own: string -> string, s: Sys, i: nat)
    requires i in s.sessions && s.sessions[i].stage == Read(None)
    ensures var x := s.sessions[i]; var t := Lists(valid, own, s, i);
            && (x.owner.None? ==> CreatorOf(t.records, x.req.resourceId) == x.req.creator)
            && t.log == s.log + [Listing(x.req.resourceId, x.owner, x.req.creator)]
            && (forall j | j in s.sessions && j != i :: j in t.sessions && t.sessions[j] == s.sessions[j])
  {
    hide Admitted, RecordFor, CreatorOf;
    var x := s.sessions[i];
    var t := Lists(valid, own, s, i);
    var bound := BoundCreator(x.owner, None, x.req.creator);
    RecordKey(x.req, x.card, x.agentId, x.bond, bound);
    assert t.records == s.records[x.req.resourceId := RecordFor(x.req, x.card, x.agentId, x.bond, bound)];
    CreatorAt(s.records, x.req.resourceId, RecordFor(x.req, x.card, x.agentId, x.bond, bound));
  }

  lemma CreatorAt(records: map<string, IndexRecord>, id: string, r: IndexRecord)
    ensures CreatorOf(records[id := r], id) == r.creator
  {
  }

  lemma ReadsNothing(valid: Card -> bool, own: string -> string, s: Sys, i: nat)
    requires i in s.sessions && s.sessions[i].stage.Gated? && s.sessions[i].req.resourceId !in s.records
    ensures Next(valid, own, s, ReadIndex(i)) == s.(sessions := s.sessions[i := s.sessions[i].(stage := Read(None))])
  {
  }

  // Both read the index before either lists; then j lists, and i after it.
  ghost function Overlap(valid: Card -> bool, own: string -> string, s: Sys, i: nat, j: nat): Sys {
    var read := Next(valid, own, Next(valid, own, s, ReadIndex(i)), ReadIndex(j));
    Lists(valid, own, Lists(valid, own, read, j), i)
  }

  // Two first publishes of a resource that overlap leave it with what the last to list claimed, even
  // over the on-chain owner the other had resolved.
  lemma OverlapTakesOver(valid: Card -> bool, own: string -> string, s: Sys, i: nat, j: nat)
    requires i != j && i in s.sessions && j in s.sessions
    requires s.sessions[i].stage.Gated? && s.sessions[j].stage.Gated?
    requires s.sessions[i].req.resourceId == s.sessions[j].req.resourceId && s.sessions[i].req.resourceId !in s.records
    requires s.sessions[i].owner.None? && s.sessions[j].owner.Some?
    ensures var t := Overlap(valid, own, s, i, j); var id := s.sessions[i].req.resourceId;
            && Resolves(t.log, id, |s.log|)
            && CreatorOf(t.records, id) == s.sessions[i].req.creator
  {
    hide Next, CreatorOf;
    var read := Next(valid, own, Next(valid, own, s, ReadIndex(i)), ReadIndex(j));
    ReadsNothing(valid, own, s, i);
    ReadsNothing(valid, own, Next(valid, own, s, ReadIndex(i)), j);
    ListsItsClaim(valid, own, read, j);
    ListsItsClaim(valid, own, Lists(valid, own, read, j), i);
  }

  // For any two admitted publishes of one resource, one of which resolves the owner and one of which
  // does not, there is a run from the start that lists the owner and then what the other claimed.
  lemma OwnerIsReplaced(valid: Card -> bool, own: string -> string, req: Request, w: World, req': Request, w': World)
    returns (steps: seq<Step>)
    requires Admitted(valid, req, w) && Admitted(valid, req', w') && req.resourceId == req'.resourceId
    requires w.owner.None? && w'.owner.Some?
    ensures var s, id := Run(valid, own, steps), req.resourceId;
            && Resolves(s.log, id, 0) && CreatorOf(s.records, id) == req.creator
            && (req.creator != Some(own(id)) ==> !Rightful(own, s.log, id, CreatorOf(s.records, id)))
  {
    hide Run, Admitted, RecordFor, Finalize, CreatorOf, Rightful;
    AdmittedCard(valid, req, w);
    AdmittedCard(valid, req', w');
    RunOfNothing(valid, own);
    RunSnoc(valid, own, [], Begin(0, req, w));
    RunSnoc(valid, own, [Begin(0, req, w)], Begin(1, req', w'));
    steps := [Begin(0, req, w)] + [Begin(1, req', w')];
    assert [] + [Begin(0, req, w)] == [Begin(0, req, w)];
    var s := Run(valid, own, steps);
    OverlapTakesOver(valid, own, s, 0, 1);
    steps := OverlapRuns(valid, own, steps, 0, 1);
    ReplacedIsWrong(own, Run(valid, own, steps), req.resourceId);
  }

  lemma OverlapRuns(valid: Card -> bool, own: string -> string, steps: seq<Step>, i: nat, j: nat) returns (more: seq<Step>)
    ensures Run(valid, own, more) == Overlap(valid, own, Run(valid, own, steps), i, j)
  {
    hide Run, Next;
    more := steps;
    RunSnoc(valid, own, more, ReadIndex(i));
    more := more + [ReadIndex(i)];
    RunSnoc(valid, own, more, ReadIndex(j));
    more := more + [ReadIndex(j)];
    RunSnoc(valid, own, more, PutCard(j));
    more := more + [PutCard(j)];
    RunSnoc(valid, own, more, Upsert(j));
    more := more + [Upsert(j)];
    RunSnoc(valid, own, more, PutCard(i));
    more := more + [PutCard(i)];
    RunSnoc(valid, own, more, Upsert(i));
    more := more + [Upsert(i)];
  }

  lemma ReplacedIsWrong(own: string -> string, s: Sys, id: string)
    requires Resolves(s.log, id, 0)
    ensures CreatorOf(s.records, id) != Some(own(id)) ==> !Rightful(own, s.log, id, CreatorOf(s.records, id))
  {
  }
}
