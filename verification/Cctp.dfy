// Cross-chain funding (packages/treasury/src/cctp-funder.ts): burn, attest, verify, claim, mint,
// credit, with any number of calls under way, lost answers and replayed messages.
module Cctp {
  import opened Prelude

  datatype Attestation = Attestation(message: string, signature: string)

  // Which attestation source and which verifier were injected: live ones, or the mock and the shape check.
  datatype Config = Config(liveSource: bool, liveVerifier: bool)

  predicate IsHexDigit(c: char) {
    '0' <= c <= '9' || 'a' <= c <= 'f' || 'A' <= c <= 'F'
  }

  // 0x and at least one byte, hex digits throughout.
  predicate Signed(att: Attestation) {
    |att.signature| >= 4 && att.signature[..2] == "0x" && forall k | 2 <= k < |att.signature| :: IsHexDigit(att.signature[k])
  }

  // What the calls have done to the world: burns on the source chain, consumed messages, mints on
  // the destination, and credits of the escrow.
  datatype Minted = Minted(call: nat, att: Attestation, amount: int)
  datatype Credited = Credited(call: nat, message: string, recipient: string, amount: int)
  datatype Ledger = Ledger(burned: map<nat, int>, claimed: set<string>, mints: seq<Minted>, credits: seq<Credited>)

  const EMPTY: Ledger := Ledger(map[], {}, [], [])

  // Where a call stands: what it awaits next, or how it ended.
  datatype Pc =
    | AwaitBurn
    | AwaitAttest
    | AwaitVerify(att: Attestation)
    | AwaitClaim(att: Attestation)
    | AwaitMint(att: Attestation)
    | AwaitCredit(att: Attestation, minted: int)
    | Returned(minted: int)
    | Threw

  datatype Call = Call(id: nat, amount: int, recipient: string, pc: Pc)

  // How an awaited operation ends. Lost: it took effect, but the call only sees an error.
  datatype Answer =
    | Fails
    | Burns(lost: bool)
    | Attests(att: Attestation)
    | Verifies
    | Claims
    | Mints(amount: int, lost: bool)
    | Credits(lost: bool)

  // One awaited operation of one call. An answer to something else leaves everything as it is.
  function Advance(cfg: Config, l: Ledger, c: Call, a: Answer): (Ledger, Call) {
    match (c.pc, a)
    case (AwaitBurn, Burns(lost)) =>
      if c.amount < 0 then (l, c.(pc := Threw))
      else (l.(burned := l.burned[c.id := c.amount]), c.(pc := if lost then Threw else AwaitAttest))
    case (AwaitAttest, Attests(att)) =>
      (l, c.(pc := if cfg.liveSource && !cfg.liveVerifier then Threw else AwaitVerify(att)))
    case (AwaitVerify(att), Verifies) =>
      (l, c.(pc := if cfg.liveVerifier || Signed(att) then AwaitClaim(att) else Threw))
    case (AwaitClaim(att), Claims) =>
      if att.message in l.claimed then (l, c.(pc := Threw))
      else (l.(claimed := l.claimed + {att.message}), c.(pc := AwaitMint(att)))
    case (AwaitMint(att), Mints(amount, lost)) =>
      (l.(mints := l.mints + [Minted(c.id, att, amount)]),
       c.(pc := if lost || amount > c.amount then Threw else AwaitCredit(att, amount)))
    case (AwaitCredit(att, minted), Credits(lost)) =>
      (l.(credits := l.credits + [Credited(c.id, att.message, c.recipient, minted)]),
       c.(pc := if lost then Threw else Returned(minted)))
    case (Returned(_), _) => (l, c)
    case (_, Fails) => (l, c.(pc := Threw))
    case _ => (l, c)
  }

  function Play(cfg: Config, l: Ledger, c: Call, answers: seq<Answer>): (Ledger, Call)
    decreases |answers|
  {
    if answers == [] then (l, c)
    else
      var (l', c') := Advance(cfg, l, c, answers[0]);
      Play(cfg, l', c', answers[1..])
  }

  lemma PlayNext(cfg: Config, l: Ledger, c: Call, a: Answer, rest: seq<Answer>)
    ensures Play(cfg, l, c, [a] + rest) == Play(cfg, Advance(cfg, l, c, a).0, Advance(cfg, l, c, a).1, rest)
  {
    assert ([a] + rest)[1..] == rest;
  }

  lemma {:induction false} PlayEnded(cfg: Config, l: Ledger, c: Call, answers: seq<Answer>)
    requires c.pc.Returned? || c.pc.Threw?
    ensures Play(cfg, l, c, answers) == (l, c)
  {
    if answers != [] {
      PlayEnded(cfg, l, c, answers[1..]);
    }
  }

  // ---------- The funder ----------

  class InMemoryNonceStore {
    var seen: set<string>

    constructor ()
      ensures seen == {}
    {
      seen := {};
    }

    // True exactly once for each key.
    method Claim(key: string) returns (claimed: bool)
      modifies this
      ensures claimed == (key !in old(seen))
      ensures seen == old(seen) + {key}
    {
      if key in seen {
        return false;
      }
      seen := seen + {key};
      return true;
    }
  }

  // How each awaited operation of one call will end, in order.
  datatype World = World(burn: Answer, attest: Answer, verify: Answer, mint: Answer, credit: Answer)

  predicate WorldOk(w: World) {
    && (w.burn.Fails? || w.burn.Burns?)
    && (w.attest.Fails? || w.attest.Attests?)
    && (w.verify.Fails? || w.verify.Verifies?)
    && (w.mint.Fails? || w.mint.Mints?)
    && (w.credit.Fails? || w.credit.Credits?)
  }

  function Answers(w: World): seq<Answer> {
    [w.burn, w.attest, w.verify, Claims, w.mint, w.credit]
  }

  // 0x, two hex digits or more.
  ghost predicate LooksSigned(signature: string) {
    exists digits ::
      signature == "0x" + digits && |digits| >= 2
      && forall k | 0 <= k < |digits| :: digits[k] in "0123456789abcdefABCDEF"
  }

  // Every operation succeeds and is heard of, the message is new, and no more is minted than was
  // burned; a live source needs a live verifier, and the shape check a signature that looks like one.
  ghost predicate AllGoesWell(cfg: Config, amount: int, w: World, seen: set<string>) {
    && amount >= 0 && w.burn == Burns(false)
    && w.attest.Attests? && w.attest.att.message !in seen
    && w.verify.Verifies? && (cfg.liveSource ==> cfg.liveVerifier)
    && (cfg.liveVerifier || LooksSigned(w.attest.att.signature))
    && w.mint.Mints? && !w.mint.lost && w.mint.amount <= amount
    && w.credit == Credits(false)
  }

  lemma HexChars(c: char)
    ensures IsHexDigit(c) <==> c in "0123456789abcdefABCDEF"
  {
  }

  lemma SignedExactly(att: Attestation)
    ensures Signed(att) <==> LooksSigned(att.signature)
  {
    hide IsHexDigit;
    var s := att.signature;
    forall k | 0 <= k < |s| ensures IsHexDigit(s[k]) <==> s[k] in "0123456789abcdefABCDEF" {
      HexChars(s[k]);
    }
    if Signed(att) {
      assert s == "0x" + s[2..] && forall k | 0 <= k < |s[2..]| :: s[2..][k] == s[k + 2];
    }
  }

  class CctpFunder {
    const cfg: Config
    const nonces: InMemoryNonceStore
    var burned: map<nat, int>
    var mints: seq<Minted>
    var credits: seq<Credited>

    constructor (cfg: Config, nonces: InMemoryNonceStore)
      ensures this.cfg == cfg && this.nonces == nonces && burned == map[] && mints == [] && credits == []
    {
      this.cfg, this.nonces := cfg, nonces;
      burned, mints, credits := map[], [], [];
    }

    ghost function Contents(): Ledger
      reads this, nonces
    {
      Ledger(burned, nonces.seen, mints, credits)
    }

    // The call takes exactly the steps of the protocol, whatever the world answers.
    method Fund(id: nat, amount: int, recipient: string, w: World) returns (end: Pc)
      requires WorldOk(w)
      modifies this, nonces
      ensures Play(cfg, old(Contents()), Call(id, amount, recipient, AwaitBurn), Answers(w))
           == (Contents(), Call(id, amount, recipient, end))
      ensures end.Returned? ==>
                && w.mint.Mints? && end.minted == w.mint.amount <= amount
                && w.attest.Attests? && w.attest.att.message !in old(nonces.seen)
                && credits == old(credits) + [Credited(id, w.attest.att.message, recipient, end.minted)]
      ensures !end.Returned? ==> credits == old(credits) || (w.credit.Credits? && w.credit.lost)
      ensures end.Returned? <==> AllGoesWell(cfg, amount, w, old(nonces.seen))
    {
      hide Signed, LooksSigned;
      if w.attest.Attests? {
        SignedExactly(w.attest.att);
      }
      end := Threw;
      PlaySix(cfg, Contents(), Call(id, amount, recipient, AwaitBurn), w);
      if w.burn.Fails? || amount < 0 {
        return;
      }
      burned := burned[id := amount];
      if w.burn.lost {
        return;
      }
      if w.attest.Fails? {
        return;
      }
      var att := w.attest.att;
      if cfg.liveSource && !cfg.liveVerifier {
        return;
      }
      if w.verify.Fails? || (!cfg.liveVerifier && !Signed(att)) {
        return;
      }
      var claimed := nonces.Claim(att.message);
      if !claimed {
        assert nonces.seen == old(nonces.seen);
        return;
      }
      if w.mint.Fails? {
        return;
      }
      mints := mints + [Minted(id, att, w.mint.amount)];
      if w.mint.lost || w.mint.amount > amount {
        return;
      }
      if w.credit.Fails? {
        return;
      }
      credits := credits + [Credited(id, att.message, recipient, w.mint.amount)];
      if w.credit.lost {
        return;
      }
      end := Returned(w.mint.amount);
    }
  }

  function Then(cfg: Config, at: (Ledger, Call), a: Answer): (Ledger, Call) {
    Advance(cfg, at.0, at.1, a)
  }

  lemma PlaySix(cfg: Config, l: Ledger, c: Call, w: World)
    ensures Play(cfg, l, c, Answers(w))
         == Then(cfg, Then(cfg, Then(cfg, Then(cfg, Then(cfg, Advance(cfg, l, c, w.burn),
                 w.attest), w.verify), Claims), w.mint), w.credit)
  {
    hide Advance;
    var c1 := Advance(cfg, l, c, w.burn);
    var c2 := Then(cfg, c1, w.attest);
    var c3 := Then(cfg, c2, w.verify);
    var c4 := Then(cfg, c3, Claims);
    var c5 := Then(cfg, c4, w.mint);
    PlayNext(cfg, l, c, w.burn, [w.attest, w.verify, Claims, w.mint, w.credit]);
    PlayNext(cfg, c1.0, c1.1, w.attest, [w.verify, Claims, w.mint, w.credit]);
    PlayNext(cfg, c2.0, c2.1, w.verify, [Claims, w.mint, w.credit]);
    PlayNext(cfg, c3.0, c3.1, Claims, [w.mint, w.credit]);
    PlayNext(cfg, c4.0, c4.1, w.mint, [w.credit]);
    PlayNext(cfg, c5.0, c5.1, w.credit, []);
    assert Answers(w) == [w.burn] + [w.attest, w.verify, Claims, w.mint, w.credit];
    assert [w.attest, w.verify, Claims, w.mint, w.credit] == [w.attest] + [w.verify, Claims, w.mint, w.credit];
    assert [w.verify, Claims, w.mint, w.credit] == [w.verify] + [Claims, w.mint, w.credit];
    assert [Claims, w.mint, w.credit] == [Claims] + [w.mint, w.credit];
    assert [w.mint, w.credit] == [w.mint] + [w.credit];
    assert [w.credit] == [w.credit] + [];
  }

  // ---------- Any number of calls ----------

  datatype Sys = Sys(ledger: Ledger, calls: map<nat, Call>)

  datatype Step = Open(id: nat, amount: int, recipient: string) | Await(id: nat, answer: Answer)

  function Next(cfg: Config, s: Sys, step: Step): Sys {
    match step
    case Open(id, amount, recipient) =>
      if id in s.calls then s else s.(calls := s.calls[id := Call(id, amount, recipient, AwaitBurn)])
    case Await(id, a) =>
      if id !in s.calls then s
      else
        var (l, c) := Advance(cfg, s.ledger, s.calls[id], a);
        Sys(l, s.calls[id := c])
  }

  function RunFrom(cfg: Config, s: Sys, steps: seq<Step>): Sys {
    if steps == [] then s else Next(cfg, RunFrom(cfg, s, steps[..|steps| - 1]), steps[|steps| - 1])
  }

  function Run(cfg: Config, steps: seq<Step>): Sys { RunFrom(cfg, Sys(EMPTY, map[]), steps) }

  // The steps of one call that nothing interrupts.
  function Alone(id: nat, amount: int, recipient: string, answers: seq<Answer>): seq<Step> {
    if answers == [] then [Open(id, amount, recipient)]
    else Alone(id, amount, recipient, answers[..|answers| - 1]) + [Await(id, answers[|answers| - 1])]
  }

  lemma {:induction false} PlaySnoc(cfg: Config, l: Ledger, c: Call, answers: seq<Answer>, a: Answer)
    ensures Play(cfg, l, c, answers + [a]) == Then(cfg, Play(cfg, l, c, answers), a)
    decreases |answers|
  {
    hide Advance;
    if answers == [] {
      assert [] + [a] == [a] + [];
      PlayNext(cfg, l, c, a, []);
    } else {
      var (l', c') := Advance(cfg, l, c, answers[0]);
      PlaySnoc(cfg, l', c', answers[1..], a);
      assert (answers + [a])[1..] == answers[1..] + [a] && (answers + [a])[0] == answers[0];
    }
  }

  // From any state, a new call that nothing interrupts does what the funder's one call does.
  lemma {:induction false} AlonePlays(cfg: Config, s: Sys, id: nat, amount: int, recipient: string, answers: seq<Answer>)
    requires id !in s.calls
    ensures var (l, c) := Play(cfg, s.ledger, Call(id, amount, recipient, AwaitBurn), answers);
            RunFrom(cfg, s, Alone(id, amount, recipient, answers)) == Sys(l, s.calls[id := c])
  {
    hide Advance;
    var steps := Alone(id, amount, recipient, answers);
    var call := Call(id, amount, recipient, AwaitBurn);
    if answers == [] {
      assert steps[..0] == [];
      assert RunFrom(cfg, s, []) == s;
    } else {
      var n := |answers| - 1;
      AlonePlays(cfg, s, id, amount, recipient, answers[..n]);
      assert steps[..|steps| - 1] == Alone(id, amount, recipient, answers[..n]);
      PlaySnoc(cfg, s.ledger, call, answers[..n], answers[n]);
      assert answers[..n] + [answers[n]] == answers;
    }
  }

  // The message a call has claimed and not yet credited.
  predicate Holds(c: Call, message: string) {
    (c.pc.AwaitMint? || c.pc.AwaitCredit?) && c.pc.att.message == message
  }

  ghost predicate Held(s: Sys, message: string) {
    exists id :: id in s.calls && Holds(s.calls[id], message)
  }

  // What a call's place in the protocol says about the ledger.
  ghost predicate CallOk(cfg: Config, l: Ledger, c: Call) {
    && (!c.pc.AwaitBurn? && !c.pc.Threw? ==> c.id in l.burned)
    && (c.id in l.burned ==> l.burned[c.id] == c.amount && c.amount >= 0 && !c.pc.AwaitBurn?)
    && (c.pc.AwaitVerify? && cfg.liveSource ==> cfg.liveVerifier)
    && (c.pc.AwaitClaim? || c.pc.AwaitMint? ==> Vetted(cfg, c.pc.att))
    && (c.pc.AwaitCredit? ==> c.pc.minted <= c.amount && Minted(c.id, c.pc.att, c.pc.minted) in l.mints)
    && (forall k | 0 <= k < |l.credits| && l.credits[k].call == c.id ::
          (c.pc.Returned? || c.pc.Threw?) && l.credits[k].recipient == c.recipient)
    && (c.pc.Returned? ==> exists k | 0 <= k < |l.credits| :: l.credits[k].call == c.id && l.credits[k].amount == c.pc.minted)
  }

  // What the verifier seam lets through to the mint.
  predicate Vetted(cfg: Config, att: Attestation) {
    (cfg.liveSource ==> cfg.liveVerifier) && (cfg.liveVerifier || Signed(att))
  }

  ghost predicate CallsOk(cfg: Config, s: Sys) {
    && (forall id | id in s.calls :: s.calls[id].id == id && CallOk(cfg, s.ledger, s.calls[id]))
    && (forall id | id in s.ledger.burned :: id in s.calls)
  }

  // A held message has one holder, is claimed, and is not credited; it is minted only once its
  // holder awaits the credit.
  ghost predicate HoldersOk(s: Sys) {
    && (forall id, m | id in s.calls && Holds(s.calls[id], m) ::
          && m in s.ledger.claimed
          && Uncredited(s.ledger, m)
          && (s.calls[id].pc.AwaitMint? ==> Unminted(s.ledger, m)))
    && (forall i, j | i in s.calls && j in s.calls && i != j :: !SameHold(s.calls[i], s.calls[j]))
  }

  predicate SameHold(c: Call, d: Call) {
    (c.pc.AwaitMint? || c.pc.AwaitCredit?) && Holds(d, c.pc.att.message)
  }

  ghost predicate Uncredited(l: Ledger, m: string) {
    forall k | 0 <= k < |l.credits| :: l.credits[k].message != m
  }

  ghost predicate Unminted(l: Ledger, m: string) {
    forall k | 0 <= k < |l.mints| :: l.mints[k].att.message != m
  }

  ghost predicate CreditOk(l: Ledger, x: Credited) {
    && x.message in l.claimed
    && x.call in l.burned && x.amount <= l.burned[x.call]
    && exists att: Attestation :: att.message == x.message && Minted(x.call, att, x.amount) in l.mints
  }

  ghost predicate MintsOk(cfg: Config, l: Ledger) {
    && (forall k | 0 <= k < |l.mints| :: l.mints[k].att.message in l.claimed && Vetted(cfg, l.mints[k].att))
    && (forall j, k | 0 <= j < k < |l.mints| :: l.mints[j].att.message != l.mints[k].att.message)
  }

  ghost predicate CreditsOk(l: Ledger) {
    && (forall k | 0 <= k < |l.credits| :: CreditOk(l, l.credits[k]))
    && (forall j, k | 0 <= j < k < |l.credits| ::
          l.credits[j].message != l.credits[k].message && l.credits[j].call != l.credits[k].call)
  }

  ghost predicate LedgerOk(cfg: Config, l: Ledger) {
    MintsOk(cfg, l) && CreditsOk(l)
  }

  ghost predicate Inv(cfg: Config, s: Sys) {
    CallsOk(cfg, s) && HoldersOk(s) && LedgerOk(cfg, s.ledger)
  }

  lemma AwaitKeepsCalls(cfg: Config, s: Sys, id: nat, a: Answer)
    requires Inv(cfg, s) && id in s.calls
    ensures CallsOk(cfg, Next(cfg, s, Await(id, a)))
  {
    hide Signed, HoldersOk, CreditOk;
    var t := Next(cfg, s, Await(id, a));
    StepKeepsCall(cfg, s.ledger, s.calls[id], a);
    forall i | i in t.calls && i != id ensures t.calls[i].id == i && CallOk(cfg, t.ledger, t.calls[i]) {
      OtherKeepsCall(cfg, s.ledger, s.calls[id], a, s.calls[i]);
    }
  }

  lemma StepKeepsCall(cfg: Config, l: Ledger, c: Call, a: Answer)
    requires CallOk(cfg, l, c)
    ensures var (l', c') := Advance(cfg, l, c, a);
            c'.id == c.id && CallOk(cfg, l', c') && l'.burned.Keys <= l.burned.Keys + {c.id}
  {
    hide Signed;
    var (l', c') := Advance(cfg, l, c, a);
    if c.pc.AwaitCredit? && a.Credits? {
      assert l'.credits[|l.credits|].call == c.id;
    }
  }

  lemma OtherKeepsCall(cfg: Config, l: Ledger, c: Call, a: Answer, d: Call)
    requires CallOk(cfg, l, d) && c.id != d.id
    ensures CallOk(cfg, Advance(cfg, l, c, a).0, d)
  {
    hide Signed, Vetted;
    var l' := Advance(cfg, l, c, a).0;
    if d.pc.Returned? {
      var k :| 0 <= k < |l.credits| && l.credits[k].call == d.id && l.credits[k].amount == d.pc.minted;
      assert l'.credits[k] == l.credits[k];
    }
  }

  lemma AwaitKeepsHolders(cfg: Config, s: Sys, id: nat, a: Answer)
    requires Inv(cfg, s) && id in s.calls
    ensures HoldersOk(Next(cfg, s, Await(id, a)))
  {
    hide Signed, CallsOk, LedgerOk, Vetted, Uncredited, Unminted, Advance, SameHold, Holds;
    var t := Next(cfg, s, Await(id, a));
    forall i, m | i in t.calls && Holds(t.calls[i], m)
      ensures m in t.ledger.claimed && Uncredited(t.ledger, m) && (t.calls[i].pc.AwaitMint? ==> Unminted(t.ledger, m))
    {
      if i == id {
        SelfHolds(cfg, s, id, a, m);
      } else {
        OtherHolds(cfg, s, id, a, i, m);
      }
    }
    forall i, j | i in t.calls && j in t.calls && i != j ensures !SameHold(t.calls[i], t.calls[j]) {
      if i == id {
        HoldsApart(cfg, s, i, a, j);
      } else if j == id {
        HoldsApart(cfg, s, j, a, i);
      }
    }
  }

  lemma SelfHolds(cfg: Config, s: Sys, id: nat, a: Answer, m: string)
    requires Inv(cfg, s) && id in s.calls && Holds(Advance(cfg, s.ledger, s.calls[id], a).1, m)
    ensures var (l, c) := Advance(cfg, s.ledger, s.calls[id], a);
            m in l.claimed && Uncredited(l, m) && (c.pc.AwaitMint? ==> Unminted(l, m))
  {
    hide Signed, CallsOk, LedgerOk, Vetted, SameHold;
    var c, l := s.calls[id], s.ledger;
    if c.pc.AwaitClaim? && a.Claims? && c.pc.att.message !in l.claimed {
      FreshMessage(cfg, l, c.pc.att.message);
    } else {
      assert Holds(c, m);
    }
  }

  lemma OtherHolds(cfg: Config, s: Sys, id: nat, a: Answer, i: nat, m: string)
    requires Inv(cfg, s) && id in s.calls && i in s.calls && i != id && Holds(s.calls[i], m)
    ensures var l := Advance(cfg, s.ledger, s.calls[id], a).0;
            m in l.claimed && Uncredited(l, m) && (s.calls[i].pc.AwaitMint? ==> Unminted(l, m))
  {
    hide Signed, CallsOk, LedgerOk, Vetted;
    assert !SameHold(s.calls[i], s.calls[id]);
  }

  lemma HoldsApart(cfg: Config, s: Sys, id: nat, a: Answer, j: nat)
    requires Inv(cfg, s) && id in s.calls && j in s.calls && j != id
    ensures var c := Advance(cfg, s.ledger, s.calls[id], a).1;
            !SameHold(c, s.calls[j]) && !SameHold(s.calls[j], c)
  {
    hide Signed, CallsOk, LedgerOk, Vetted, Uncredited, Unminted;
    assert !SameHold(s.calls[id], s.calls[j]) && !SameHold(s.calls[j], s.calls[id]);
    if s.calls[j].pc.AwaitMint? || s.calls[j].pc.AwaitCredit? {
      assert Holds(s.calls[j], s.calls[j].pc.att.message);
    }
  }

  lemma FreshMessage(cfg: Config, l: Ledger, m: string)
    requires LedgerOk(cfg, l) && m !in l.claimed
    ensures Uncredited(l, m) && Unminted(l, m)
  {
    forall k | 0 <= k < |l.credits| ensures l.credits[k].message != m {
      assert CreditOk(l, l.credits[k]);
    }
  }

  lemma AwaitKeepsMints(cfg: Config, s: Sys, id: nat, a: Answer)
    requires Inv(cfg, s) && id in s.calls
    ensures MintsOk(cfg, Next(cfg, s, Await(id, a)).ledger)
  {
    hide Signed, SameHold, CreditsOk, Uncredited;
    var c := s.calls[id];
    if c.pc.AwaitMint? {
      assert Holds(c, c.pc.att.message);
      assert Unminted(s.ledger, c.pc.att.message);
    }
  }

  lemma AwaitKeepsCredits(cfg: Config, s: Sys, id: nat, a: Answer)
    requires Inv(cfg, s) && id in s.calls
    ensures CreditsOk(Next(cfg, s, Await(id, a)).ledger)
  {
    hide Signed, SameHold, MintsOk, Unminted, Vetted, CreditOk;
    var c, l := s.calls[id], s.ledger;
    var l' := Next(cfg, s, Await(id, a)).ledger;
    if c.pc.AwaitCredit? {
      assert Holds(c, c.pc.att.message);
      assert Uncredited(l, c.pc.att.message);
      NewCreditOk(cfg, l, c);
    }
    forall k | 0 <= k < |l.credits| ensures CreditOk(l', l.credits[k]) {
      CreditKept(cfg, l, c, a, l.credits[k]);
    }
  }

  lemma NewCreditOk(cfg: Config, l: Ledger, c: Call)
    requires CallOk(cfg, l, c) && c.pc.AwaitCredit? && c.pc.att.message in l.claimed
    ensures CreditOk(Advance(cfg, l, c, Credits(false)).0, Credited(c.id, c.pc.att.message, c.recipient, c.pc.minted))
  {
    hide Signed, Vetted;
    assert Minted(c.id, c.pc.att, c.pc.minted) in Advance(cfg, l, c, Credits(false)).0.mints;
  }

  lemma CreditKept(cfg: Config, l: Ledger, c: Call, a: Answer, x: Credited)
    requires CreditOk(l, x) && CallOk(cfg, l, c)
    ensures CreditOk(Advance(cfg, l, c, a).0, x)
  {
    hide Signed, Vetted;
    var att: Attestation :| att.message == x.message && Minted(x.call, att, x.amount) in l.mints;
    assert Minted(x.call, att, x.amount) in Advance(cfg, l, c, a).0.mints;
  }

  lemma OpenKeeps(cfg: Config, s: Sys, step: Step)
    requires Inv(cfg, s) && step.Open?
    ensures Inv(cfg, Next(cfg, s, step))
  {
    hide Signed, Vetted, LedgerOk, Uncredited, Unminted;
    var t := Next(cfg, s, step);
    if step.id !in s.calls {
      NoCreditWithoutCall(cfg, s, step.id);
      forall i, m | i in t.calls && Holds(t.calls[i], m)
        ensures m in t.ledger.claimed && Uncredited(t.ledger, m) && (t.calls[i].pc.AwaitMint? ==> Unminted(t.ledger, m))
      {
        assert Holds(s.calls[i], m);
      }
      forall i, j | i in t.calls && j in t.calls && i != j ensures !SameHold(t.calls[i], t.calls[j]) {
        assert i in s.calls && j in s.calls ==> !SameHold(s.calls[i], s.calls[j]);
      }
    }
  }

  lemma NoCreditWithoutCall(cfg: Config, s: Sys, id: nat)
    requires Inv(cfg, s) && id !in s.calls
    ensures id !in s.ledger.burned
    ensures forall k | 0 <= k < |s.ledger.credits| :: s.ledger.credits[k].call != id
  {
    forall k | 0 <= k < |s.ledger.credits| ensures s.ledger.credits[k].call != id {
      assert CreditOk(s.ledger, s.ledger.credits[k]);
    }
  }

  lemma {:induction false} RunKeeps(cfg: Config, s: Sys, steps: seq<Step>)
    requires Inv(cfg, s)
    ensures Inv(cfg, RunFrom(cfg, s, steps))
  {
    hide CallsOk, HoldersOk, LedgerOk, Next;
    if steps != [] {
      RunKeeps(cfg, s, steps[..|steps| - 1]);
      NextKeeps(cfg, RunFrom(cfg, s, steps[..|steps| - 1]), steps[|steps| - 1]);
    }
  }

  lemma NextKeeps(cfg: Config, s: Sys, step: Step)
    requires Inv(cfg, s)
    ensures Inv(cfg, Next(cfg, s, step))
  {
    hide CallsOk, HoldersOk, MintsOk, CreditsOk, Advance;
    if step.Open? {
      OpenKeeps(cfg, s, step);
    } else if step.id in s.calls {
      AwaitKeepsCalls(cfg, s, step.id, step.answer);
      AwaitKeepsHolders(cfg, s, step.id, step.answer);
      AwaitKeepsMints(cfg, s, step.id, step.answer);
      AwaitKeepsCredits(cfg, s, step.id, step.answer);
    }
  }

  lemma RunInv(cfg: Config, steps: seq<Step>)
    ensures Inv(cfg, Run(cfg, steps))
  {
    RunKeeps(cfg, Sys(EMPTY, map[]), steps);
  }

  // No message is credited twice and no call credits twice; no message is submitted to the
  // transmitter twice, nor without passing the verifier seam.
  lemma CreditedOnce(cfg: Config, steps: seq<Step>)
    ensures var l := Run(cfg, steps).ledger;
            && (forall j, k | 0 <= j < k < |l.credits| ::
                  l.credits[j].message != l.credits[k].message && l.credits[j].call != l.credits[k].call)
            && (forall j, k | 0 <= j < k < |l.mints| :: l.mints[j].att.message != l.mints[k].att.message)
            && (forall k | 0 <= k < |l.mints| :: Vetted(cfg, l.mints[k].att))
  {
    hide Run, Vetted;
    RunInv(cfg, steps);
  }

  // A credit is exactly what was minted for that call and message, at most that call's own burn,
  // and goes to that call's recipient.
  lemma CreditWithinBurn(cfg: Config, steps: seq<Step>, k: nat)
    requires k < |Run(cfg, steps).ledger.credits|
    ensures var s := Run(cfg, steps); var x := s.ledger.credits[k];
            && x.call in s.calls && x.recipient == s.calls[x.call].recipient
            && x.call in s.ledger.burned && x.amount <= s.ledger.burned[x.call] == s.calls[x.call].amount
            && exists att: Attestation :: att.message == x.message && Minted(x.call, att, x.amount) in s.ledger.mints
  {
    hide Run, Signed, Vetted, HoldersOk;
    RunInv(cfg, steps);
    var s := Run(cfg, steps);
    assert CreditOk(s.ledger, s.ledger.credits[k]);
    assert CallOk(cfg, s.ledger, s.calls[s.ledger.credits[k].call]);
  }

  // A call that returns has credited exactly the amount it reports.
  lemma ReturnReportsCredit(cfg: Config, steps: seq<Step>, id: nat)
    requires id in Run(cfg, steps).calls && Run(cfg, steps).calls[id].pc.Returned?
    ensures var s := Run(cfg, steps); var c := s.calls[id];
            exists k | 0 <= k < |s.ledger.credits| ::
              s.ledger.credits[k] == Credited(id, s.ledger.credits[k].message, c.recipient, c.pc.minted)
  {
    hide Run, Signed, Vetted, HoldersOk, LedgerOk;
    RunInv(cfg, steps);
    var s := Run(cfg, steps);
    assert CallOk(cfg, s.ledger, s.calls[id]);
    var k :| 0 <= k < |s.ledger.credits| && s.ledger.credits[k].call == id
             && s.ledger.credits[k].amount == s.calls[id].pc.minted;
    assert s.ledger.credits[k] == Credited(id, s.ledger.credits[k].message, s.calls[id].recipient, s.calls[id].pc.minted);
  }

  function TotalCredited(credits: seq<Credited>): int {
    if credits == [] then 0 else TotalCredited(credits[..|credits| - 1]) + credits[|credits| - 1].amount
  }

  lemma {:induction false} TotalAtMost(credits: seq<Credited>, burned: map<nat, int>)
    requires forall id | id in burned :: burned[id] >= 0
    requires forall k | 0 <= k < |credits| :: credits[k].call in burned && credits[k].amount <= burned[credits[k].call]
    requires forall j, k | 0 <= j < k < |credits| :: credits[j].call != credits[k].call
    ensures TotalCredited(credits) <= Sum(burned.Keys, burned)
  {
    if credits == [] {
      SumMonotone({}, burned.Keys, burned);
    } else {
      var n := |credits| - 1;
      var id := credits[n].call;
      var rest := burned - {id};
      TotalAtMost(credits[..n], rest);
      SumRemove(burned.Keys, burned, id);
      assert rest.Keys == burned.Keys - {id};
      SumSame(rest.Keys, rest, burned);
    }
  }

  // However calls interleave, fail and replay, no more is credited than was burned.
  lemma TotalWithinBurned(cfg: Config, steps: seq<Step>)
    ensures var l := Run(cfg, steps).ledger;
            TotalCredited(l.credits) <= Sum(l.burned.Keys, l.burned)
  {
    hide Run, Signed, Vetted, HoldersOk;
    RunInv(cfg, steps);
    var s := Run(cfg, steps);
    forall id | id in s.ledger.burned ensures s.ledger.burned[id] >= 0 {
      assert CallOk(cfg, s.ledger, s.calls[id]);
    }
    forall k | 0 <= k < |s.ledger.credits|
      ensures var x := s.ledger.credits[k]; x.call in s.ledger.burned && x.amount <= s.ledger.burned[x.call]
    {
      assert CreditOk(s.ledger, s.ledger.credits[k]);
    }
    TotalAtMost(s.ledger.credits, s.ledger.burned);
  }

  // ---------- Claimed messages ----------

  // What a claimed message that nobody holds keeps, whatever happens next.
  ghost predicate Stranded(s: Sys, m: string, credits: seq<Credited>) {
    && m in s.ledger.claimed
    && !Held(s, m)
    && credits <= s.ledger.credits
    && forall k | |credits| <= k < |s.ledger.credits| :: s.ledger.credits[k].message != m
  }

  lemma {:induction false} StrandedForever(cfg: Config, s: Sys, more: seq<Step>, m: string)
    requires m in s.ledger.claimed && !Held(s, m)
    ensures Stranded(RunFrom(cfg, s, more), m, s.ledger.credits)
  {
    if more != [] {
      StrandedForever(cfg, s, more[..|more| - 1], m);
    }
  }

  ghost predicate CreditsLater(cfg: Config, s: Sys, m: string, more: seq<Step>) {
    var l := RunFrom(cfg, s, more).ledger;
    exists k | |s.ledger.credits| <= k < |l.credits| :: l.credits[k].message == m
  }

  // The claim is spent before the mint: a claimed message can still be credited if and only if a
  // call holds it between its claim and its credit. After an abort there no retry ever credits it.
  lemma ClaimedCreditsOnlyIfHeld(cfg: Config, s: Sys, m: string)
    requires m in s.ledger.claimed
    ensures (exists more :: CreditsLater(cfg, s, m, more)) <==> Held(s, m)
  {
    hide Signed;
    if Held(s, m) {
      var id :| id in s.calls && Holds(s.calls[id], m);
      HolderCredits(cfg, s, id, m);
    } else {
      forall more ensures !CreditsLater(cfg, s, m, more) {
        StrandedForever(cfg, s, more, m);
      }
    }
  }

  lemma HolderCredits(cfg: Config, s: Sys, id: nat, m: string)
    requires id in s.calls && Holds(s.calls[id], m)
    ensures exists more :: CreditsLater(cfg, s, m, more)
  {
    hide Signed;
    var credit := Await(id, Credits(false));
    if s.calls[id].pc.AwaitCredit? {
      CreditsNow(cfg, s, [], id, m);
    } else {
      var mint := Await(id, Mints(s.calls[id].amount, false));
      assert RunFrom(cfg, s, []) == s && [mint][..0] == [];
      assert RunFrom(cfg, s, [mint]) == Next(cfg, s, mint);
      CreditsNow(cfg, s, [mint], id, m);
    }
  }

  lemma CreditsNow(cfg: Config, s: Sys, before: seq<Step>, id: nat, m: string)
    requires var t := RunFrom(cfg, s, before);
             && id in t.calls && t.calls[id].pc.AwaitCredit? && Holds(t.calls[id], m)
             && t.ledger.credits == s.ledger.credits
    ensures exists more :: CreditsLater(cfg, s, m, more)
  {
    var more := before + [Await(id, Credits(false))];
    assert more[..|before|] == before;
    var l := RunFrom(cfg, s, more).ledger;
    assert l.credits[|s.ledger.credits|].message == m;
    assert CreditsLater(cfg, s, m, more);
  }
}
