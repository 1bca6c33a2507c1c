# Utter: verified models of the pay-per-call platform

Utter lets agents pay per call for deployed resources. A payment gate reserves a signed cap before a
handler runs and settles or releases it afterwards; a deployer caches answers by version; a scorer
probes resources, and five failures in a row can lead to a slash of the creator's bond, from which
buyers are refunded; a marketplace publishes and packages resources; a treasury moves funds across
chains. These Dafny modules model the logic of those parts and prove properties of it for all inputs,
all runs and all interleavings of their steps.

| module | models |
|---|---|
| `Prelude` | options, decimal numerals, sums over finite sets |
| `JsonText`, `JsonGrammar`, `JsonReader`, `CacheKey` | the cache key: canonical JSON text, the JSON grammar, the reader that takes exactly that grammar, key material and version namespaces |
| `ResponseCache`, `Deployments` | the response cache and its billing, redeploys, deployment records |
| `PaymentStore`, `Metering`, `Gate` | reservations, the charge, the gate's protocol |
| `Facilitator` | verify and settle await by await, over the reservation store and the escrow contract |
| `Admission`, `Solvency`, `Recovery`, `Races`, `Spellings`, `Receipts` | what verify and settle let through, what reservations are backed by and from when on, which runs break that, what a nonce in two spellings does, and what receipts are worth |
| `Escrow` | the gates of all resources over that facilitator |
| `SpendCap` | the rolling 24-hour spend cap |
| `Strikes`, `Schedule`, `Slash`, `Refund` | the health reducer, the scoring loop, the time-locked slash, the refund batch |
| `Naming`, `Marketplace`, `DiskLayout` | kebab names, the assembly of a plugin marketplace, and where its files land |
| `Cctp` | cross-chain funding |
| `Publish` | the publish pipeline and its stores |
| `Allowlist` | IPv4 ranges and the resolved-address check |

A class or loop of the source is a class or loop here, proved against a function of its inputs and old
state; what is promised about whole runs is proved by induction over a machine that takes the same
steps in any order. Remote calls, clocks, randomness and classifiers are parameters that may answer
anything, including not at all. A lost answer (`lost`) is a call that took effect although its caller
only saw an error.

## What the code does against its own comments

- `services/deployer/src/record-deploy.ts:53-63`: the comment says an absent status keeps the recorded
  one; the code sets `running` (`RepeatDeployRestarts`).
- `services/facilitator/src/verify.ts:198-215`: balance, open reservations and reserve are called
  atomic per buyer, but settles do not take that lock: a debit that lands between the two reads lets a
  cap through that the balance cannot pay (`WindowRace`), and so does a reservation released while its
  debit is under way (`ReleaseRace`). `OwedWithinBacking` says by how much at most, `SolventExactly`
  when not at all, `FundedSince` from when on it is made good. The escrow contract then refuses the
  debit.
- `services/facilitator/src/verify.ts:217-245`: the nonce is read unused and reserved in separate awaits,
  so a replayed header can reserve a nonce whose debit landed in between (`ReplayRace`), and a handler
  runs on it (`HandlerOnUsedNonce`). `UsedNonceReservesExactly` says exactly when that can happen; the
  nonce is debited once all the same (`DebitedOnceWithinCap`).
- `packages/x402-arc/src/store.ts:105-140`: reservations, spent nonces and results are keyed on the
  nonce's text, while the signature and the contract see its bytes; one authorization sent in two letter
  cases is reserved twice, settled with two receipts and debited once (`TwoSpellingsOneDebit`). Once it is debited no
  spelling starts anew (`AnySpellingReservesExactly`).
- `services/facilitator/src/settle.ts:362-406`: a transaction that was mined and reverted gives a receipt
  and a spent nonce like one that succeeded (`RevertedReceipt`, `ReceiptsTrueExactly`).
- `packages/x402-arc/src/gate.ts:256-264`: a price term that is no integer text, or a size limit that is
  NaN or a fraction the response exceeds, throws after the handler ran, so the reservation is neither
  settled nor released until it expires (`SettledOrReleased`, `UnreadableExactly`).
- `services/deployer/src/redeploy.ts:52-75`: the record is read and written in separate awaits, so two
  redeploys can write one version and share a cache namespace (`OverlapSharesVersion`);
  `VersionsApartExactly` says which runs do.
- `packages/staking/src/refund.ts:114-116`: completion is recorded per payer, not per payment, so after a
  crash a second payment of the same payer is skipped for good (`PaysAllIffPayersDistinct`).
- `packages/treasury/src/cctp-funder.ts:294-310`: the message is claimed before the mint, so an abort in
  between leaves it claimed and never credited (`ClaimedCreditsOnlyIfHeld`).
- `apps/marketplace/src/publish.ts:326-357`: owner, existing creator and upsert are separate awaits; two
  publishes of one resource that overlap can replace even a resolved owner (`OwnerIsReplaced`).
  `RightfulExactly` says which runs keep every creator right, `CreatorIsRightful` that those without
  overlap do.
- `apps/marketplace/src/publish.ts:191-194`: pay-to is compared without letter case, the stores key on
  the text, so one resource can be listed once per spelling (`OneListingPerSpelling`, `TwoSpellingsList`).
- `services/facilitator/src/spend-cap-gate.ts:101-108`: a hold is refunded when the reservation is
  refused, but stays when asking for it throws (`PreReserveGate`).
- `services/deployer/src/cache.ts:72-73`: a number beyond the double range is keyed as null
  (`OverflowCollidesWithNull`).

## Model

| member | source | states |
|---|---|---|
| `JsonText.SortedKeysUnique` | services/deployer/src/cache.ts:68-70 | However an object enumerates its keys, sorting them has exactly one result, so the canonical text is independent of key order |
| `JsonReader.NumeralExactly` | services/deployer/src/cache.ts:84-93 | The numerals the reader takes are exactly those of the JSON grammar (section 6 of RFC 8259) |
| `JsonReader.ParsesExactly` | services/deployer/src/cache.ts:84-93 | Parsing takes exactly the texts of the JSON grammar, with any white space, escapes, empty gaps and repeated members, and gives each the value it stands for, of a repeated member the last |
| `JsonReader.CanonIsTight` | services/deployer/src/cache.ts:62-74 | The canonical text of a value is the text of a tree for it without white space, the members of every object in ascending order |
| `JsonReader.ValueReadsBack` | services/deployer/src/cache.ts:62-74 | Canonical text is self-delimiting: in front of anything a numeral cannot run into, a JSON reader (RFC 8259) consumes exactly it and gets the value back, with an overflowed number read as null |
| `JsonReader.CanonParsesBack` | services/deployer/src/cache.ts:62-74 | JSON.parse of the canonical text of a value gives that value, overflowed numbers as null |
| `JsonReader.CanonInjective` | services/deployer/src/cache.ts:62-74 | Two values have one canonical text if and only if they differ in nothing but overflowed numbers and nulls; string leaves stay opaque |
| `CacheKey.QueryInjective` | services/deployer/src/cache.ts:99-102 | Two queries have one canonical text only if they are the same map |
| `CacheKey.BodyText` | services/deployer/src/cache.ts:84-93 | A body that is a JSON text, however written, is keyed by the canonical text of the value it stands for, and any other body by itself |
| `CacheKey.WritingIsIrrelevant` | services/deployer/src/cache.ts:107-107 | Two texts for one value, whatever their white space, escapes and order of members, are keyed alike |
| `CacheKey.BodyUnambiguous` | services/deployer/src/cache.ts:84-93 | Two bodies have one canonical text if and only if both are JSON texts for one value, up to overflowed numbers and nulls, or neither is one and their texts agree, an absent body counting as empty text |
| `CacheKey.UpperExactly` | services/deployer/src/cache.ts:113-113 | The method part tells two methods apart if and only if they differ in more than the case of letters, and holds no small letter |
| `CacheKey.MaterialUnambiguous` | services/deployer/src/cache.ts:110-120 | Single-line requests have one key material if and only if their methods up to letter case, paths, query maps and bodies all agree |
| `CacheKey.FiniteBodiesUnambiguous` | services/deployer/src/cache.ts:76-93 | When no number overflows, requests that share key material carry the same parsed body |
| `CacheKey.OverflowCollidesWithNull` | services/deployer/src/cache.ts:72-73 | A body that is one overflowing number shares its key with the body null although the two parse differently |
| `CacheKey.LineBreakCollides` | services/deployer/src/cache.ts:115-120 | A line break in the path moves the border between method and path: why the main result asks for single lines |
| `CacheKey.NamespaceExact` | services/deployer/src/cache.ts:122-122 | A version namespace is a prefix of a key if and only if resource and version are the same: v1 never covers v10 |
| `CacheKey.KeyUnambiguous` | services/deployer/src/cache.ts:110-123 | Two calls use one cache entry if and only if resource, version and request agree |
| `ResponseCache.InMemoryResponseCache.Get` | services/deployer/src/stores/memory.ts:172-180 | Answers the body of an entry exactly until it expires, and deletes the entry then; the deletion is invisible at this and every later time |
| `ResponseCache.GetAnswersExactly` | services/deployer/src/stores/memory.ts:172-190 | After any calls, under a clock that has not run back, a get answers a body if and only if that was set last for the key, not deleted since, and less than its seconds to live ago |
| `ResponseCache.InMemoryResponseCache.DelByPrefix` | services/deployer/src/stores/memory.ts:186-190 | After the loop exactly the keys without the prefix are left, with their entries |
| `ResponseCache.DropExact` | services/deployer/src/redeploy.ts:76-81 | Deleting the old namespace removes the entries of that resource at that version and no others |
| `ResponseCache.HitIsRight` | services/deployer/src/cache.ts:167-178 | In a coherent cache a hit is what the handler of that version gives for that request |
| `ResponseCache.GetOrInvoke` | services/deployer/src/cache.ts:166-190 | A hit returns the stored body without the handler, a miss stores and returns what the handler gave, a handler that throws stores and bills nothing; a returned body has exactly one bill saying how it was served; a coherent cache answers as the handler would and stays coherent |
| `ResponseCache.ReturnedBodiesAreRightAndBilledOnce` | services/deployer/src/cache.ts:155-190 | In every interleaving of calls, redeploys (overlapping ones too), late stores, evictions and expiry, a returned body is what the handler of the version the call started at gives for its request, and the call has exactly one bill |
| `ResponseCache.UnansweredCallsAreNotBilled` | services/deployer/src/cache.ts:155-190 | A call that has obtained no body, or failed, has no bill; no bill lacks its call |
| `ResponseCache.CallsKeepTheirVersion` | services/deployer/src/cache.ts:136-167 | Whatever happens after a call starts, redeploys included, it keeps the resource, version and request it started with |
| `ResponseCache.HitsExactly` | services/deployer/src/cache.ts:166-178 | In every interleaving a call hits, with a body, if and only if some step stored that body for its key, none since stored or cleared the key, and it has not expired |
| `ResponseCache.CallCompletes` | services/deployer/src/cache.ts:155-190 | Wherever a run has come to, a resource that is deployed and called answers, at the version deployed |
| `Deployments.InMemoryDeploymentStore.Put` | services/deployer/src/stores/memory.ts:126-148 | Refuses a slug another resource holds before anything changes; else stores the record, frees the slug it held before, and keeps slugs and records inverse to each other |
| `Deployments.InMemoryDeploymentStore.GetBySlug` | services/deployer/src/stores/memory.ts:154-158 | Finds the one record that holds the slug, and null only when none does |
| `Deployments.Redeploy` | services/deployer/src/redeploy.ts:49-84 | Fails only for a resource never deployed; keeps agent id, id and slug, bumps the version by one, takes each part of the configuration that is given and keeps the others, and clears exactly the old namespace of the cache |
| `Deployments.RecordDeployment` | services/deployer/src/record-deploy.ts:47-83 | A first deploy is stored at version 1 unless its slug is taken, which changes nothing; a repeat deploy is a redeploy; records and slugs stay inverse |
| `Deployments.DeployRecords` | services/deployer/src/record-deploy.ts:47-83 | A first deploy is recorded at version 1 under its own slug and cap, running unless it says otherwise, unless another resource holds the slug; a repeat deploy is the next version of the record there was |
| `Deployments.IdentityIsPermanent` | services/deployer/src/record-deploy.ts:40-66 | Through every later history of deploys a resource keeps agent id and slug, and its version grows by exactly the number of its own deploys |
| `Deployments.LatestDeployApplies` | services/deployer/src/redeploy.ts:61-72 | Through every later history a resource runs under its latest deploy: that call's status and time, the last cap any of its deploys named; deploys of others leave its record as it was |
| `Deployments.SlugsAreUnique` | services/deployer/src/stores/memory.ts:71-84 | No history of deploys gives one slug to two resources |
| `Deployments.RepeatDeployRestarts` | services/deployer/src/record-deploy.ts:53-63 | A repeat deploy that names no status sets the resource running, so it keeps the recorded status if and only if that was running; redeploy itself always keeps it |
| `Deployments.VersionsApartExactly` | services/deployer/src/redeploy.ts:52-75 | Over every interleaving of the reads and writes of redeploys, every write of a resource gets a version of its own if and only if no redeploy that writes was overtaken: in the order of steps, none wrote its resource between its read and its write |
| `Deployments.VersionsDiffer` | services/deployer/src/redeploy.ts:52-75 | Then each later write of a resource has a greater version and a cache namespace of its own |
| `Deployments.OverlapSharesVersion` | services/deployer/src/redeploy.ts:52-75 | The smallest failing run: two redeploys that both read before either writes give their two configurations, whatever they are, one version |
| `PaymentStore.InMemoryPaymentStore.CheckLive` | packages/x402-arc/src/store.ts:112-120 | Tells whether the reservation is live and forgets it if it has expired |
| `PaymentStore.InMemoryPaymentStore.Reserve` | packages/x402-arc/src/store.ts:122-127 | Reserves unless the nonce is spent or live, as the lazy store step says |
| `PaymentStore.InMemoryPaymentStore.OutstandingReserved` | packages/x402-arc/src/store.ts:142-153 | The sum, over a snapshot of the keys, is the sum of the caps of the buyer's live reservations, letter case of the address ignored, and every expired reservation is gone after it |
| `PaymentStore.LazyRefinesEager` | packages/x402-arc/src/store.ts:105-153 | Under a clock that never runs back, every operation answers as in a store that drops each reservation the moment it expires |
| `PaymentStore.PendingExactly` | packages/x402-arc/src/store.ts:112-140 | Under a clock that never runs back a nonce is pending if and only if a reservation of it was accepted, has not expired, and was neither released nor spent since |
| `PaymentStore.LiveExactly` | packages/x402-arc/src/store.ts:142-153 | What counts against a buyer is exactly the pending reservations of that buyer, in any letter case |
| `PaymentStore.ClockMustNotRunBack` | packages/x402-arc/src/store.ts:112-120 | With a clock that runs back the lazy store can show a reservation the eager one has dropped |
| `PaymentStore.ReservedIsNotSpent` | packages/x402-arc/src/store.ts:122-136 | In every reachable state, reserved and spent nonces are disjoint |
| `PaymentStore.SpentStaysSpent` | packages/x402-arc/src/store.ts:133-136 | A spent nonce stays spent and unreserved through every later run |
| `PaymentStore.SpentIsNeverPending` | packages/x402-arc/src/store.ts:122-140 | A spent nonce never reads as pending again and can never be reserved again |
| `Metering.CeilIsLeastCover` | packages/x402-arc/src/metering.ts:12-12 | For non-negative quantities the ceiling division is the least number of units that covers them |
| `Metering.ChargeIsExact` | packages/x402-arc/src/metering.ts:32-56 | Whenever the price can be read, and whatever the signs, the charge is the smaller of the cap and the price of the units of time and of the bytes paid for: all of them, or as many as a finite limit allows; for a quantity not negative the least units that cover it |
| `Metering.ChargeMonotone` | packages/x402-arc/src/metering.ts:32-56 | With non-negative terms, a price that can be read at a size can be read at every smaller one, lies between zero and the cap, and never falls when bytes, milliseconds or the cap grow |
| `Metering.ChargeSaturates` | packages/x402-arc/src/metering.ts:42-47 | Bytes beyond an integer response limit change nothing |
| `Metering.UnreadableExactly` | packages/x402-arc/src/metering.ts:32-56 | The charge throws if and only if a price term is no integer text, or the size limit is NaN or minus infinity, or is a fraction the response exceeds |
| `Gate.RequirePayment.Handle` | packages/x402-arc/src/gate.ts:162-302 | For every answer of facilitator, handler and classifier, the middleware makes exactly the calls of the protocol machine, in order, and ends in its response |
| `Gate.RequirePayment.SettleOrRelease` | packages/x402-arc/src/gate.ts:229-254 | A settle that throws, is refused or has no receipt is followed by a release with a strike, as the protocol machine says |
| `Gate.ProtocolOrder` | packages/x402-arc/src/gate.ts:180-212 | The first call is the verify; the handler runs if and only if it reported a reservation, once and directly after it; a refused or lost verify is the only call made |
| `Gate.SettledOrReleased` | packages/x402-arc/src/gate.ts:198-302 | Past the verify the gate either serves a settled receipt or attempts a release, never both, if and only if the price of a success can be read: a malformed price term, or a size limit that is no integer where it bites, escapes with neither |
| `Gate.StrikeRule` | packages/x402-arc/src/gate.ts:256-302 | A strike is asked for exactly on a timeout, a thrown handler, a malfunction or a failed settle, with the reason of that, at most once a request, and never for a free declared error; every release is of the payment's own nonce |
| `Gate.SettlesWithinCap` | packages/x402-arc/src/gate.ts:256-294 | At most one settle is asked for, on the payment's own nonce, for a metered amount or an error price that is at most the signed cap and, with non-negative terms, not negative |
| `Gate.ChargeRule` | packages/x402-arc/src/gate.ts:256-294 | Past the verify a settle is asked for if and only if a readable success or a priced declared error makes something owed, and for exactly the smaller of the cap and the price of the units of the bytes paid for and of the time, or the error price |
| `Gate.ClientSees` | packages/x402-arc/src/gate.ts:198-302 | The client gets a receipt if and only if something was owed and settled, the handler's answer without one only for a declared error that costs nothing, and the matching error otherwise; an exception leaves the gate exactly when a release is lost or the price, its size limit included, cannot be read |
| `Facilitator.DebitedOnceWithinCap` | contracts/src/PaymentEscrow.sol:181-205 | Over every interleaving of the awaits of verifies and settles, replays in any spelling, releases and late or failing transactions, a signed nonce is debited at most once, for an amount some settle on it asked for, at most its signed cap |
| `Facilitator.BalanceIsDepositsLessDebits` | contracts/src/PaymentEscrow.sol:191-205 | In every such run each account holds exactly what was deposited for it less what its own nonces were debited |
| `Admission.DebitedWasReserved` | services/facilitator/src/app.ts:435-443 | In every such run a signed nonce is debited only if a verify of some spelling of it was let through: no authorization reaches the contract by the settle endpoint alone |
| `Admission.VerifyRefusesExactly` | services/facilitator/src/verify.ts:202-250 | Each check of a verify refuses exactly when it should: the balance short of the cap and what is open, the nonce pending, used or spent |
| `Admission.SettleEntry` | services/facilitator/src/app.ts:435-459 | A settle goes on if and only if a result is stored, or a reservation was pending and the authorization has not expired; a stored result is its answer and nothing is sent |
| `Admission.TakesExactly` | contracts/src/PaymentEscrow.sol:181-205 | The contract takes a debit of an unused nonce through the last second of its authorization, as long as the balance covers it |
| `Solvency.OwedWithinBacking` | services/facilitator/src/verify.ts:202-250 | In every such run, what a buyer's live reservations may still draw is at most the balance, the debits that landed on a nonce without a live reservation, and those that landed after one of the buyer's verifies had read the balance and before it summed the open reservations |
| `Solvency.LiveReservationsAreFunded` | packages/x402-arc/src/store.ts:66-72 | So while no such debit has landed, the caps of a buyer's live unpaid reservations together never exceed the balance |
| `Solvency.LiveReservationCanPay` | services/facilitator/src/settle.ts:338-362 | And then the debit of a live unpaid reservation never fails for want of balance |
| `Recovery.OwedWithinBackingSince` | services/facilitator/src/verify.ts:202-250 | Strays of the past do not matter for ever: from any reachable state in which a buyer is backed by the balance and no verify is under way, only such debits that land later count |
| `Recovery.FundedSince` | packages/x402-arc/src/store.ts:66-72 | From such a state on, the caps of the buyer's live unpaid reservations never exceed the balance while no debit strays, whatever strayed before |
| `Recovery.IdleRests` | packages/x402-arc/src/store.ts:142-153 | A buyer with no live reservation and no verify under way is always in such a state |
| `Races.WindowRace` | services/facilitator/src/verify.ts:202-215 | A run from the start in which a settle of the buyer lands between the balance read and the sum of open reservations: the code then reserves a cap of which the balance holds nothing |
| `Races.ReleaseRace` | services/facilitator/src/app.ts:326-344 | A run from the start in which a reservation is released while its debit is under way, and the whole balance is promised to another |
| `Races.SolventExactly` | services/facilitator/src/verify.ts:198-250 | Runs that allow so much to be debited without a live reservation, and so much between a verify's two reads, all keep what is owed within the balance if and only if both are nothing |
| `Races.UsedNonceReservesExactly` | services/facilitator/src/verify.ts:217-245 | From any state in which a signed nonce is debited, some continuation reserves it again under a spelling if and only if a verify that read that spelling unused has yet to reserve and no settle has marked it spent |
| `Races.ReplayRace` | services/facilitator/src/verify.ts:217-245 | A run from the start that debits a nonce and then reserves it again |
| `Spellings.AnySpellingReservesExactly` | services/facilitator/src/verify.ts:217-245 | Once a signed nonce is debited, some continuation reserves it under some spelling if and only if a verify of some spelling read it unused before and has yet to reserve, and that spelling is not marked spent |
| `Spellings.TwoSpellingsOneDebit` | packages/x402-arc/src/store.ts:105-140 | For any two spellings of one signed nonce there is a run from the start in which both are reserved and both settle with a receipt of the full amount, while the buyer is debited once |
| `Receipts.SucceededIsTrue` | services/facilitator/src/settle.ts:346-406 | In every run, a receipt rebuilt from the event, or whose transaction succeeded, states what the nonce was debited, whether fresh or cached |
| `Receipts.RevertedReceipt` | services/facilitator/src/settle.ts:362-406 | A run from the start in which a transaction reverts, its settle answers a receipt all the same, and the nonce is marked spent without a debit |
| `Receipts.ReceiptsTrueExactly` | services/facilitator/src/settle.ts:362-406 | Runs with at most so many reverted transactions answer only true receipts if and only if none is allowed |
| `Escrow.FacilitatorRuns` | packages/x402-arc/src/gate.ts:162-302 | The facilitator's side of any run of gates and facilitator is one of its own runs, so all of the above holds of it |
| `Escrow.ReceiptsAndReservations` | services/facilitator/src/app.ts:435-488 | A handler ran only on a reservation its own request obtained, at a gate of the resource the authorization names; a receipt a request ends with is its own settle's answer, and states the debit unless the transaction reverted |
| `Escrow.DebitIsTheCharge` | packages/x402-arc/src/gate.ts:256-294 | Over every interleaving and replay, what a signed nonce was debited is exactly what some handler outcome on a spelling of it owes, by the price of a gate of the resource the authorization names: the metered charge or the error price, clamped to the cap |
| `Escrow.UsedNonceServesNoMore` | services/facilitator/src/verify.ts:217-245 | A handler that runs on a nonce debited before, when it is marked spent or no verify that read it unused is under way, runs on a reservation obtained before the debit |
| `Escrow.HandlerOnUsedNonce` | packages/x402-arc/src/gate.ts:180-254 | A run from the start of gates and facilitator in which the gate loses a settle's answer and releases, a replay of the header reads the nonce unused, the debit lands, and a handler runs on the nonce a second time |
| `Escrow.HearsExactly` | packages/x402-arc/src/gate.ts:180-254 | What a request makes of each answer: a reservation runs the handler, a refusal is the challenge, a receipt is served, a settle without one or lost is released with a strike |
| `Escrow.ServedInFull` | packages/x402-arc/src/gate.ts:180-294 | A run from the start of gates and facilitator in which a request is served with a receipt of exactly what its nonce was debited |
| `SpendCap.InMemorySpendCapStore.RecordSpend` | packages/data-proxy/src/spend-cap.ts:97-108 | Trims to the window, appends a non-zero spend, and returns the rolling total with it |
| `SpendCap.InMemorySpendCapStore.TryRecordSpend` | packages/data-proxy/src/spend-cap.ts:118-137 | Allows if and only if the rolling total and the amount stay within the cap, and holds the spend only then |
| `SpendCap.InMemorySpendCapStore.RefundSpend` | packages/data-proxy/src/spend-cap.ts:140-150 | Removes one entry of that amount and time, the first, if the window still holds one |
| `SpendCap.SpendCapGate` | packages/data-proxy/src/spend-cap.ts:166-176 | Decides by the rolling total; no later reading of any payer's window is changed |
| `SpendCap.PreReserveGate` | services/facilitator/src/spend-cap-gate.ts:88-115 | Denies without holding; a refused reservation leaves exactly the spends of the window there was; an allowed call, and a reservation that throws, leave the spend held |
| `SpendCap.TrimmedDecidesAsFull` | packages/data-proxy/src/spend-cap.ts:118-150 | Along every run with refunds at their original time and a clock that advances, the trimmed list accepts a spend if and only if the full history would |
| `SpendCap.AcceptsExactly` | packages/data-proxy/src/spend-cap.ts:118-137 | Along every run the store accepts a spend if and only if it and the accepted and unrefunded spends of the 24 hours up to it come to the cap at most |
| `SpendCap.WindowNeverExceedsCap` | packages/data-proxy/src/spend-cap.ts:118-150 | At every instant, a call time or not, the accepted and unrefunded spends of the 24 hours up to it sum to at most the cap |
| `Naming.KebabIsGrammar` | packages/plugin-gen/src/naming.ts:61-63 | The kebab test accepts exactly the words of letters and digits joined by single hyphens |
| `Naming.KebabOfIsKebab` | packages/plugin-gen/src/naming.ts:30-40 | Whatever lower-casing made of the input, the result is kebab, within the bound, and unchanged by normalising it again |
| `Naming.ToKebabIsKebab` | packages/plugin-gen/src/naming.ts:30-40 | The normaliser gives a kebab name within the bound for every input, and is idempotent |
| `Naming.NameKeepsWords` | packages/plugin-gen/src/naming.ts:30-40 | The name is the runs of small letters and digits of the text joined by hyphens; the fallback where there is none; and where that is too long its longest front that fits and ends in no hyphen |
| `Naming.PluginNameIsValid` | packages/plugin-gen/src/naming.ts:47-50 | The name of an endpoint plugin is valid for every slug |
| `Naming.BoundedSuffixIsKebab` | packages/plugin-gen/src/naming.ts:76-80 | A suffixed kebab name is kebab, and within the bound if and only if the suffix is at most the bound less two |
| `Naming.BoundedSuffixKeeps` | packages/plugin-gen/src/naming.ts:76-80 | A suffixed name keeps the whole name where there is room, else a front of it, and ends in the suffix |
| `Naming.HexIsWord` | packages/plugin-gen/src/naming.ts:10-12 | A well-formed resource id gives a collision suffix of six letters and digits |
| `Naming.HexOfId` | packages/plugin-gen/src/naming.ts:10-12 | That suffix is the first six hex digits of the id in small letters |
| `Naming.BytesExactly` | packages/plugin-gen/src/naming.ts:82-85 | A resource id is well formed if and only if it is 0x and 64 hex digits, white space around it aside |
| `Marketplace.CandidatesDiffer` | packages/plugin-gen/src/marketplace.ts:70-76 | Names tried under different numbers differ |
| `Marketplace.Uniquify` | packages/plugin-gen/src/marketplace.ts:68-78 | The loop ends for every finite set of used names, within two tries more than there are names, with the first candidate that is not in use |
| `Marketplace.UniqueNameIsValid` | packages/plugin-gen/src/marketplace.ts:68-78 | For a well-formed resource id the de-duplicated name is a valid plugin name |
| `Marketplace.PathInjective` | packages/plugin-gen/src/marketplace.ts:137-139 | Two plugin files have one path only if plugin and file are the same |
| `Marketplace.PathIsNotManifest` | packages/plugin-gen/src/marketplace.ts:188-188 | No plugin file can be the marketplace manifest |
| `Marketplace.BuildMarketplace` | packages/plugin-gen/src/marketplace.ts:111-191 | Fails only for a reserved or malformed marketplace name or a malformed resource id; the base plugin comes first, then for each resource in order the name of its slug, or where that is taken the first suffixed one that is free; the names are pairwise distinct and valid, every plugin keeps every file it brought, and the manifest lists exactly the plugins |
| `Marketplace.FileCount` | packages/plugin-gen/src/plugin.ts:105-115 | The files are four of the base plugin and three of each endpoint |
| `Marketplace.PluginsAreWhole` | packages/plugin-gen/src/plugin.ts:105-115 | Every plugin brings its manifest, its readme and a skill in a directory with a valid name |
| `DiskLayout.SourceNamesDirectory` | packages/plugin-gen/src/marketplace.ts:51-61 | For every plugin root and name, the source in the manifest names the very directory the plugin's file keys are written under: empty and "." segments aside, the root's segments and then the name |
| `DiskLayout.WriterTakesExactly` | packages/plugin-gen/src/write.ts:18-30 | The writer takes a plugin's file if and only if no segment of the plugin root is ".." and the directory written to is not the top one, whose path with a separator no path starts with |
| `DiskLayout.FilesApartOnDisk` | packages/plugin-gen/src/write.ts:18-30 | Two different files of a marketplace never land in one place on disk, and none lands on the manifest, however the plugin root is spelled |
| `Refund.AffectedExactly` | packages/staking/src/refund.ts:63-77 | The affected list is exactly the settled payments of the resource in the window, both ends included, in their order, with payer and amount as paid |
| `Refund.BuyerKeyUnambiguous` | packages/staking/src/refund.ts:114-143 | Two completion records are the same if and only if resource, window and payer agree, letter case of the payer ignored |
| `Refund.ExecuteRefund` | packages/staking/src/refund.ts:183-255 | One attempt with a revert at any write: exactly which rows were paid and marked, what left the pool, and the refunded, skipped and total it reports |
| `Refund.NoRowPaidTwice` | packages/staking/src/refund.ts:183-251 | Over every sequence of crashing attempts no affected row is paid twice, and every paid row is marked |
| `Refund.ReturnPaysAll` | packages/staking/src/refund.ts:183-255 | With payers that differ beyond letter case, an attempt that returns normally leaves every affected row paid, by a broadcast refund, exactly once |
| `Refund.RevertedIsNotRepaid` | packages/staking/src/refund.ts:238-251 | A refund that was broadcast is sent again by no later attempt, whatever became of it |
| `Refund.SharedPayerIsSkipped` | packages/staking/src/refund.ts:208-214 | A second affected row of a payer already marked is skipped by the retry and never paid |
| `Refund.PaysAllIffPayersDistinct` | packages/staking/src/refund.ts:183-255 | Every schedule of crashes and retries that ends in a normal return has paid every row if and only if no two affected rows share a payer |
| `Refund.SkippedAndPendingPartition` | packages/staking/src/refund.ts:206-214 | Skipped and refunded rows partition the affected list |
| `Refund.NeverBeyondPool` | packages/staking/src/refund.ts:221-236 | No attempt pays anything unless the pool covers every row still unpaid |
| `Strikes.FoldCharacterised` | packages/ai-scorer/src/strikes.ts:118-176 | After any probe history the counter is the length of the longest failing suffix, the resource is active if and only if no five failures in a row occurred, and every probe is counted |
| `Strikes.DeactivationCharacterised` | packages/ai-scorer/src/strikes.ts:140-165 | Deactivation is reported exactly at the end of the first run of five failures, with a review of exactly five for that resource and probe |
| `Strikes.MarkerIsFirstFive` | packages/ai-scorer/src/strikes.ts:145-154 | The stored marker is present if and only if five failures in a row occurred, and is the probe that completed the first such run |
| `Strikes.DeactivatedOnce` | packages/ai-scorer/src/strikes.ts:141-143 | No history reports deactivation twice |
| `Strikes.ScoreClosedForm` | packages/ai-scorer/src/strikes.ts:123-125 | Over the reals the score is its closed-form weighted sum, lies in [0,1], and the clamp never acts |
| `Schedule.ScoringLoop.Tick` | packages/ai-scorer/src/schedule.ts:102-131 | A failed probe or apply is reported and the tick goes on: exactly the answered probes are folded, each into its own resource, and handed over in order |
| `Schedule.OutcomesExactly` | packages/ai-scorer/src/schedule.ts:102-131 | What a tick folds is the outcomes of exactly the targets whose probe answered, in target order |
| `Schedule.FailuresExactly` | packages/ai-scorer/src/schedule.ts:102-131 | What a tick reports is exactly the targets whose probe or apply failed, in target order, each as what it was |
| `Schedule.TickCompletes` | packages/ai-scorer/src/schedule.ts:102-131 | In every run a new tick that nothing overlaps folds exactly those outcomes |
| `Schedule.OthersUntouched` | packages/ai-scorer/src/schedule.ts:103-120 | A resource without an answered probe keeps its state |
| `Schedule.OverlapLosesNothing` | packages/ai-scorer/src/schedule.ts:102-131 | Under any overlap of ticks each stored state is the fold of that resource's answered probes in completion order |
| `Schedule.HandOverReported` | packages/ai-scorer/src/schedule.ts:118-124 | Each hand-over carries what the reducer reports at that probe of the resource's whole history |
| `Schedule.DeactivationHandedOverOnce` | packages/ai-scorer/src/schedule.ts:118-124 | Under any overlap a resource's deactivation is handed over at most once |
| `Schedule.DeactivationHasFive` | packages/ai-scorer/src/schedule.ts:118-124 | A handed-over deactivation carries a review of five for its resource, whose history has five failures in a row |
| `Slash.RecordSlashAuthorization` | packages/staking/src/slash.ts:133-181 | Writes one registry authorization exactly when the amount is positive, the review reached the strike limit and, where the bond can be read, the bond covers it; refusals write nothing and come in that order |
| `Slash.ExecuteMaturedSlash` | packages/staking/src/slash.ts:198-248 | Writes one vault slash exactly when a pending authorization of that amount has matured by the caller's clock; premature, mismatched and unrecorded runs write nothing and say why |
| `Slash.BroadcastIsBacked` | packages/staking/src/slash.ts:198-248 | In every run of probes, records, executions, landings, cancellations and withdrawals, a vault slash is broadcast only for a resource that failed five probes in a row, under an accepted authorization of exactly that positive amount (at most the bond read for it) whose window had passed |
| `Slash.EverySlashIsAuthorised` | contracts/src/ResourceRegistry.sol:233-271 | A bond is cut only under such an authorization, a full dispute window after it was accepted; a cancelled one never cuts, and none cuts twice |
| `Slash.CancelledNeverCuts` | contracts/src/ResourceRegistry.sol:233-271 | Once the pending authorization of a resource is cancelled, whatever is broadcast already or later, it is pending no more and cuts no bond |
| `Slash.RunLands` | contracts/src/ResourceRegistry.sol:233-271 | Every authorization and every cut comes from a transaction of its own that landed, an authorization for a registered resource |
| `Slash.SlashGoesThrough` | packages/staking/src/slash.ts:133-248 | In every run a review that was handed over can be made good: for a registered resource any positive amount the bond covers moves to the pool once the dispute window has passed |
| `Slash.CustodyIsConserved` | contracts/src/StakingVault.sol:180-193 | Slashing moves money from bond to pool only: the vault holds what was deposited less what was withdrawn and refunded, and no bond and no pool goes negative |
| `Slash.LandsExactly` | packages/staking/src/slash.ts:232-247 | A broadcast that lands at once cuts the bond if and only if the bond still covers the amount, which the driver does not read again |
| `Cctp.InMemoryNonceStore.Claim` | packages/treasury/src/cctp-funder.ts:210-216 | True exactly once for each key |
| `Cctp.CctpFunder.Fund` | packages/treasury/src/cctp-funder.ts:263-327 | One call takes exactly the protocol's steps whatever fails or is lost; it returns if and only if everything succeeds, the message is new and no more is minted than burned, and has then credited the recipient exactly what it reports minted |
| `Cctp.AlonePlays` | packages/treasury/src/cctp-funder.ts:263-327 | From any state of the interleaved system, a new call that nothing interrupts does what the one call does |
| `Cctp.CreditedOnce` | packages/treasury/src/cctp-funder.ts:290-324 | Over every interleaving and replay no message text is credited twice, no call credits twice, and no message text is minted twice or without passing the verifier |
| `Cctp.CreditWithinBurn` | packages/treasury/src/cctp-funder.ts:302-324 | Each credit is exactly what was minted for that call, at most that call's own burn, and goes to its recipient |
| `Cctp.ReturnReportsCredit` | packages/treasury/src/cctp-funder.ts:322-326 | A call that returns has credited exactly the amount it reports |
| `Cctp.TotalWithinBurned` | packages/treasury/src/cctp-funder.ts:263-327 | In total no more is credited than was burned |
| `Cctp.ClaimedCreditsOnlyIfHeld` | packages/treasury/src/cctp-funder.ts:290-324 | The claim is spent before the mint: a claimed message can still be credited if and only if a call holds it between claim and credit, so after an abort there no retry ever credits it |
| `Publish.InMemoryIndexStore.Delist` | apps/marketplace/src/index-store.ts:113-118 | Clears the active flag of a known resource and changes nothing else |
| `Publish.PublishPipeline.PublishResource` | apps/marketplace/src/publish.ts:234-360 | The gates run in their order and stop at the first that fails; the stores change only past all of them, card before record; the stored card is the minted one marked verified with the posted bond, and the record shows, field by field, what the request, the card's own prices, the mint and the bond read say, under the owner, the recorded or the claimed creator |
| `Publish.ListedHasItsCard` | apps/marketplace/src/publish.ts:297-357 | Whatever interleaves or aborts, a listed resource has a stored card that validates and pays to that resource; when one publish wrote both, the record mirrors the card |
| `Publish.ActiveExactly` | apps/marketplace/src/index-store.ts:113-118 | In every interleaving a record is active if and only if some publish listed it and nothing has taken it off since |
| `Publish.OneListingPerSpelling` | apps/marketplace/src/publish.ts:191-194 | Two listings collect for one resource if and only if their ids differ in letter case alone: the stores key on the text, the pay-to check ignores case |
| `Publish.TwoSpellingsList` | apps/marketplace/src/publish.ts:191-194 | For any two admitted publishes whose ids differ in letter case alone there is a run from the start that lists both, with cards that pay to one resource |
| `Publish.ApartIsNeverStale` | apps/marketplace/src/publish.ts:326-357 | If in the order of steps no publish lists a resource while another publish of it is between its index read and its upsert, no upsert of the run is stale |
| `Publish.CreatorIsRightful` | apps/marketplace/src/publish.ts:326-340 | In every run whose publishes of one resource do not overlap so, a listing belongs to the on-chain owner for good once that was resolved at a listing, and until then to the first creator claimed |
| `Publish.UpsertExactly` | apps/marketplace/src/publish.ts:326-357 | An upsert leaves the resource with its rightful creator if and only if it is not stale: it resolved the owner, or the creator it read is still current, or it claims the current one |
| `Publish.RightfulExactly` | apps/marketplace/src/publish.ts:326-357 | A run keeps every resource with its rightful creator at every step if and only if none of its upserts is stale |
| `Publish.OverlapTakesOver` | apps/marketplace/src/publish.ts:326-357 | Two overlapping first publishes leave the listing with what the last to list claimed, even over the on-chain owner the other had resolved |
| `Publish.OwnerIsReplaced` | apps/marketplace/src/publish.ts:326-357 | For any two admitted publishes of one resource, one that resolves the owner and one that does not, there is a run from the start that lists the owner and ends with what the other claimed |
| `Allowlist.PackedOctets` | packages/data-proxy/src/allowlist.ts:46-48 | Packing four octets by shift-and-or and extracting them again gives the octets back |
| `Allowlist.OctetsPacked` | packages/data-proxy/src/allowlist.ts:97-97 | Every 32-bit address is the packing of its own octets |
| `Allowlist.BlockedIsUnionOfRanges` | packages/data-proxy/src/allowlist.ts:46-62 | The octet tests hold exactly for the addresses in the union of the six CIDR blocks |
| `Allowlist.ParsesExactly` | packages/data-proxy/src/allowlist.ts:91-98 | A text parses to an address if and only if it is four decimal spellings, of one to three digits each, of that address's octets |
| `Allowlist.DottedReadsBack` | packages/data-proxy/src/allowlist.ts:91-98 | The plain dotted form of an address parses to it |
| `Allowlist.PassesExactly` | packages/data-proxy/src/allowlist.ts:141-213 | Default deny: a request passes, as a host, if and only if that is the host it asks for without brackets, capitals and one dot at its end, some entry of the allowlist names it, and it is not localhost, no IPv6 literal and no number with or without dots |
| `Allowlist.NumericExactly` | packages/data-proxy/src/allowlist.ts:107-125 | The numeric test refuses exactly decimal, octal and hexadecimal numbers and such with dots between them |
| `Allowlist.LiteralsNeverPass` | packages/data-proxy/src/allowlist.ts:167-213 | So nothing that passes is an IPv4 address in a spelling of inet_aton, an IPv6 literal or localhost, whatever the allowlist holds |
| `Allowlist.ResolveAndCheckHost` | packages/data-proxy/src/allowlist.ts:253-289 | Accepts if and only if the pre-filter passed, resolution brought records and every one of them passes, and then returns all of them in order; each refusal has its reason |
| `Allowlist.PublicIsOutside` | packages/data-proxy/src/allowlist.ts:280-284 | An IPv4 record passes if and only if it spells an address outside every blocked range |

## Left out

- HTTP routing, header and body plumbing, streams, timers (`start` and `stop` of the scoring loop), containers, reverse proxy, loggers, metrics and environment selection.
- Signatures, keccak and JSON-schema validation: the signed authorization of a nonce and card validity are parameters; SHA-256 is any injective digest.
- KeyUnambiguous: the digest is injective on the text; its UTF-8 encoding, which maps every lone surrogate of a raw body or path to U+FFFD, is not modelled, so keys of such texts can meet.
- Doubles: how a numeral is read and printed is a parameter (`Faithful`) that says only that a printed numeral reads as itself; the rolling score is over the reals.
- Letter case outside ASCII: `Lower` and `Upper` change ASCII letters only. `KebabOfIsKebab` covers any lower-casing; a method name is ASCII by HTTP.
- ReservedIsNotSpent: speaks of one process; the Redis and Postgres adapters are not modelled.
- LiveReservationsAreFunded: no withdrawal from the escrow balance; the split of a debit between creator and treasury enters as deposits.
- DebitedOnceWithinCap: the batch settler and the exact (EIP-3009) scheme are not steps; a debit the contract would refuse as things stand is not broadcast, as the node refuses it when it estimates gas; chain and facilitator share one clock.
- UsedNonceReservesExactly: the sanctions screen, the spend-cap gate in front of a verify and the caller's authorization are not steps; they only refuse.
- The revenue ledger: an append keyed on the nonce; a stored result may be dropped at any step, its timeout is not counted.
- ReturnedBodiesAreRightAndBilledOnce: one deterministic handler per version number; when redeploys overlap (OverlapSharesVersion) two configurations share a number, and which of them answers is not said.
- Uniquify: for ids that are not bytes32 the suffix is covered, name validity is not; file contents (skills, readmes, manifests) are opaque.
- BuildMarketplace: descriptions, modes and the other rendering options are not modelled; at most 2^32 - 1 resources, the length limit of an array.
- WriterTakesExactly: the root directory is given by its resolved place, as POSIX paths spell it; drive letters are not modelled.
- NoRowPaidTwice: a crash between a refund write and its mark, and attempts that run at the same time, are excluded; there the code relies on an operator.
- BroadcastIsBacked: reviews come from the scoring loop and authorizations from this driver only; a bond owner's withdrawal cooldown and the roles of the contracts are dropped, so more runs are covered.
- LandsExactly: the driver does not look at the receipt's status, so `executed` can be reported for a transaction that reverted.
- ExecuteRefund: a refund counts as paid when it is broadcast; whether the transaction later reverts is not looked at by the code, and RevertedIsNotRepaid says that it is then never sent again.
- ReturnPaysAll: paid means broadcast, as for ExecuteRefund.
- CreditedOnce: messages are keyed by their hex text, as the nonce store keys them; two spellings of one message that differ in letter case count as two.
- TotalWithinBurned: the burned message and the attested one are not tied to each other; the code does not compare them.
- PublishResource: moderation, bond floor, probe and mint are oracles; a publish without a card store is not modelled, nor is `list`.
- CreatorIsRightful: the owner read gives one fixed owner or none; of runs with overlapping publishes RightfulExactly says which are right, not who holds the listing in the others.
- Allowlist.IsAllowlisted: URL parsing is a parameter (the raw host); how IPv6 text is classified is a parameter of the resolved-address check; DNS is an oracle.
- LiteralsNeverPass: says nothing of names that resolve to blocked addresses; ResolveAndCheckHost does.
- Price floors, cost attribution, launch admission, discovery filters, alerts and quotas: short arithmetic or filters with no state of their own.
- The language-model generation pipeline, the studio and the buyer's SDK.
