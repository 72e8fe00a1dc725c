# The transaction engine, modelled and proved

This project models the path from a submitted transaction envelope to a changed
ledger in an in-process Stellar/Soroban test harness: signature checking,
validation, charging, the operation, the refund, the enforcing ledger the Soroban
host runs against, the fee quote of a simulation, and the RPC adapter's
submit-and-poll state machine. It is written in Dafny 4.11; `dafny verify
dfyconfig.toml` checks all of it.

Each part of the source appears twice. What the code computes is a function on
values (`Decide`, `Sent`, `Submitted`, `Handled`, ...), and where the code works
by changing things step by step there is a method or a class with the same loops,
branches and early exits whose contract equates its results and its new state
with that function. The laws are lemmas about the functions, so they hold of the
methods. What the functions compute is in turn stated without them, from the
fields of the envelope, the ledger and the host's answer: `SendLaws`, `Acceptance`
and `OutcomeLaws` do this for one submission as a whole, `FootprintLaws` for the
footprint operations and what they cost, `RpcLaws` for the adapter.

| module | what it covers |
|---|---|
| `Sequences`, `Xdr` | sums and filters; the ledger's entities and their XDR sizes (RFC 4506, section 4) |
| `Signatures` | the signature checker shared by all checks of an envelope, and the plain weight sum |
| `Accounts` | loading, storing, bumping and debiting accounts; the two account promotions |
| `Host` | what the engine calls but does not contain, with the assumptions made of it |
| `Fees` | inclusion fees, the fee-bump rate, resource fees, the preflight quote |
| `Environment`, `EnvironmentLaws` | the enforcing ledger: `send`, snapshots, module cache |
| `SendLaws` | what one `send` hands the host, answers and leaves, read off the ledger and the host's outcome |
| `FootprintOps`, `FootprintLaws` | ExtendFootprintTTL and RestoreFootprint: preflight, application, and both together |
| `OverflowExample` | an extension that archives and a restoration that does not restore, near the last ledger number |
| `Validation`, `Transactions`, `TransactionLaws` | the ordered validator, the commit, and what one submission guarantees |
| `Acceptance` | the validator read off the envelope's fields: what each answer stands for, and in what order |
| `OutcomeLaws` | what a submission reports and leaves, item by item: its fee, its result, and every account |
| `Authorization` | who must have signed an accepted envelope, and which signatures it may carry |
| `Padding`, `PaddingExample` | whether an accepted envelope survives one more signature; a concrete one that does |
| `SimulationLaws` | from a footprint operation's simulation to its submission |
| `Rpc`, `RpcLaws` | the RPC adapter, and what whole runs of it guarantee |

## What is assumed

Cryptography, hashing, the Soroban host, its fee formulas and its Wasm parser are
function-valued fields of `Host.Oracles`. Nothing is assumed of them except where
a lemma says so, by one of these predicates:

- `Host.HostAssumptions`: a change the host reports names a footprint key and
  carries that key's entry, a read-only one carries no new value, an account is
  never removed and keeps its sequence number, signers, thresholds and extension,
  and a created account has no sequence stamp.
- `Host.FeeAssumptions`: fees are not negative and grow with every resource; the
  refundable half prices the events alone.
- `RpcLaws.CollisionFree`: envelopes of one hash are of one transaction (only for
  "a stored result is never overwritten").
- `Signatures.AtMostOneSigner`, `Signatures.DistinctCandidates`: each signature
  verifies for at most one listed signer of each type (only for the exact meaning
  of a check; its soundness needs nothing).
- `Signatures.LengthsVerified`: an ed25519 signature that verifies is of 64 bytes
  (only for the plain weight sum).

## Main results

- **Replay safety.** However the adapter is used, the sequence numbers applied for
  each source strictly increase, no transaction applies twice on its own or inside
  a fee bump, and a stored result is final (`NothingAppliesTwice`,
  `ReplayRefused`, `ResultsAreFinal`, `SequenceFollowsHistory`).
- **Fee conservation.** The payer's balance falls by exactly the reported fee,
  apart from what the operation does to it; the fee is the non-refundable part plus
  what was consumed plus the base fee per operation (`FeeIsConserved`). Over whole
  runs every account loses exactly the fees reported for what it paid for, apart
  from what operations did to it and the friendbot's funding
  (`BalanceFollowsHistory`); an account no invocation may write gets nothing of
  that kind (`QuietInflows`).
- **What is answered.** Of every envelope: which test it is refused for, in what
  order, and with which fee and inner code (`ValidatorAnswers`, `BumpAnswered`,
  `RefusalReports`); of every one that applies, its operation's result and keys,
  its non-refundable fee, its rent and its events fee (`AppliedReports`), and what
  becomes of every account, signers and thresholds included (`AccountAfter`).
- **Authorization.** An accepted envelope carries a genuine matching for its
  source, its extra signers and its operation, and no idle signature
  (`AcceptedIsAuthorized`); a well-formed envelope is accepted exactly if its
  parties signed with enough weight and every signature was needed when its turn
  came (`AcceptanceMeaning`). Both halves of that are declarative: the greedy
  early-exit matcher is satisfied iff enough weight is matched at all
  (`CheckMeaning`), and it counts exactly the signatures that are the first for
  some signer while what came before does not suffice (`CheckCounts`).
- **Padding.** Exactly when an accepted envelope survives one more signature
  (`PaddedEnvelopeAcceptedIff`), and that it never does when that signature comes
  too late for every check (`PaddedEnvelopeRejected`), as it must when beside
  PRE_AUTH_TX signers each list has signers of one type (`OneTypePaddingRejected`).
- **The enforcing ledger.** What the host is called with (`HostIsHanded`); exactly
  when `send` fails, why, and what it consumes (`SendAnswers`); what it leaves and
  reports of any key, by the last of the host's changes that affect it
  (`SendLeaves`); that it is all or nothing; that a rollback is exact; and that the
  module cache kept outside the rollbacks is never wrong and holds exactly what it
  should (`RunCacheSound`, `CacheIsExact`).
- **Simulation agrees with submission.** Restoring or extending exactly what a
  simulation returned does exactly what was simulated, through the whole
  submission: exactly when it succeeds, which TTL every key gets, and that nothing
  else moves (`RestoreSimulatedThenSubmitted`, `ExtendSimulatedThenSubmitted`);
  the quoted fee covers the submission (`QuotedSubmissionCovered`).

## Findings

Properties the source states or suggests that its code does not always have, each
with the exact condition under which the code does have it and, where named, a
lemma that exhibits an input on which it does not.

- Signature padding. "One more signature is always refused" fails when the added
  signature verifies for a signer of a type that is tried before the type that
  satisfied a check: a HASH_X preimage can satisfy the source's check in an earlier
  pass, while the ed25519 signature it displaces is still counted by the
  operation's check. `PaddingExample.PaddingAccepted` is an envelope that applies
  both ways; `PaddedEnvelopeAcceptedIff` and `PaddedBumpAcceptedIff` are the exact
  conditions. Where no such signer exists, in particular with PRE_AUTH_TX signers
  beside at most one other type, padding is always refused.
- The order of signatures. Whether the checks are satisfied does not depend on it
  (`CheckIgnoresOrder`), whether a signature is left idle does: the same two
  signatures can be accepted in one order and refused in the other
  (`Padding.IdleDependsOnOrder`).
- Extensions near the end of the ledger numbers. The JavaScript sum
  ledger + extendTo is not reduced before it crosses to Rust as a u32, so past
  2^32 - 1 it wraps, while the simulation saturates and accepts. Such an extension
  can succeed, is then charged for, and archives every key it moves
  (`OverflowExample.ExtensionArchives`). TTLs do not fall iff the sum fits a u32
  (`ExtendRaisesTtlsIff`).
- Restorations in one ledger. Where ledger + minPersistentTTL - 1 is exactly 2^32
  the simulation in the ledger before still accepts, and the restoration succeeds,
  is charged for, and leaves its keys archived with TTL 0
  (`OverflowExample.RestorationDoesNotRestore`). After an accepted simulation its
  keys live iff the sum fits a u32 (`RestoreSimulatedThenApplied`).
- A restoration whose entries total more than a u32 holds is simulated with a
  saturated byte count and then refused when applied: `RestoreSimulatedThenApplied`
  states exactly that condition.
- The quote's size estimate measures a `TransactionV1Envelope`, four bytes less
  than the `TransactionEnvelope` a submission is priced on
  (`crates/host-wasm/src/fees.rs:211-242` against `src/classic.ts:629`). The
  estimate alone is therefore not an upper bound (`EstimateMissesTypeWord`); its
  500-byte padding makes it one (`EstimateBoundsEnvelope`, `QuoteCoversSubmission`).
- A signature of the wrong length. The checker treats it as one that does not
  verify, `signatureWeight` throws; `CheckRefinesWeight` says exactly when, and
  that otherwise the two agree.

## Model

| member | source | states |
|---|---|---|
| `Signatures.SignatureChecker.CheckSignature` | src/classic.ts:323-375 | the four passes with their shared total answer `Decide` and mark in `used` exactly the signatures counted; the answer ignores earlier marks |
| `Signatures.SignatureChecker.VerifyAll` | src/classic.ts:335-349 | the splicing loop over one signer type equals one recursive pass, marks included |
| `Signatures.SignatureChecker.MatchPreAuth` | src/classic.ts:328-333 | the PRE_AUTH_TX loop counts the signers that pre-authorized this hash and stops once satisfied |
| `Signatures.SignatureChecker.CheckAllSignaturesUsed` | src/classic.ts:378-380 | true iff every signature is marked |
| `Signatures.VerifiesMeaning` | src/classic.ts:351-375 | whom a signature proves: an ed25519 key over the contents hash, the hash it is a preimage of, or a key over its own payload and not the hash, with the last four bytes as hint, mixed with the payload's for a payload signer |
| `Signatures.CheckMeaning` | src/classic.ts:323-375 | the greedy early-exit check is satisfied iff someone is matched and the capped weights of all matched signers reach the needed weight |
| `Signatures.CheckCounts` | src/classic.ts:323-375 | and it counts signature k iff, for some type, k is the first to verify for some signer and everyone matched before does not satisfy the check |
| `Signatures.PassCounts` | src/classic.ts:335-349 | the same for one splicing pass, whatever total it starts from |
| `Signatures.CheckIgnoresOrder` | src/classic.ts:323-375 | so its answer depends on neither the order of the signatures nor that of the signers |
| `Signatures.CheckSound` | src/classic.ts:323-375 | with no assumption on the cryptography, a satisfied check counted genuine signatures of distinct signers, each once per type, weighing enough |
| `Signatures.CheckIgnoresLaterSignature` | src/classic.ts:335-360 | a satisfied check counts the same signatures, and answers the same, when a signature is appended that verifies for no signer of a type tried before the satisfying one |
| `Signatures.OneTypeComesLate` | src/classic.ts:323-375 | with PRE_AUTH_TX signers beside at most one other type every appended signature comes too late for a satisfied check |
| `Signatures.AppendedCountedIff` | src/classic.ts:323-375 | a satisfied check counts an appended signature iff it verifies for a signer, of a type tried before the satisfying one, that nobody matched |
| `Signatures.SignatureWeight` | src/classic.ts:213-248 | the two nested loops sum each candidate's weight once, by the first signature that verifies for it, or throw at a signature of the wrong length |
| `Signatures.FindUnused` | src/classic.ts:235-245 | the inner loop finds the first unused candidate the signature verifies for or throws at |
| `Signatures.WeightMeaning` | src/classic.ts:231-247 | with distinct candidates that is the weight of everyone a signature verifies for; it throws iff a signature of the wrong length carries the hint of a candidate that no signature before it matched |
| `Signatures.CheckRefinesWeight` | src/classic.ts:388-395 | for an ed25519-only account and a needed weight of 1 to 255 the check is satisfied iff the plain weight sum, where it does not throw, reaches it, although only one of them caps weights, drops a weight-0 master key and stops early |
| `Accounts.PromotionsAgree` | src/classic.ts:1455-1500 | the chain rebuilt in TypeScript equals the one filled in by Rust; promotion is idempotent, keeps every existing field and fixes a bumped account |
| `Accounts.PromotionSize` | src/classic.ts:1418-1424 | a promotion adds exactly 52 bytes and 4 per signer to an account with no extension |
| `Accounts.PromotedIs` | crates/host-wasm/src/lib.rs:244-262 | a simulation reads every entry as stored, an account with what was missing of its ext chain created zeroed and nothing else changed |
| `Accounts.BumpKeepsTheRest` | src/classic.ts:1425-1439 | a bump sets the number and the stamp, keeps what there was of the ext chain, and changes nothing else of the account |
| `Accounts.SimulationSnapshot.Get` | crates/host-wasm/src/lib.rs:244-262 | the memoised reader always answers the promotion of the stored entry, and memoises accounts only |
| `Accounts.BumpedAccount` | src/classic.ts:1425-1439 | a bump changes its own account's sequence number and stamp, dates its entry, and leaves every other entry |
| `Accounts.DebitedAccount` | src/classic.ts:1502-1505 | a debit changes its own account's balance, dates its entry, and leaves every other entry |
| `Fees.ReportedFeeIsLeast` | src/classic.ts:722-734 | an inclusion fee passes the rate comparison iff it is at least the reported `needed`, which also meets the minimum inclusion fee |
| `Fees.AdjustInstructions` | crates/host-wasm/src/lib.rs:129-139 | padding adds 4%, rounded down, or 50 000 or the leeway, whichever is most, saturating, and adds nothing to nothing |
| `Fees.EstimateIs` | crates/host-wasm/src/fees.rs:193-243 | the estimate is a fixed overhead plus the operation, its footprint and its archived indexes |
| `Fees.EstimateBoundsEnvelope` | crates/host-wasm/src/fees.rs:193-243 | it bounds, but for the envelope's type word, every one-operation v1 envelope with that body and footprint and at most 20 signatures |
| `Fees.EstimateMissesTypeWord` | crates/host-wasm/src/fees.rs:211-242 | that bound is tight: the largest envelope is four bytes more than the estimate |
| `Fees.QuoteCoversSubmission` | crates/host-wasm/src/fees.rs:251-278 | a transaction declaring the quoted fee passes the resource-fee check, and what is left refundable covers the simulated rent and events |
| `Fees.QuoteIs` | crates/host-wasm/src/fees.rs:251-278 | the quote in whole numbers: the non-refundable fee of the resources in an envelope 10% or 500 bytes larger than estimated, and 115% of events fee and rent, rounded down |
| `Fees.QuoteNeedsU32` | crates/host-wasm/src/fees.rs:264-265 | there is no quote exactly when the estimated envelope does not fit a u32 |
| `Environment.Loading.LoadKey` | crates/host-wasm/src/lib.rs:1067-1130 | one key's branches give its item, its disk bytes and its place in the cache lists |
| `Environment.Loading.Load` | crates/host-wasm/src/lib.rs:1034-1134 | the load loop fails iff an entry is over the network's size limit or the saturated disk bytes of the whole footprint pass the declared ones |
| `Environment.CheckWrittenEntries` | crates/host-wasm/src/lib.rs:1324-1353 | the early-exit loop passes iff no written entry is oversize and their saturated total fits the declared bytes |
| `Environment.ConsumeRefundable` | crates/host-wasm/src/lib.rs:1394-1443 | the event loop and the two fee tests equal one verdict on the total size, the rent and the events fee; `SendAnswers` states that verdict |
| `Environment.SorobanEnv.PrepareModuleCache` | crates/host-wasm/src/lib.rs:1467-1495 | adds the parse of each missing live code, then drops every restored one |
| `Environment.SorobanEnv.MergeChanges` | crates/host-wasm/src/lib.rs:1230-1267 | merges the host's changes in order and reports changed, removed and TTL-changed keys; `SendLeaves` states what that leaves and reports |
| `Environment.SorobanEnv.Send` | crates/host-wasm/src/lib.rs:1018-1288 | the whole call: new state and report equal `Sent`, which `SendLeaves`, `SendAnswers` and `HostIsHanded` characterise |
| `Environment.SorobanEnv.Snapshot` | crates/host-wasm/src/lib.rs:771-783 | saves store, ledger number, timestamp and PRNG counter under a new id |
| `Environment.SorobanEnv.Restore` | crates/host-wasm/src/lib.rs:785-796 | puts back what that id saved; an unknown id changes nothing |
| `Environment.SorobanEnv.AdvanceLedgers` | crates/host-wasm/src/lib.rs:584-587 | adds to the ledger number and five seconds a ledger to the clock, both saturating |
| `Environment.SorobanEnv.PutEntry` | crates/host-wasm/src/lib.rs:622-635 | stores the entry under its own key, replacing entry and TTL, and answers that key |
| `Environment.SorobanEnv.RemoveEntry` | crates/host-wasm/src/lib.rs:659-664 | drops that key and nothing else, and answers whether it was there |
| `Environment.SorobanEnv.SetTimestamp` | crates/host-wasm/src/lib.rs:600-602 | moves the clock alone |
| `Environment.SorobanEnv.NextPrngSeed` | crates/host-wasm/src/lib.rs:1575-1581 | answers the counter and advances it, wrapping |
| `EnvironmentLaws.LoadedListIsAligned` | crates/host-wasm/src/lib.rs:20-30 | one item per footprint key in order; none exactly for absent keys and expired temporary ones; TTL metadata exactly on present data and code; a TTL below the ledger only on an archived entry not being restored |
| `EnvironmentLaws.SimulatedInstructionsSuffice` | crates/host-wasm/src/lib.rs:1536-1544 | a call declaring the padded instructions may use at least what the simulation used |
| `EnvironmentLaws.UnreportedKeyUnchanged` | crates/host-wasm/src/lib.rs:1230-1267 | a key that merging does not report keeps its entry and its TTL |
| `EnvironmentLaws.SendMergesAllOrNothing` | crates/host-wasm/src/lib.rs:1163-1267 | a failure at any stage leaves the store and reports no key; success merges every change |
| `EnvironmentLaws.SendReportIsComplete` | crates/host-wasm/src/lib.rs:1230-1267 | a key in none of the three reported lists is unchanged, whether or not the send succeeded |
| `EnvironmentLaws.SendStaysInFootprint` | crates/host-wasm/src/lib.rs:1230-1267 | keys outside the footprint are untouched, read-only keys keep their entries, and the report names footprint keys only |
| `EnvironmentLaws.SendKeepsAccounts` | crates/host-wasm/src/lib.rs:1230-1267 | a send removes no account and moves no sequence number or stamp |
| `EnvironmentLaws.CacheMatchesFootprint` | crates/host-wasm/src/lib.rs:1082-1088 | the cache of a call holds the parse of every live footprint code that parses, and no code the call restores |
| `EnvironmentLaws.RunCacheSound` | crates/host-wasm/src/lib.rs:1467-1495 | whatever the history, rollbacks included, every cached module is the parse of bytes its key hashes |
| `EnvironmentLaws.RestoreIsExact` | crates/host-wasm/src/lib.rs:771-796 | a rollback gives back exactly what was saved, after any steps and as often as it is called, and leaves the module cache alone |
| `SendLaws.SendLeaves` | crates/host-wasm/src/lib.rs:1230-1267 | what a successful send leaves under any key: the bytes of the last change that replaced it and the TTL of the last that affected it, or nothing where that change removed it; reported as changed or removed iff such a change names it, and for its TTL iff a change moved it |
| `SendLaws.LastWriteIsStored` | crates/host-wasm/src/lib.rs:1243-1248 | a value written last is stored with exactly the TTL it came with |
| `SendLaws.SendAnswers` | crates/host-wasm/src/lib.rs:1018-1220 | exactly when a send fails and why, before, in and after the host; and that a success reports the rent of the host's changes and the saturated size of events and value, and consumes that rent and the events fee |
| `SendLaws.HostIsHanded` | crates/host-wasm/src/lib.rs:1034-1152 | the host is called with the request, the open ledger, the declared instructions under the network's maximum, and one item per footprint key: its entry, TTL and rent size, a restored one as if just restored |
| `SendLaws.CacheIsExact` | crates/host-wasm/src/lib.rs:1467-1495 | a call's cache is exactly what was cached and the live footprint code that parses, without the code it restores |
| `FootprintOps.ExtendTtlResources` | crates/host-wasm/src/lib.rs:1609-1659 | the preflight loop refuses iff some key has no TTL or is an expired persistent one, and returns the keys to extend with their rent changes; `ExtendRefusal` and `ExtendPreflightPriced` state both |
| `FootprintOps.RestoreResources` | crates/host-wasm/src/lib.rs:1665-1712 | the preflight loop refuses iff a key is not persistent or missing, and returns the archived keys, their saturated bytes and their rent changes; `RestorePreflight` states all of it |
| `FootprintOps.SortedInOrder` | crates/host-wasm/src/lib.rs:1648 | the returned footprint is in key order |
| `FootprintOps.MoveTtls` | src/classic.ts:1305-1327 | prices the moves, and makes all of them or, if the refundable fee is short, none; `ExtendEffect` and `RestorationEffect` state the price move by move |
| `FootprintOps.CollectExtendMoves` | src/classic.ts:1349-1359 | the loop collects the live keys ending too early, or stops at an oversize one |
| `FootprintOps.CollectRestoreMoves` | src/classic.ts:1381-1413 | the byte-summing loop stops iff the archived entries together pass a declared count or one is oversize |
| `FootprintOps.ApplyExtendFootprintTtl` | src/classic.ts:1342-1361 | the new store and result equal `ExtendApplied` |
| `FootprintOps.ApplyRestoreFootprint` | src/classic.ts:1376-1415 | the new store and result equal `RestoreApplied` |
| `FootprintLaws.ExtendRaisesTtlsIff` | src/classic.ts:1268-1274 | no entry bytes change, failure changes nothing, no TTL passes ledger + maxEntryTTL - 1 unless it already did; and a success keeps the TTL of a live listed key from falling iff ledger + extendTo fits a u32, and otherwise archives it |
| `FootprintLaws.MovesPriced` | crates/host-wasm/src/fees.rs:285-299 | the rent changes of any moves, one by one: persistent unless temporary data, code for code, from the entry's rent size and known TTL, or from nothing for one back from the archive, to that size and the TTL it gets |
| `FootprintLaws.ExtendEffect` | src/classic.ts:1305-1361 | an extension moves exactly the live listed keys that end too early, unless one is oversize or their rent passes the refundable fee; its rent is priced move by move |
| `FootprintLaws.RestorationEffect` | src/classic.ts:1305-1415 | a restoration with any declared counts moves exactly the listed keys past their TTL, unless one is oversize, their bytes pass a declared count, or their rent, priced as of new entries, the refundable fee |
| `FootprintLaws.ExtendRefusal` | crates/host-wasm/src/lib.rs:1619-1645 | an extension preflight refuses exactly for a key that is no data or code, has no TTL, or is persistent and past it |
| `FootprintLaws.ExtendPreflightPriced` | crates/host-wasm/src/lib.rs:1646-1659 | it prices exactly the keys it returns, each from its own TTL to the extension's, returns them in key order and declares nothing else |
| `FootprintLaws.RestorePreflight` | crates/host-wasm/src/lib.rs:1665-1712 | a restoration preflight refuses exactly for a TTL past a u32 or a key not persistent or missing; it returns the keys past their TTL in key order, declares their bytes in all, saturated, and prices each as new |
| `FootprintLaws.ExtendPreflightFootprint` | crates/host-wasm/src/lib.rs:1609-1659 | the returned footprint is exactly the live keys ending before the preflight's own, saturating, extension, in every ledger |
| `FootprintLaws.ExtendSimulatedThenApplied` | src/classic.ts:1342-1361 | applied one ledger later it succeeds iff no returned key still live is oversize and the refundable fee covers their rent; then exactly those keys get ledger + extendTo, or, iff that does not fit a u32, a TTL already past |
| `FootprintLaws.RestoreFootprintStaysArchived` | crates/host-wasm/src/lib.rs:1665-1712 | every returned key is still archived one ledger later, with the same bytes in any order |
| `FootprintLaws.RestoreSimulatedThenApplied` | src/classic.ts:1376-1415 | applied one ledger later with the returned byte counts it moves every key, unless an entry is oversize, the total overflows a u32 or the rent passes the refundable fee, and then nothing moves; moved keys live iff ledger + minPersistentTTL - 1 fits a u32, and otherwise get TTL 0 |
| `SimulationLaws.OnlyTheOperationMovesContracts` | src/classic.ts:990-1013 | the sequence bump, the charge and the refund touch no contract entry |
| `SimulationLaws.RestoreSimulatedThenSubmitted` | src/fake-rpc.ts:578-599 | the same through a whole submission, plain or fee-bumped: exactly when it succeeds, what every contract entry becomes, which of them live, and that failure moves none |
| `SimulationLaws.ExtendSimulatedThenSubmitted` | src/fake-rpc.ts:578-599 | the same for an extension: exactly when it succeeds, which keys get which TTL, and that they live iff the sum fits a u32 |
| `SimulationLaws.QuotedSubmissionCovered` | src/classic.ts:843-863 | a submission of one operation that declares the quoted fee passes the resource-fee test, and its refundable cap covers the simulated rent and events |
| `SimulationLaws.QuotedExtensionCovered` | src/fake-rpc.ts:578-599 | so does an extension that declares the resources and the minResourceFee the adapter answered with |
| `OverflowExample.ExtensionArchives` | src/classic.ts:1342-1361 | in ledger 4 294 967 100 an extension by 1000 is simulated, succeeds and leaves a live entry with TTL 804 |
| `OverflowExample.RestorationDoesNotRestore` | src/classic.ts:1376-1415 | in ledger 4 294 846 337 with minPersistentTTL 120 960 a restoration is simulated, succeeds and leaves its entry at TTL 0 |
| `Validation.TooLateStaysTooLate` | src/classic.ts:452-472 | an envelope too late by its bounds stays so as the clock moves on |
| `Validation.CheckArchived` | src/classic.ts:1211-1222 | the neighbour-comparing loop accepts iff the indexes are strictly increasing, in range and persistent |
| `Validation.CheckResources` | src/classic.ts:1142-1224 | no problem is found iff every declared resource, key and index is within the network's limits |
| `Validation.DiskReadsCounted` | crates/host-wasm/src/fees.rs:158-169 | the two languages count disk reads alike, and accepted resources never count more of them than the footprint has entries |
| `Transactions.CheckEnvelope` | src/classic.ts:797-871 | the tests before the source account is loaded, in order, answer `EnvelopeProblem` |
| `Transactions.CheckSourceSignatures` | src/classic.ts:919-932 | the source's check and the extra signers' over one checker, and what they mark |
| `Transactions.CheckOperation` | src/classic.ts:955-988 | the operation's check, its shape and the leftover test over the same checker |
| `Transactions.CheckAccounts` | src/classic.ts:873-988 | the tests from the source account on, in order, answer `AccountProblem` |
| `Transactions.ChargeAccounts` | src/classic.ts:991-994 | the sequence bump and then the debit up front |
| `Transactions.BumpSequenceOf` | src/classic.ts:1425-1439 | writes the bumped account and leaves the rest of the ledger |
| `Transactions.DebitFrom` | src/classic.ts:1502-1505 | writes the debited account and leaves the rest of the ledger |
| `Transactions.RunOperationOn` | src/classic.ts:1017-1094 | the operation's new state, outcome and consumed fee equal `RunOperation` |
| `Transactions.Settle` | src/classic.ts:1000-1013 | the refund and the fee reported in all |
| `Transactions.Commit` | src/classic.ts:990-1096 | bump, charge, operation and refund in turn equal `Committed`; the payer still exists when it is refunded |
| `Transactions.Problem` | src/classic.ts:520-526 | whatever test fails, its answer is a rejection |
| `Transactions.ApplyInner` | src/classic.ts:785-1096 | the whole inner path equals `InnerApplied`; no account it needs can have gone missing |
| `Transactions.CheckOuter` | src/classic.ts:698-762 | a fee bump's own tests, in order, answer `OuterProblem` |
| `Transactions.CheckOuterSignatures` | src/classic.ts:741-762 | the fee source's check, its balance and the leftover test over the bump's own checker |
| `Transactions.ApplyFeeBump` | src/classic.ts:686-783 | its own tests, then its inner transaction with its own payer |
| `Transactions.ApplyTransaction` | src/classic.ts:587-599 | the whole submission: new state and outcome equal `Submitted` |
| `Transactions.OperationKeepsAccounts` | src/classic.ts:1017-1094 | no operation removes an account or moves its sequence number or stamp |
| `TransactionLaws.RejectedOrApplied` | src/classic.ts:520-526 | an envelope is rejected iff some check fails, and then the ledger is untouched; one that applies never reports a rejection's code |
| `TransactionLaws.WeakBumpCanBeRaised` | src/classic.ts:706-734 | the fee reported for a weak bump is the least that works: resubmitting at the resource fee plus it clears every test of the bid, and no smaller bid does |
| `TransactionLaws.OperationConsumes` | crates/host-wasm/src/lib.rs:1394-1443 | what an operation consumes is between 0 and what is refundable, and 0 if it failed |
| `TransactionLaws.PayerCanPay` | src/classic.ts:946-951 | an accepted envelope's payer can pay the full fee above its reserve, and is charged the resource fee and the base fee per operation, no more than the full fee |
| `TransactionLaws.CommitConserves` | src/classic.ts:990-1013 | seen from the payer, charge, operation and refund leave the balance before, less the reported fee, plus the operation's effect |
| `TransactionLaws.FeeIsConserved` | src/classic.ts:657-661 | the same for whole submissions: the parts of the fee, their bounds, their sum, and the reserve kept by the debit up front |
| `TransactionLaws.EffectIsTheInvocations` | src/classic.ts:1017-1094 | the operation moves an account's balance only if it is a successful invocation whose read-write footprint lists the account; the footprint operations never do |
| `TransactionLaws.BalanceMoves` | src/classic.ts:990-1013 | every account's balance, the payer's or not, moves by the reported fee if it pays and by the operation's effect on it, and by nothing else |
| `TransactionLaws.OnlyPayerPays` | src/classic.ts:990-1013 | an account no invocation may write loses exactly the reported fee if it is the payer, and nothing otherwise |
| `OutcomeLaws.SubmissionIs` | src/classic.ts:612-629 | what is applied of an envelope: its (inner) transaction, signatures and size, and a payer charged the resource fee and an inclusion fee capped at the base fee per operation, one more for a bump |
| `OutcomeLaws.AppliedReports` | src/classic.ts:1000-1096 | every item an applied envelope reports: the operation's result and keys, the non-refundable fee of what it declared on its inner envelope's size, the rent of its moves or the rent and events fee of its invocation, nothing if it failed, their sum, and a bump's inner code |
| `OutcomeLaws.RefusalReports` | src/classic.ts:587-683 | exactly what a refused envelope is answered, the nominal fee included, and that it leaves the ledger as it was |
| `OutcomeLaws.AccountAfter` | src/classic.ts:990-1013 | of any account no invocation may write: the payer pays the reported fee, the source's number and stamp move, and every other part of every account is as it was |
| `Acceptance.ValidatorAnswers` | src/classic.ts:797-988 | whatever the envelope, the validator answers the first of its tests that fails, each stated from the envelope's fields and the ledger: shape, declared limits and fee, bounds, sequence rule, age, signatures at LOW, bid, reserve, the operation's MEDIUM or LOW, its shape, idle signatures |
| `Acceptance.BumpAnswered` | src/classic.ts:698-762 | the same for a fee bump's own tests |
| `Acceptance.AcceptedSequence` | src/classic.ts:478-488 | an accepted transaction has the number after its account's, or with a minSeqNum the account's number is from that to below its own |
| `Acceptance.BadSeqAnswered` | src/classic.ts:876-900 | txBAD_SEQ is answered exactly when no earlier test fails and the number is the ledger's starting number or does not fit |
| `Authorization.EveryExtraSignerCounted` | src/classic.ts:398-407 | a satisfied extra-signer check counted every one of them, by a pigeonhole argument |
| `Authorization.AcceptedIsAuthorized` | src/classic.ts:908-988 | who signed an accepted envelope: its source at LOW, every extra signer, its operation's source at MEDIUM for an invocation and LOW for a footprint operation, or that missing account's own key, and no idle signature |
| `Authorization.BumpIsAuthorized` | src/classic.ts:741-762 | a fee source signed its bump at LOW, and every outer signature was counted |
| `Authorization.ExtraCheckMeaning` | src/classic.ts:398-407 | the extra-signer check is satisfied iff every extra signer signed |
| `Authorization.AuthorizedMeaning` | src/classic.ts:919-988 | the three checks over one checker and the leftover test succeed iff the parties signed with enough weight and each signature is, for one of them, the first to verify for a signer while those before do not suffice |
| `Authorization.AcceptanceMeaning` | src/classic.ts:873-988 | a well-formed envelope is accepted iff its number and bid are good, its three parties signed with enough weight in all, and each signature was needed by one of them when its turn came |
| `Padding.PaddedEnvelopeRejected` | src/classic.ts:919-988 | an accepted envelope, plain or fee bump, with a signature appended to its transaction that verifies for no signer of a type tried before the satisfying one is rejected |
| `Padding.OneTypePaddingRejected` | src/classic.ts:919-988 | so padding is always refused when each of the three lists has, beside PRE_AUTH_TX signers, signers of one type |
| `Padding.PaddedEnvelopeAcceptedIff` | src/classic.ts:919-988 | with signatures that verify for one signer each, the padded envelope is accepted iff its size and fee still pass, the signature brings a new signer of an earlier type to some check, and every signature before it is still needed |
| `Padding.PaddedBumpRejected` | src/classic.ts:741-762 | the same for a fee bump's own signatures: refused for one-type signer lists, and for any signature that comes too late |
| `Padding.PaddedBumpAcceptedIff` | src/classic.ts:741-762 | and exactly when such a bump is accepted |
| `Padding.MixedSignersAcceptPadding` | src/classic.ts:335-380 | with a HASH_X signer beside the ed25519 one the padding can be consumed, and nothing is left over |
| `PaddingExample.PaddingAccepted` | src/classic.ts:919-988 | one ledger and one envelope that applies with its own signature, and with another appended |
| `Padding.IdleDependsOnOrder` | src/classic.ts:335-380 | the same two signatures are all used in one order and not in the other |
| `Rpc.InProcessRpc.Send` | src/fake-rpc.ts:682-748 | a submission is recorded under its hash and closes its ledger, or leaves everything as it was |
| `Rpc.InProcessRpc.Fund` | src/fake-rpc.ts:325-350 | the friendbot creates a missing account and refuses an existing one |
| `Rpc.InProcessRpc.SimulateRestore` | src/fake-rpc.ts:578-599 | a restoration is simulated over the read-write keys in the last closed ledger, resources and rent changes |
| `Rpc.InProcessRpc.SimulateExtend` | src/fake-rpc.ts:578-599 | an extension is simulated over the read-only keys in the last closed ledger, resources and rent changes |
| `Rpc.PendingIfApplied` | src/fake-rpc.ts:701-708 | PENDING is answered exactly for the envelopes that apply |
| `RpcLaws.AppliesOrRefused` | src/fake-rpc.ts:694-742 | a submission changes nothing, or adds one result and one application and moves exactly its source's sequence number |
| `RpcLaws.PollAnswers` | src/fake-rpc.ts:701-764 | a submission that applies is found under its hash with the outcome it was answered and the ledger and time it applied in, and that ledger closes five seconds on; one that does not leaves everything as it was |
| `RpcLaws.AppliesInTime` | src/classic.ts:866-915 | whatever applies does so within its time and ledger bounds, with a number that fits its source's, and old enough |
| `RpcLaws.FriendbotCreates` | src/fake-rpc.ts:325-350 | the account the friendbot creates, field by field, and that its own key is its one signer |
| `RpcLaws.FundedAccountSizes` | test/validation/cost-calibration-round3.test.ts:372-374 | its entry is 92 bytes, and 144 once its sequence number has moved |
| `RpcLaws.CommitMovesOnly` | src/classic.ts:1425-1439 | a commit moves its source's sequence number to the transaction's and stamps it, and moves no other account's |
| `RpcLaws.RunKeepsInv` | src/fake-rpc.ts:307-317 | over every run: stamps are not in the future, every application is remembered by its source, and every stored result is of an application |
| `RpcLaws.NothingAppliesTwice` | src/classic.ts:478-488 | over every run the sequence numbers applied for each source strictly increase, so no transaction applies twice |
| `RpcLaws.ReplayRefused` | src/classic.ts:888-900 | a transaction that applied is refused ever after, on its own or inside any fee bump |
| `RpcLaws.ResultsAreFinal` | src/fake-rpc.ts:731-740 | over every run the answer of getTransaction for a hash, once it is a result, never changes |
| `RpcLaws.RunKeepsClosed` | src/fake-rpc.ts:317 | no result is of a ledger past the last closed one, and no two applications share a ledger |
| `RpcLaws.SequenceFollowsHistory` | src/classic.ts:990-992 | over every run an account is never lost, and its sequence number is the last one applied for it |
| `RpcLaws.BalanceFollowsHistory` | src/classic.ts:990-1013 | over every run every account's balance falls by exactly the reported fees of the applications it paid for, and moves otherwise only by what operations did to it and by the friendbot's funding |
| `RpcLaws.QuietInflows` | src/classic.ts:990-1013 | an account that exists and that no invocation may write gets none of the latter, whatever the run |
| `RpcLaws.ZeroBoundsNeverReject` | src/classic.ts:490-496 | in a run the age and gap test never refuses an envelope without bounds |
| `RpcLaws.AcceptedAgeIsReal` | src/classic.ts:497-514 | an accepted minSeqAge and minSeqLedgerGap hold against everything its source ever applied |
| `RpcLaws.TooLateForGood` | src/classic.ts:452-472 | over every run an envelope once txTOO_LATE by its bounds stays so |

## Left out

- QuoteCoversSubmission, and QuotedSubmissionCovered with it: not for RestoreFootprint, whose disk-read entries the quote and the submission count differently (`crates/host-wasm/src/fees.rs:160-162` against `:261-263`); and for no more archived indexes than were quoted, since each is priced as a disk read.
- RunKeepsInv: runs of submissions, simulations, ledger advances and friendbot calls; `putEntry`, `removeEntry`, `setTimestamp`, `restore` and funding an existing account break the invariant by design and are not in its step relation. `RunCacheSound` and `RestoreIsExact` cover them.
- AdjustInstructions: f64 products are exact reals here. For a u32 count times 1.04 the floor is the same; for a quoted fee times 1.15 it can differ in the last place, and by more past 2^53, but never falls below the unpadded fee, which is all the laws use.
- ExtendSimulatedThenApplied: from ledger 1 on, since it is simulated in the ledger before; so too RestoreSimulatedThenApplied and the laws about submissions that follow from the two.
- The Soroban host, Wasm execution, metering, `__check_auth`, the rent and resource fee formulas, and parsing: oracles, as stated above.
- Recording mode: what simulating an InvokeHostFunction returns is the host's; the model starts from the resources and rent changes it returned.
- Restored entries inside an envelope: the source passes none to `send`, so they are modelled for direct sends only.
- A ledger with no fee settings installed, on which `send` skips the size limits; here they are always present.
- Thrown errors and decoding: malformed XDR or base64, an entry whose rent size cannot be priced.
- Error texts, diagnostic events, result and meta XDR, the event log, and the JSON shapes of `getTransactions`, `getLedgers`, `getEvents` and `getLedgerEntries`.
- The network, archival and enforcement settings are fixed per ledger; changing them between two calls is not a step.
- Integer widths of balances and sequence numbers (int64 in XDR) and of ledger timestamps past 2^53 (JavaScript numbers): unbounded here. u32 saturation and the wrap at the JavaScript-to-Rust boundary are modelled where they occur.
- v0 envelopes are refused, as in the source, and carry no content here.
- The adapter's `submit` override: submissions go to the ledger with every check on.
