/** From a footprint operation's simulation to the submission of what it returned. */
module SimulationLaws {
  import opened Sequences
  import opened Xdr
  import opened Accounts
  import opened Host
  import opened Fees
  import opened Environment
  import opened EnvironmentLaws
  import opened FootprintOps
  import opened FootprintLaws
  import opened Validation
  import opened Transactions
  import opened TransactionLaws
  import opened Rpc

  /** A submission's bookkeeping, the sequence bump, the charge and the refund, touches no contract entry. */
  lemma BookkeepingKeepsContracts(o: Oracles, s: Settings, e: EnvState, sub: Submission)
    ensures SameContractEntries(e.store, Charged(o, s, e, sub).store)
  {}

  lemma RefundKeepsContracts(store: Store, payer: PublicKey, refund: int, ledgerSeq: u32)
    ensures SameContractEntries(store, Refund(store, payer, refund, ledgerSeq))
  {}

  /** What the submission's operation did to the store, and whether it succeeded. */
  ghost function Operated(o: Oracles, s: Settings, e: EnvState, sub: Submission): (Store, TxOutcome)
    requires PassesChecks(o, s, e, sub)
  {
    var (ran, outcome, _) := RunOperation(o, s, Charged(o, s, e, sub), sub,
                                          LoadAccount(e.store, OpSourceId(sub)).Some?, RefundableCap(o, s, sub));
    (ran.store, outcome)
  }

  /** So the contract entries a submission leaves are the ones its operation left. */
  lemma OnlyTheOperationMovesContracts(o: Oracles, s: Settings, e: EnvState, envelope: Envelope,
                                       options: ValidationOptions)
    requires Applies(o, s, e, envelope, options)
    ensures var (after, outcome) := Submitted(o, s, e, envelope, options);
            var (store, ran) := Operated(o, s, e, SubmissionOf(envelope, options));
            SameContractEntries(store, after.store) && outcome.ok == ran.ok
  {
    CommitKeepsContracts(o, s, e, SubmissionOf(envelope, options));
  }

  lemma CommitKeepsContracts(o: Oracles, s: Settings, e: EnvState, sub: Submission)
    requires PassesChecks(o, s, e, sub)
    ensures var (after, outcome) := Committed(o, s, e, sub);
            var (store, ran) := Operated(o, s, e, sub);
            SameContractEntries(store, after.store) && outcome.ok == ran.ok
  {
    if sub.charge.Some? {
      var (ran, _, consumed) := RunOperation(o, s, Charged(o, s, e, sub), sub,
                                             LoadAccount(e.store, OpSourceId(sub)).Some?, RefundableCap(o, s, sub));
      RefundKeepsContracts(ran.store, sub.charge.value.payer,
                           sub.tx.ext.value.resourceFee - NonRefundable(o, s, sub) - consumed.refundable,
                           ran.ledgerSeq);
    }
  }

  lemma RentIgnoresAccounts(o: Oracles, store: Store, later: Store, keys: seq<LedgerKey>, b: Basis, liveUntil: u32)
    requires SameContractEntries(store, later) && forall k :: k in keys ==> IsTtlKey(k) && k in store && k in later
    ensures PricedMoves(o, store, keys, b, liveUntil) == PricedMoves(o, later, keys, b, liveUntil)
  {
    forall k | k in keys ensures store[k] == later[k] { assert SameAt(store, later, k); }
  }

  /** No entry is over the network's size limit, and the refundable fee covers the rent of moving them to `ttl`. */
  ghost predicate MoveFits(o: Oracles, s: Settings, store: Store, keys: seq<LedgerKey>, b: Basis, ttl: u32,
                           ledgerSeq: u32, cap: Option<int>)
    requires forall k :: k in keys ==> k in store
  {
    !AnyOverSize(s, store, keys) && !RentPasses(cap, RentOf(o, s, store, keys, b, ttl, ledgerSeq))
  }

  /** Seen from the simulation's store, the later one has the same room and asks the same rent. */
  lemma SameRoomSameRent(o: Oracles, s: Settings, store: Store, later: Store, keys: seq<LedgerKey>, b: Basis, ttl: u32,
                         ledgerSeq: u32, cap: Option<int>)
    requires SameContractEntries(store, later) && forall k :: k in keys ==> IsTtlKey(k) && k in store
    ensures forall k :: k in keys ==> k in later
    ensures MoveFits(o, s, store, keys, b, ttl, ledgerSeq, cap)
        <==> MoveFits(o, s, later, keys, b, ttl, ledgerSeq, cap)
    ensures Sum(EntrySizes(store), keys) == Sum(EntrySizes(later), keys)
  {
    forall k | k in keys ensures k in later && store[k] == later[k] { assert SameAt(store, later, k); }
    SumEqual(EntrySizes(store), EntrySizes(later), keys);
    RentIgnoresAccounts(o, store, later, keys, b, ttl);
  }

  /** The contract entries among `keys` move to `ttl`, bytes unchanged; every other one stays as it was. */
  ghost predicate MovesExactly(before: Store, after: Store, keys: seq<LedgerKey>, ttl: u32) {
    forall k :: IsTtlKey(k) ==> if k in keys then TtlMovedTo(before, after, k, ttl) else SameAt(before, after, k)
  }

  /** Each of these keys is live, or each is not. */
  ghost predicate LiveIff(store: Store, keys: seq<LedgerKey>, ledgerSeq: u32, live: bool) {
    forall k :: k in keys ==> (LiveAt(store, k, ledgerSeq) <==> live)
  }

  lemma MovedLive(before: Store, after: Store, keys: seq<LedgerKey>, ttl: u32, ledgerSeq: u32)
    requires MovesExactly(before, after, keys, ttl) && forall k :: k in keys ==> IsTtlKey(k)
    ensures LiveIff(after, keys, ledgerSeq, ttl >= ledgerSeq)
  {
    forall k | k in keys ensures TtlMovedTo(before, after, k, ttl) {}
  }

  /** Bookkeeping before and after an operation changes nothing of what it moved. */
  lemma MovesAround(a: Store, b: Store, c: Store, d: Store, keys: seq<LedgerKey>, ttl: u32)
    requires SameContractEntries(a, b) && MovesExactly(b, c, keys, ttl) && SameContractEntries(c, d)
    ensures MovesExactly(a, d, keys, ttl)
  {
    forall k | IsTtlKey(k) ensures if k in keys then TtlMovedTo(a, d, k, ttl) else SameAt(a, d, k) {
      assert SameAt(a, b, k) && SameAt(c, d, k);
    }
  }

  lemma SameContractsTrans(a: Store, b: Store, c: Store)
    requires SameContractEntries(a, b) && SameContractEntries(b, c)
    ensures SameContractEntries(a, c)
  {
    forall k | IsTtlKey(k) ensures SameAt(a, c, k) { assert SameAt(a, b, k) && SameAt(b, c, k); }
  }

  lemma WithTtlMoves(store: Store, keys: seq<LedgerKey>, ttl: u32)
    requires forall k :: k in keys ==> k in store
    ensures MovesExactly(store, WithTtl(store, keys, ttl), keys, ttl) && MovesExactly(store, store, [], ttl)
  {}

  // ---- restoring ---------------------------------------------------------------------

  /** `r` is what simulating the restoration of `keys` in the last closed ledger returned. */
  ghost predicate RestoreSimulated(o: Oracles, s: Settings, store: Store, keys: seq<LedgerKey>, ledgerSeq: u32,
                                   r: Resources)
  {
    && 1 <= ledgerSeq
    && !RestoreFails(s, store, keys, ledgerSeq - 1)
    && r == RestoreResourcesOf(o, store, keys, ledgerSeq - 1)
  }

  /** The keys a restoration returns are contract keys. */
  lemma RestoredAreContracts(o: Oracles, s: Settings, store: Store, keys: seq<LedgerKey>, ledgerSeq: u32, r: Resources)
    requires RestoreSimulated(o, s, store, keys, ledgerSeq, r)
    ensures forall k :: k in r.readWrite ==> IsTtlKey(k) && k in store
  {
    var restored := Filter(Restorable(store, ledgerSeq - 1), keys);
    SortedMembers(o.keyLe, restored);
    forall k | k in r.readWrite ensures IsTtlKey(k) && k in store {
      assert k in restored && !RestoreRefuses(store, k);
    }
  }

  /** The move fits, and so does the total in a u32. */
  ghost predicate RestoreFits(o: Oracles, s: Settings, store: Store, ledgerSeq: u32, r: Resources, cap: Option<int>)
    requires forall k :: k in r.readWrite ==> k in store
  {
    && MoveFits(o, s, store, r.readWrite, FromArchive, RestoredTtl(s, ledgerSeq), ledgerSeq, cap)
    && Sum(EntrySizes(store), r.readWrite) <= U32_MAX
  }

  /** Applied with the returned resources: all of it, or nothing for want of room or rent. */
  lemma RestoreAppliesWhole(o: Oracles, s: Settings, store: Store, later: Store, keys: seq<LedgerKey>, ledgerSeq: u32,
                            r: Resources, cap: Option<int>)
    requires RestoreSimulated(o, s, store, keys, ledgerSeq, r) && SameContractEntries(store, later)
    ensures forall k :: k in r.readWrite ==> k in store
    ensures var (after, applied) := RestoreApplied(o, s, later, ledgerSeq, r, cap);
            && (applied.Moved? <==> RestoreFits(o, s, store, ledgerSeq, r, cap))
            && MovesExactly(later, after, if applied.Moved? then r.readWrite else [], RestoredTtl(s, ledgerSeq))
  {
    RestoredAreContracts(o, s, store, keys, ledgerSeq, r);
    RestoreSimulatedThenApplied(o, s, store, later, keys, ledgerSeq, cap);
    var (after, applied) := RestoreApplied(o, s, later, ledgerSeq, r, cap);
    WholeOrNothing(o, s, store, later, ledgerSeq, r, cap, after, applied);
  }

  lemma WholeOrNothing(o: Oracles, s: Settings, store: Store, later: Store, ledgerSeq: u32, r: Resources,
                       cap: Option<int>, after: Store, applied: Applied)
    requires SameContractEntries(store, later) && forall k :: k in r.readWrite ==> IsTtlKey(k) && k in store
    requires RestoreEffectIs(o, s, later, ledgerSeq, r.readWrite, cap, after, applied)
    ensures applied.Moved? <==> RestoreFits(o, s, store, ledgerSeq, r, cap)
    ensures MovesExactly(later, after, if applied.Moved? then r.readWrite else [], RestoredTtl(s, ledgerSeq))
  {
    SameRoomSameRent(o, s, store, later, r.readWrite, FromArchive, RestoredTtl(s, ledgerSeq), ledgerSeq, cap);
    WithTtlMoves(later, r.readWrite, RestoredTtl(s, ledgerSeq));
  }

  /** What a restoration of a simulated footprint comes to. */
  ghost predicate RestoresWhole(o: Oracles, s: Settings, store: Store, before: Store, after: Store, r: Resources,
                                ledgerSeq: u32, opExists: bool, cap: Option<int>, ok: bool) {
    && (forall k :: k in r.readWrite ==> IsTtlKey(k) && k in store)
    && (ok <==> opExists && RestoreFits(o, s, store, ledgerSeq, r, cap))
    && MovesExactly(before, after, if ok then r.readWrite else [], RestoredTtl(s, ledgerSeq))
  }

  lemma RestoreOutcome(o: Oracles, s: Settings, e: EnvState, sub: Submission, opExists: bool, cap: Option<int>)
    requires sub.tx.operations != [] && sub.tx.operations[0].body.RestoreFootprint? && sub.tx.ext.Some?
    ensures var (ran, outcome, _) := RunOperation(o, s, e, sub, opExists, cap);
            var (store, applied) := RestoreApplied(o, s, e.store, e.ledgerSeq, sub.tx.ext.value.resources, cap);
            && (outcome.ok <==> opExists && applied.Moved?)
            && ran.store == if opExists then store else e.store
  {}

  /** The operation on the charged ledger `e`, seen from the store `before` bookkeeping. */
  lemma RestoreRuns(o: Oracles, s: Settings, store: Store, before: Store, e: EnvState, sub: Submission, opExists: bool,
                    cap: Option<int>, keys: seq<LedgerKey>)
    requires sub.tx.operations != [] && sub.tx.operations[0].body.RestoreFootprint? && sub.tx.ext.Some?
    requires RestoreSimulated(o, s, store, keys, e.ledgerSeq, sub.tx.ext.value.resources)
    requires SameContractEntries(store, before) && SameContractEntries(before, e.store)
    ensures var (ran, outcome, _) := RunOperation(o, s, e, sub, opExists, cap);
            RestoresWhole(o, s, store, before, ran.store, sub.tx.ext.value.resources, e.ledgerSeq, opExists, cap,
                          outcome.ok)
  {
    var r, ttl := sub.tx.ext.value.resources, RestoredTtl(s, e.ledgerSeq);
    RestoredAreContracts(o, s, store, keys, e.ledgerSeq, r);
    SameContractsTrans(store, before, e.store);
    RestoreAppliesWhole(o, s, store, e.store, keys, e.ledgerSeq, r, cap);
    RestoreOutcome(o, s, e, sub, opExists, cap);
    var (after, applied) := RestoreApplied(o, s, e.store, e.ledgerSeq, r, cap);
    MovesAround(before, e.store, after, after, if applied.Moved? then r.readWrite else [], ttl);
    MovesAround(before, before, before, e.store, [], ttl);
  }

  lemma RestoreOperates(o: Oracles, s: Settings, store: Store, e: EnvState, sub: Submission, keys: seq<LedgerKey>)
    requires PassesChecks(o, s, e, sub) && sub.tx.operations != [] && sub.tx.ext.Some?
    requires sub.tx.operations[0].body.RestoreFootprint?
    requires RestoreSimulated(o, s, store, keys, e.ledgerSeq, sub.tx.ext.value.resources)
    requires SameContractEntries(store, e.store)
    ensures var (after, outcome) := Operated(o, s, e, sub);
            RestoresWhole(o, s, store, e.store, after, sub.tx.ext.value.resources, e.ledgerSeq,
                          LoadAccount(e.store, OpSourceId(sub)).Some?, RefundableCap(o, s, sub), outcome.ok)
  {
    BookkeepingKeepsContracts(o, s, e, sub);
    RestoreRuns(o, s, store, e.store, Charged(o, s, e, sub), sub, LoadAccount(e.store, OpSourceId(sub)).Some?,
                RefundableCap(o, s, sub), keys);
  }

  lemma RestoresAround(o: Oracles, s: Settings, store: Store, before: Store, operated: Store, after: Store,
                       keys: seq<LedgerKey>, r: Resources, ledgerSeq: u32, opExists: bool, cap: Option<int>, ok: bool)
    requires RestoreSimulated(o, s, store, keys, ledgerSeq, r)
    requires RestoresWhole(o, s, store, before, operated, r, ledgerSeq, opExists, cap, ok)
    requires SameContractEntries(operated, after)
    ensures RestoresWhole(o, s, store, before, after, r, ledgerSeq, opExists, cap, ok)
    ensures ok ==> LiveIff(after, r.readWrite, ledgerSeq, ledgerSeq + s.minPersistentTtl - 1 <= U32_MAX)
  {
    var moved := if ok then r.readWrite else [];
    MovesAround(before, before, operated, after, moved, RestoredTtl(s, ledgerSeq));
    MovedLive(before, after, moved, RestoredTtl(s, ledgerSeq), ledgerSeq);
    RestoredTtlIs(s, store, keys, ledgerSeq);
  }

  /**
   * A restoration simulated in the last closed ledger and submitted with the
   * resources it returned: if the envelope applies, it succeeds exactly when the
   * operation's source exists, no entry is over the network's size limit, the
   * total fits a u32 and the refundable fee covers the rent. Then every returned
   * key gets the restored TTL with its bytes unchanged, and so lives iff ledger +
   * minPersistentTTL - 1 fits a u32. No other contract entry moves, and on
   * failure none does.
   */
  lemma RestoreSimulatedThenSubmitted(o: Oracles, s: Settings, store: Store, e: EnvState, envelope: Envelope,
                                      options: ValidationOptions, keys: seq<LedgerKey>)
    requires Applies(o, s, e, envelope, options)
    requires var tx := InnerTx(envelope);
             && tx.operations != [] && tx.operations[0].body.RestoreFootprint? && tx.ext.Some?
             && RestoreSimulated(o, s, store, keys, e.ledgerSeq, tx.ext.value.resources)
    requires SameContractEntries(store, e.store)
    ensures var (after, outcome) := Submitted(o, s, e, envelope, options);
            var sub, r := SubmissionOf(envelope, options), InnerTx(envelope).ext.value.resources;
            && RestoresWhole(o, s, store, e.store, after.store, r, e.ledgerSeq,
                             LoadAccount(e.store, OpSourceId(sub)).Some?, RefundableCap(o, s, sub), outcome.ok)
            && (outcome.ok ==> LiveIff(after.store, r.readWrite, e.ledgerSeq,
                                       e.ledgerSeq + s.minPersistentTtl - 1 <= U32_MAX))
  {
    var sub := SubmissionOf(envelope, options);
    OnlyTheOperationMovesContracts(o, s, e, envelope, options);
    RestoreOperates(o, s, store, e, sub, keys);
    var operated, after := Operated(o, s, e, sub), Submitted(o, s, e, envelope, options).0.store;
    RestoresAround(o, s, store, e.store, operated.0, after, keys, sub.tx.ext.value.resources, e.ledgerSeq,
                   LoadAccount(e.store, OpSourceId(sub)).Some?, RefundableCap(o, s, sub), operated.1.ok);
  }

  // ---- extending ---------------------------------------------------------------------

  /** `r` is what simulating the extension of `keys` in the last closed ledger returned. */
  ghost predicate ExtendSimulated(o: Oracles, store: Store, keys: seq<LedgerKey>, extendTo: u32, ledgerSeq: u32,
                                  r: Resources)
  {
    && 1 <= ledgerSeq
    && !ExtendFails(store, keys, ledgerSeq - 1)
    && r == ExtendResourcesOf(o, store, keys, extendTo, ledgerSeq - 1)
  }

  /** Contract keys live alike in two stores whose contract entries are the same. */
  lemma LiveAlike(a: Store, b: Store, ledgerSeq: u32, keys: seq<LedgerKey>)
    requires SameContractEntries(a, b) && forall k :: k in keys ==> IsTtlKey(k)
    ensures LivingKeys(a, ledgerSeq, keys) == LivingKeys(b, ledgerSeq, keys)
    ensures forall k :: k in LivingKeys(a, ledgerSeq, keys) ==> IsTtlKey(k) && k in a
  {
    forall k | k in keys ensures Living(a, ledgerSeq)(k) == Living(b, ledgerSeq)(k) { assert SameAt(a, b, k); }
    FilterEqual(Living(a, ledgerSeq), Living(b, ledgerSeq), keys);
    forall k | k in LivingKeys(a, ledgerSeq, keys) ensures IsTtlKey(k) && k in a { assert Living(a, ledgerSeq)(k); }
  }

  /** Applied with the returned footprint, after bookkeeping took `before` to `later`. */
  lemma ExtendAppliesToLiving(o: Oracles, s: Settings, store: Store, before: Store, later: Store, keys: seq<LedgerKey>,
                              extendTo: u32, ledgerSeq: u32, r: Resources, cap: Option<int>)
    requires ExtendSimulated(o, store, keys, extendTo, ledgerSeq, r)
    requires SameContractEntries(store, before) && SameContractEntries(before, later)
    ensures var (after, applied) := ExtendApplied(o, s, later, ledgerSeq, extendTo, r, cap);
            var living, ttl := LivingKeys(before, ledgerSeq, r.readOnly), ExtendedTtl(ledgerSeq, extendTo);
            && (forall k :: k in living ==> IsTtlKey(k) && k in before)
            && (applied.Moved? <==> MoveFits(o, s, before, living, FromNonzeroTtl, ttl, ledgerSeq, cap))
            && MovesExactly(before, after, if applied.Moved? then living else [], ttl)
  {
    var ttl, living := ExtendedTtl(ledgerSeq, extendTo), LivingKeys(before, ledgerSeq, r.readOnly);
    SameContractsTrans(store, before, later);
    ReturnedLiving(o, store, later, keys, extendTo, ledgerSeq);
    LiveAlike(before, later, ledgerSeq, r.readOnly);
    ExtendSimulatedThenApplied(o, s, store, later, keys, extendTo, ledgerSeq, cap);
    var (after, applied) := ExtendApplied(o, s, later, ledgerSeq, extendTo, r, cap);
    ExtendsAllOrNone(o, s, before, later, ledgerSeq, living, ttl, cap, after, applied);
  }

  lemma ExtendsAllOrNone(o: Oracles, s: Settings, before: Store, later: Store, ledgerSeq: u32, living: seq<LedgerKey>,
                         ttl: u32, cap: Option<int>, after: Store, applied: Applied)
    requires SameContractEntries(before, later) && forall k :: k in living ==> IsTtlKey(k) && k in before
    requires ExtendEffectIs(o, s, later, ledgerSeq, living, ttl, cap, after, applied)
    ensures applied.Moved? <==> MoveFits(o, s, before, living, FromNonzeroTtl, ttl, ledgerSeq, cap)
    ensures MovesExactly(before, after, if applied.Moved? then living else [], ttl)
  {
    SameRoomSameRent(o, s, before, later, living, FromNonzeroTtl, ttl, ledgerSeq, cap);
    WithTtlMoves(later, living, ttl);
    MovesAround(before, later, after, after, if applied.Moved? then living else [], ttl);
  }

  lemma ExtendOutcome(o: Oracles, s: Settings, e: EnvState, sub: Submission, opExists: bool, cap: Option<int>)
    requires sub.tx.operations != [] && sub.tx.operations[0].body.ExtendFootprintTtl? && sub.tx.ext.Some?
    ensures var (ran, outcome, _) := RunOperation(o, s, e, sub, opExists, cap);
            var extendTo, r := sub.tx.operations[0].body.extendTo, sub.tx.ext.value.resources;
            var (store, applied) := ExtendApplied(o, s, e.store, e.ledgerSeq, extendTo, r, cap);
            && (outcome.ok <==> opExists && applied.Moved?)
            && ran.store == if opExists then store else e.store
  {}

  /** What an extension of a simulated footprint comes to. */
  ghost predicate ExtendsLiving(o: Oracles, s: Settings, before: Store, after: Store, extendTo: u32,
                                returned: seq<LedgerKey>, ledgerSeq: u32, opExists: bool, cap: Option<int>, ok: bool) {
    var living, ttl := LivingKeys(before, ledgerSeq, returned), ExtendedTtl(ledgerSeq, extendTo);
    && (forall k :: k in living ==> IsTtlKey(k) && k in before)
    && (ok <==> opExists && MoveFits(o, s, before, living, FromNonzeroTtl, ttl, ledgerSeq, cap))
    && MovesExactly(before, after, if ok then living else [], ttl)
  }

  /** The operation on the charged ledger `e`, seen from the store `before` bookkeeping. */
  lemma ExtendRuns(o: Oracles, s: Settings, store: Store, before: Store, e: EnvState, sub: Submission, opExists: bool,
                   cap: Option<int>, keys: seq<LedgerKey>)
    requires sub.tx.operations != [] && sub.tx.operations[0].body.ExtendFootprintTtl? && sub.tx.ext.Some?
    requires ExtendSimulated(o, store, keys, sub.tx.operations[0].body.extendTo, e.ledgerSeq,
                             sub.tx.ext.value.resources)
    requires SameContractEntries(store, before) && SameContractEntries(before, e.store)
    ensures var (ran, outcome, _) := RunOperation(o, s, e, sub, opExists, cap);
            ExtendsLiving(o, s, before, ran.store, sub.tx.operations[0].body.extendTo,
                          sub.tx.ext.value.resources.readOnly, e.ledgerSeq, opExists, cap, outcome.ok)
  {
    var extendTo, r := sub.tx.operations[0].body.extendTo, sub.tx.ext.value.resources;
    ExtendAppliesToLiving(o, s, store, before, e.store, keys, extendTo, e.ledgerSeq, r, cap);
    ExtendOutcome(o, s, e, sub, opExists, cap);
    WithTtlMoves(before, [], 0);
    MovesAround(before, before, before, e.store, [], ExtendedTtl(e.ledgerSeq, extendTo));
  }

  lemma ExtendOperates(o: Oracles, s: Settings, store: Store, e: EnvState, sub: Submission, keys: seq<LedgerKey>)
    requires PassesChecks(o, s, e, sub) && sub.tx.operations != [] && sub.tx.ext.Some?
    requires sub.tx.operations[0].body.ExtendFootprintTtl?
    requires ExtendSimulated(o, store, keys, sub.tx.operations[0].body.extendTo, e.ledgerSeq,
                             sub.tx.ext.value.resources)
    requires SameContractEntries(store, e.store)
    ensures var (after, outcome) := Operated(o, s, e, sub);
            ExtendsLiving(o, s, e.store, after, sub.tx.operations[0].body.extendTo, sub.tx.ext.value.resources.readOnly,
                          e.ledgerSeq, LoadAccount(e.store, OpSourceId(sub)).Some?, RefundableCap(o, s, sub),
                          outcome.ok)
  {
    BookkeepingKeepsContracts(o, s, e, sub);
    ExtendRuns(o, s, store, e.store, Charged(o, s, e, sub), sub, LoadAccount(e.store, OpSourceId(sub)).Some?,
               RefundableCap(o, s, sub), keys);
  }

  lemma ExtendsAround(o: Oracles, s: Settings, before: Store, operated: Store, after: Store, extendTo: u32,
                      returned: seq<LedgerKey>, ledgerSeq: u32, opExists: bool, cap: Option<int>, ok: bool)
    requires ExtendsLiving(o, s, before, operated, extendTo, returned, ledgerSeq, opExists, cap, ok)
    requires SameContractEntries(operated, after)
    ensures ExtendsLiving(o, s, before, after, extendTo, returned, ledgerSeq, opExists, cap, ok)
    ensures ok ==> LiveIff(after, LivingKeys(before, ledgerSeq, returned), ledgerSeq,
                           ledgerSeq + extendTo <= U32_MAX)
  {
    var moved := if ok then LivingKeys(before, ledgerSeq, returned) else [];
    MovesAround(before, before, operated, after, moved, ExtendedTtl(ledgerSeq, extendTo));
    MovedLive(before, after, moved, ExtendedTtl(ledgerSeq, extendTo), ledgerSeq);
    ExtendedTtlIs(ledgerSeq, extendTo);
  }

  /** And the keys it moves live iff ledger + extendTo fits a u32. */
  ghost predicate ExtendsOrArchives(o: Oracles, s: Settings, before: Store, after: Store, extendTo: u32,
                                    returned: seq<LedgerKey>, ledgerSeq: u32, opExists: bool, cap: Option<int>,
                                    ok: bool) {
    && ExtendsLiving(o, s, before, after, extendTo, returned, ledgerSeq, opExists, cap, ok)
    && (ok ==> LiveIff(after, LivingKeys(before, ledgerSeq, returned), ledgerSeq, ledgerSeq + extendTo <= U32_MAX))
  }

  /** The operation and then any bookkeeping. */
  lemma ExtendLeaves(o: Oracles, s: Settings, store: Store, e: EnvState, sub: Submission, keys: seq<LedgerKey>,
                     after: Store)
    requires PassesChecks(o, s, e, sub) && sub.tx.operations != [] && sub.tx.ext.Some?
    requires sub.tx.operations[0].body.ExtendFootprintTtl?
    requires ExtendSimulated(o, store, keys, sub.tx.operations[0].body.extendTo, e.ledgerSeq,
                             sub.tx.ext.value.resources)
    requires SameContractEntries(store, e.store) && SameContractEntries(Operated(o, s, e, sub).0, after)
    ensures var extendTo, returned := sub.tx.operations[0].body.extendTo, sub.tx.ext.value.resources.readOnly;
            var ok := Operated(o, s, e, sub).1.ok;
            ExtendsOrArchives(o, s, e.store, after, extendTo, returned, e.ledgerSeq,
                              LoadAccount(e.store, OpSourceId(sub)).Some?, RefundableCap(o, s, sub), ok)
  {
    ExtendOperates(o, s, store, e, sub, keys);
    ExtendsAround(o, s, e.store, Operated(o, s, e, sub).0, after, sub.tx.operations[0].body.extendTo,
                  sub.tx.ext.value.resources.readOnly, e.ledgerSeq, LoadAccount(e.store, OpSourceId(sub)).Some?,
                  RefundableCap(o, s, sub), Operated(o, s, e, sub).1.ok);
  }

  /**
   * An extension simulated in the last closed ledger and submitted with the
   * footprint it returned: it succeeds exactly when the operation's source
   * exists, no returned key still living is over the network's size limit and
   * the refundable fee covers their rent. Success gives exactly those keys the
   * extended TTL, and so keeps them alive iff ledger + extendTo fits a u32;
   * failure moves nothing.
   */
  lemma ExtendSimulatedThenSubmitted(o: Oracles, s: Settings, store: Store, e: EnvState, envelope: Envelope,
                                     options: ValidationOptions, keys: seq<LedgerKey>)
    requires Applies(o, s, e, envelope, options)
    requires var tx := InnerTx(envelope);
             && tx.operations != [] && tx.operations[0].body.ExtendFootprintTtl? && tx.ext.Some?
             && ExtendSimulated(o, store, keys, tx.operations[0].body.extendTo, e.ledgerSeq, tx.ext.value.resources)
    requires SameContractEntries(store, e.store)
    ensures var (after, outcome) := Submitted(o, s, e, envelope, options);
            var extendTo, returned :=
                InnerTx(envelope).operations[0].body.extendTo, InnerTx(envelope).ext.value.resources.readOnly;
            var sub := SubmissionOf(envelope, options);
            ExtendsOrArchives(o, s, e.store, after.store, extendTo, returned, e.ledgerSeq,
                              LoadAccount(e.store, OpSourceId(sub)).Some?, RefundableCap(o, s, sub), outcome.ok)
  {
    OnlyTheOperationMovesContracts(o, s, e, envelope, options);
    ExtendLeaves(o, s, store, e, SubmissionOf(envelope, options), keys, Submitted(o, s, e, envelope, options).0.store);
  }

  // ---- the quoted fee ------------------------------------------------------------------

  /** What a submission that declares a quote gets: past the fee test, and enough left for what was simulated. */
  ghost predicate QuoteSuffices(o: Oracles, s: Settings, sub: Submission, simulated: int)
    requires sub.tx.ext.Some? && sub.tx.operations != []
  {
    ResourceFeeCovers(o, s, sub) && (sub.charge.Some? ==> RefundableCap(o, s, sub).value >= simulated)
  }

  /**
   * A submission of one operation that declares the fee its simulation quoted
   * passes the resource-fee test, and its refundable cap is at least the
   * simulated rent and events fee. Not for RestoreFootprint.
   */
  lemma QuotedSubmissionCovered(o: Oracles, s: Settings, sub: Submission, op: Operation, data: SorobanData,
                                restored: seq<u32>, eventsSize: u32, rentChanges: seq<RentChange>, simulatedIn: u32)
    requires FeeAssumptions(o) && WithinXdrLimits(sub.tx, sub.signatures)
    requires sub.tx.operations == [op] && !op.body.RestoreFootprint? && sub.tx.ext == Some(data)
    requires sub.txSize == EnvelopeV1Size(sub.tx, sub.signatures) <= U32_MAX && |ArchivedIndexes(data)| <= |restored|
    requires PreflightResourceFee(o, s.fees, op.body, data.resources, restored, eventsSize, rentChanges, simulatedIn)
          == Some(data.resourceFee)
    requires data.resourceFee <= MAX_RESOURCE_FEE
    ensures QuoteSuffices(o, s, sub, o.rentFee(s.fees, rentChanges, simulatedIn) + EventsFee(o, s.fees, eventsSize))
  {
    QuoteCoversSubmission(o, s.fees, sub.tx, sub.signatures, op, data, restored, eventsSize, rentChanges, simulatedIn);
  }

  /** In particular an extension with the resources and the minResourceFee the adapter answered its simulation with. */
  lemma QuotedExtensionCovered(rpc: InProcessRpc, sub: Submission, p: Preflight, op: Operation, data: SorobanData)
    requires FeeAssumptions(rpc.ledger.o) && WithinXdrLimits(sub.tx, sub.signatures)
    requires sub.tx.operations == [op] && op.body.ExtendFootprintTtl? && sub.tx.ext == Some(data) && data.archived.None?
    requires sub.txSize == EnvelopeV1Size(sub.tx, sub.signatures) <= U32_MAX
    requires p.Preflight? && p.resources == data.resources
    requires rpc.MinResourceFee(op.body, p) == Some(data.resourceFee) && data.resourceFee <= MAX_RESOURCE_FEE
    ensures var rent := rpc.ledger.o.rentFee(rpc.ledger.s.fees, p.rentChanges, rpc.SimulatedIn());
            QuoteSuffices(rpc.ledger.o, rpc.ledger.s, sub, rent + EventsFee(rpc.ledger.o, rpc.ledger.s.fees, 0))
  {
    QuotedSubmissionCovered(rpc.ledger.o, rpc.ledger.s, sub, op, data, [], 0, p.rentChanges, rpc.SimulatedIn());
  }
}
