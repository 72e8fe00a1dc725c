/** What one submission guarantees: about the ledger, and about the fee. */
module TransactionLaws {
  import opened Sequences
  import opened Xdr
  import opened Signatures
  import opened Accounts
  import opened Host
  import opened Fees
  import opened Environment
  import opened EnvironmentLaws
  import opened FootprintOps
  import opened Validation
  import opened Transactions

  /** What applyEnvelope hands to applyInner. */
  function SubmissionOf(env: Envelope, options: ValidationOptions): Submission
    requires !env.EnvelopeV0?
  {
    if env.EnvelopeV1? then PlainSubmission(env.tx, env.signatures, options) else BumpSubmission(env, options)
  }

  /** The envelope gets past applyEnvelope's or applyFeeBump's own checks. */
  ghost predicate OuterAccepted(o: Oracles, e: EnvState, env: Envelope, options: ValidationOptions) {
    match env
    case EnvelopeV0 => false
    case EnvelopeV1(tx, _) => !PlainMalformed(tx)
    case EnvelopeFeeBump(_, _, _, _, _) => OuterProblem(o, e, env, options).None?
  }

  ghost predicate Applies(o: Oracles, s: Settings, e: EnvState, env: Envelope, options: ValidationOptions) {
    OuterAccepted(o, e, env, options) && PassesChecks(o, s, e, SubmissionOf(env, options))
  }

  lemma OperationCodes(o: Oracles, s: Settings, e: EnvState, sub: Submission, opExists: bool, cap: Option<int>)
    requires sub.tx.operations != [] && sub.tx.ext.Some?
    ensures var outcome := RunOperation(o, s, e, sub, opExists, cap).1;
            RanNotRejected(outcome)
  {
    match sub.tx.operations[0].body
    case ExtendFootprintTtl(extendTo) =>
      FootprintCodes(ExtendApplied(o, s, e.store, e.ledgerSeq, extendTo, sub.tx.ext.value.resources, cap).1,
                     ExtendResourceLimitExceeded, ExtendInsufficientRefundableFee, ExtendSuccess);
    case RestoreFootprint =>
      FootprintCodes(RestoreApplied(o, s, e.store, e.ledgerSeq, sub.tx.ext.value.resources, cap).1,
                     RestoreResourceLimitExceeded, RestoreInsufficientRefundableFee, RestoreSuccess);
    case InvokeHostFunction(_, _) =>
    case ClassicOperation(_) =>
  }

  predicate RanNotRejected(outcome: TxOutcome) {
    !outcome.rejected && outcome.code == if outcome.ok then TxSuccess else TxFailed
  }

  lemma FootprintCodes(applied: Applied, overLimit: FootprintResult, short: FootprintResult, success: FootprintResult)
    ensures RanNotRejected(FootprintOutcome(applied, overLimit, short, success).0)
  {}

  /** What the inner path comes to: a rejection that changes nothing, or a commit. */
  lemma InnerRejectedOrApplied(o: Oracles, s: Settings, e: EnvState, sub: Submission)
    ensures var (after, outcome) := InnerApplied(o, s, e, sub);
            && (outcome.rejected <==> !PassesChecks(o, s, e, sub))
            && (outcome.rejected ==> after == e)
            && (!outcome.rejected ==> RanNotRejected(outcome) && after == Committed(o, s, e, sub).0)
  {
    if PassesChecks(o, s, e, sub) {
      var opExists := LoadAccount(e.store, OpSourceId(sub)).Some?;
      OperationCodes(o, s, Charged(o, s, e, sub), sub, opExists, RefundableCap(o, s, sub));
    }
  }

  /**
   * An envelope is rejected exactly when some check fails; then the ledger is
   * untouched. One that applies is never reported with a rejection's code.
   */
  lemma RejectedOrApplied(o: Oracles, s: Settings, e: EnvState, env: Envelope, options: ValidationOptions)
    ensures var (after, outcome) := Submitted(o, s, e, env, options);
            && (outcome.rejected <==> !Applies(o, s, e, env, options))
            && (outcome.rejected ==> after == e)
            && (!outcome.rejected ==>
                  && outcome.code == (if env.EnvelopeV1? then if outcome.ok then TxSuccess else TxFailed
                                      else if outcome.ok then TxFeeBumpInnerSuccess else TxFeeBumpInnerFailed)
                  && after == Committed(o, s, e, SubmissionOf(env, options)).0)
  {
    if OuterAccepted(o, e, env, options) { InnerRejectedOrApplied(o, s, e, SubmissionOf(env, options)); }
  }

  // ---- a weak fee bump ------------------------------------------------------------------

  /** Turned away for the bid alone, before the fee source is looked at. */
  ghost predicate BidRefused(o: Oracles, e: EnvState, env: Envelope, options: ValidationOptions)
    requires env.EnvelopeFeeBump?
  {
    OuterProblem(o, e, env, options).Some?
        && OuterProblem(o, e, env, options).value.code in {TxMalformed, TxInsufficientFee}
  }

  lemma BidRefusedIff(o: Oracles, e: EnvState, env: Envelope, options: ValidationOptions)
    requires env.EnvelopeFeeBump? && !InvalidXdrFee(env.inner)
    ensures var inclusion, innerOps := env.fee - DeclaredResourceFee(env.inner), |env.inner.operations|;
            BidRefused(o, e, env, options) <==>
              env.fee < 0 || inclusion < MinInclusion(innerOps + 1)
              || !RaisesRate(inclusion, env.inner.fee - DeclaredResourceFee(env.inner), innerOps)
  {
    var feeAccount := LoadAccount(e.store, env.feeSource.id);
    if feeAccount.Some? {
      assert OuterAccountProblem(o, env, feeAccount.value, options).Some? ==>
          OuterAccountProblem(o, env, feeAccount.value, options).value.code in {TxBadAuth, TxInsufficientBalance,
              TxBadAuthExtra};
    }
  }

  /** The bid meets the minimum and does not raise the inner transaction's rate. */
  predicate WeakBump(env: Envelope)
    requires env.EnvelopeFeeBump?
  {
    var inclusion, innerOps := env.fee - DeclaredResourceFee(env.inner), |env.inner.operations|;
    && !InvalidXdrFee(env.inner) && 0 <= env.fee && MinInclusion(innerOps + 1) <= inclusion
    && !RaisesRate(inclusion, env.inner.fee - DeclaredResourceFee(env.inner), innerOps)
  }

  lemma WeakBumpReports(o: Oracles, s: Settings, e: EnvState, env: Envelope, options: ValidationOptions)
    requires env.EnvelopeFeeBump? && WeakBump(env)
    ensures var needed := NeededInclusion(env.inner.fee - DeclaredResourceFee(env.inner), |env.inner.operations|);
            needed > 0 ==> Submitted(o, s, e, env, options) == (e, Fail(TxInsufficientFee, needed))
  {
    var needed := NeededInclusion(env.inner.fee - DeclaredResourceFee(env.inner), |env.inner.operations|);
    assert OuterProblem(o, e, env, options) == Some(Fail(TxInsufficientFee, needed));
  }

  /**
   * The fee reported for a bump that does not raise the rate is the least that
   * works: bidding the resource fee and that much clears every test of the bid,
   * and no smaller bid does.
   */
  lemma WeakBumpCanBeRaised(o: Oracles, s: Settings, e: EnvState, env: Envelope, options: ValidationOptions,
                            raised: Envelope)
    requires env.EnvelopeFeeBump? && WeakBump(env)
    requires raised.EnvelopeFeeBump? && raised.inner == env.inner
    ensures var (after, outcome) := Submitted(o, s, e, env, options);
            && after == e && outcome.rejected && outcome.code == TxInsufficientFee
            && (BidRefused(o, e, raised, options)
                <==> raised.fee < Max(0, DeclaredResourceFee(env.inner) + outcome.feeCharged))
  {
    var resourceFee, innerOps := DeclaredResourceFee(env.inner), |env.inner.operations|;
    ReportedFeeIsLeast(env.fee - resourceFee, env.inner.fee - resourceFee, innerOps, raised.fee - resourceFee);
    WeakBumpReports(o, s, e, env, options);
    BidRefusedIff(o, e, raised, options);
  }

  // ---- the fee --------------------------------------------------------------------------

  /** consumed <= maxRefundable, whichever operation ran; nothing if it failed. */
  lemma OperationConsumes(o: Oracles, s: Settings, e: EnvState, sub: Submission, opExists: bool, cap: nat)
    requires FeeAssumptions(o) && sub.tx.operations != [] && sub.tx.ext.Some?
    ensures var (_, outcome, consumed) := RunOperation(o, s, e, sub, opExists, Some(cap));
            && consumed.nonRefundable == 0
            && 0 <= consumed.rent && 0 <= consumed.refundable <= cap
            && (!outcome.ok ==> consumed.refundable == 0 && consumed.rent == 0)
  {
    var op, r := sub.tx.operations[0].body, sub.tx.ext.value.resources;
    match op
    case InvokeHostFunction(hostFn, auth) =>
      SendConsumes(o, s, e, SendRequest(hostFn, OpSourceId(sub), r, auth, [], Some(cap)), cap);
    case ExtendFootprintTtl(extendTo) => ExtensionConsumes(o, s, e, extendTo, r, cap);
    case RestoreFootprint => RestorationConsumes(o, s, e, r, cap);
    case ClassicOperation(_) =>
  }

  lemma ExtensionConsumes(o: Oracles, s: Settings, e: EnvState, extendTo: u32, r: Resources, cap: nat)
    requires FeeAssumptions(o)
    ensures var applied := ExtendApplied(o, s, e.store, e.ledgerSeq, extendTo, r, Some(cap)).1;
            applied.Moved? ==> 0 <= applied.rent <= cap
  {}

  lemma RestorationConsumes(o: Oracles, s: Settings, e: EnvState, r: Resources, cap: nat)
    requires FeeAssumptions(o)
    ensures var applied := RestoreApplied(o, s, e.store, e.ledgerSeq, r, Some(cap)).1;
            applied.Moved? ==> 0 <= applied.rent <= cap
  {}

  lemma SendConsumes(o: Oracles, s: Settings, e: EnvState, req: SendRequest, cap: nat)
    requires FeeAssumptions(o) && req.maxRefundable == Some(cap)
    ensures var r := Sent(o, s, e, req).1;
            r.ok ==> 0 <= r.rentFee && 0 <= r.refundableConsumed <= cap
  {
    AfterHostConsumes(o, s, e.(moduleCache := Some(CacheFor(o, s, e, req))), req, o.invoke(HostInputOf(o, s, e, req)),
                      cap);
  }

  lemma AfterHostConsumes(o: Oracles, s: Settings, e: EnvState, req: SendRequest, outcome: HostOutcome, cap: nat)
    requires FeeAssumptions(o) && req.maxRefundable == Some(cap)
    ensures var r := AfterHost(o, s, e, req, outcome).1;
            r.ok ==> 0 <= r.rentFee && 0 <= r.refundableConsumed <= cap
  {}

  function Balance(store: Store, id: PublicKey): int {
    match LoadAccount(store, id)
    case None => 0
    case Some(a) => a.balance
  }

  /** What an account may never spend: 0.5 XLM twice, and once more per subentry. */
  function Reserve(a: Account): nat { (2 + a.numSubEntries) * 5_000_000 }

  /** The account exists and holds its reserve. */
  predicate AboveReserve(store: Store, id: PublicKey) {
    LoadAccount(store, id).Some? && LoadAccount(store, id).value.balance >= Reserve(LoadAccount(store, id).value)
  }

  /** What the operation itself does to an account's balance. */
  ghost function OperationEffect(o: Oracles, s: Settings, e: EnvState, sub: Submission, id: PublicKey): int
    requires PassesChecks(o, s, e, sub)
  {
    var charged := Charged(o, s, e, sub);
    var ran := RunOperation(o, s, charged, sub, LoadAccount(e.store, OpSourceId(sub)).Some?,
                            RefundableCap(o, s, sub)).0;
    Balance(ran.store, id) - Balance(charged.store, id)
  }

  lemma TtlMoveKeepsEntry(store: Store, keys: seq<LedgerKey>, ttl: u32, key: LedgerKey)
    ensures SameEntryAt(store, WithTtl(store, keys, ttl), key)
  {}

  lemma ExtendKeepsEntry(o: Oracles, s: Settings, store: Store, ledgerSeq: u32, extendTo: u32, r: Resources,
                         cap: Option<int>, key: LedgerKey)
    ensures SameEntryAt(store, ExtendApplied(o, s, store, ledgerSeq, extendTo, r, cap).0, key)
  {
    var target := ExtendTarget(ledgerSeq, extendTo);
    TtlMoveKeepsEntry(store, Filter(ExtendMoves(store, ledgerSeq, target), r.readOnly), Wrap32(target), key);
  }

  lemma RestoreKeepsEntry(o: Oracles, s: Settings, store: Store, ledgerSeq: u32, r: Resources, cap: Option<int>,
                          key: LedgerKey)
    ensures SameEntryAt(store, RestoreApplied(o, s, store, ledgerSeq, r, cap).0, key)
  {
    TtlMoveKeepsEntry(store, Filter(Restorable(store, ledgerSeq), r.readWrite), Wrap32(RestoreTarget(s, ledgerSeq)),
                      key);
  }

  /** Only a successful invocation changes an entry, and one of its read-write footprint. */
  lemma OperationKeepsEntry(o: Oracles, s: Settings, e: EnvState, sub: Submission, opExists: bool, cap: Option<int>,
                            key: LedgerKey)
    requires HostAssumptions(o) && sub.tx.operations != [] && sub.tx.ext.Some?
    ensures var (ran, outcome, _) := RunOperation(o, s, e, sub, opExists, cap);
            var r := sub.tx.ext.value.resources;
            SameEntryAt(e.store, ran.store, key)
            || (sub.tx.operations[0].body.InvokeHostFunction? && outcome.ok && key in r.readWrite)
  {
    var r := sub.tx.ext.value.resources;
    match sub.tx.operations[0].body
    case ExtendFootprintTtl(extendTo) => ExtendKeepsEntry(o, s, e.store, e.ledgerSeq, extendTo, r, cap, key);
    case RestoreFootprint => RestoreKeepsEntry(o, s, e.store, e.ledgerSeq, r, cap, key);
    case InvokeHostFunction(hostFn, auth) =>
      var req := SendRequest(hostFn, OpSourceId(sub), r, auth, [], cap);
      SendStaysInFootprint(o, s, e, req, key);
      SendMergesAllOrNothing(o, s, e, req);
    case ClassicOperation(_) =>
  }

  /** So beyond the fee a balance moves only if a successful invocation lists the account as read-write. */
  lemma EffectIsTheInvocations(o: Oracles, s: Settings, e: EnvState, sub: Submission, id: PublicKey)
    requires HostAssumptions(o) && PassesChecks(o, s, e, sub)
    ensures OperationEffect(o, s, e, sub, id) != 0 ==>
              && sub.tx.operations[0].body.InvokeHostFunction?
              && Committed(o, s, e, sub).1.ok
              && AccountKey(id) in sub.tx.ext.value.resources.readWrite
  {
    OperationKeepsEntry(o, s, Charged(o, s, e, sub), sub, LoadAccount(e.store, OpSourceId(sub)).Some?,
                        RefundableCap(o, s, sub), AccountKey(id));
  }

  lemma ChargedStore(o: Oracles, s: Settings, e: EnvState, sub: Submission)
    requires WellKeyed(e.store) && LoadAccount(e.store, SourceId(sub)).Some? && PayerExists(e, sub)
    ensures var after := Charged(o, s, e, sub);
            && after == e.(store := after.store) && WellKeyed(after.store) && PayerExists(after, sub)
            && (sub.charge.Some? ==>
                  var payer := sub.charge.value.payer;
                  && Balance(after.store, payer) == Balance(e.store, payer) - sub.charge.value.upfront
                  && LoadAccount(after.store, payer).value.numSubEntries
                      == LoadAccount(e.store, payer).value.numSubEntries)
  {
    var current := LoadAccount(e.store, SourceId(sub));
    var to := if sub.options.sequenceCheck || current.None? then sub.tx.seqNum else current.value.seqNum + 1;
    var bumped := BumpSequence(e.store, SourceId(sub), to, e.ledgerSeq, e.timestamp);
    BumpedAccount(e.store, SourceId(sub), to, e.ledgerSeq, e.timestamp);
    if sub.charge.Some? {
      DebitedAccount(bumped, sub.charge.value.payer, sub.charge.value.upfront, e.ledgerSeq);
    }
  }

  /** The reported fee: its parts, their bounds, and their sum with the inclusion fee. */
  ghost predicate FeeAddsUp(outcome: TxOutcome, resourceFee: int, inclusion: int) {
    outcome.sorobanFee.Some? &&
    var fee := outcome.sorobanFee.value;
    && 0 <= fee.rent && 0 <= fee.nonRefundable && 0 <= fee.refundable <= resourceFee - fee.nonRefundable
    && (!outcome.ok ==> fee.refundable == 0 && fee.rent == 0)
    && outcome.feeCharged == fee.nonRefundable + fee.refundable + inclusion
  }

  /** settle gives the payer back whatever of its refundable fee was not consumed. */
  lemma SettledBalance(o: Oracles, s: Settings, e: EnvState, sub: Submission, outcome: TxOutcome, consumed: SorobanFee)
    requires WellKeyed(e.store) && PayerExists(e, sub) && sub.charge.Some? && sub.tx.operations != []
        && sub.tx.ext.Some?
    requires consumed.refundable <= RefundableCap(o, s, sub).value
    ensures var (after, settled) := Settled(o, s, e, sub, outcome, consumed);
            var payer, refund := sub.charge.value.payer, RefundableCap(o, s, sub).value - consumed.refundable;
            && LoadAccount(after.store, payer).Some?
            && Balance(after.store, payer) == Balance(e.store, payer) + refund
            && settled.ok == outcome.ok && settled.feeCharged == sub.charge.value.upfront - refund
            && settled.sorobanFee == Some(consumed.(nonRefundable := NonRefundable(o, s, sub)))
  {
    var refund := RefundableCap(o, s, sub).value - consumed.refundable;
    if refund > 0 { DebitedAccount(e.store, sub.charge.value.payer, -refund, e.ledgerSeq); }
  }

  /** Commit, seen from the payer: charged up front, moved by the operation, refunded. */
  lemma CommitConserves(o: Oracles, s: Settings, e: EnvState, sub: Submission)
    requires HostAssumptions(o) && FeeAssumptions(o) && WellKeyed(e.store)
    requires PassesChecks(o, s, e, sub) && PayerExists(e, sub) && sub.charge.Some?
    ensures var (after, outcome) := Committed(o, s, e, sub);
            var payer, resourceFee := sub.charge.value.payer, sub.tx.ext.value.resourceFee;
            && LoadAccount(after.store, payer).Some?
            && FeeAddsUp(outcome, resourceFee, sub.charge.value.upfront - resourceFee)
            && Balance(after.store, payer)
               == Balance(e.store, payer) - outcome.feeCharged + OperationEffect(o, s, e, sub, payer)
  {
    ChargedStore(o, s, e, sub);
    var charged := Charged(o, s, e, sub);
    var opExists, cap := LoadAccount(e.store, OpSourceId(sub)).Some?, RefundableCap(o, s, sub);
    OperationKeepsAccounts(o, s, charged, sub, opExists, cap);
    OperationConsumes(o, s, charged, sub, opExists, cap.value);
    var (ran, outcome, consumed) := RunOperation(o, s, charged, sub, opExists, cap);
    assert KeepsIdentity(charged.store, ran.store, sub.charge.value.payer);
    SettledBalance(o, s, ran, sub, outcome, consumed);
  }

  function FullFee(env: Envelope): int
    requires !env.EnvelopeV0?
  {
    if env.EnvelopeV1? then env.tx.fee else env.fee
  }

  /** The operations a fee pays for: one, and one more for the bump. */
  function FeeOps(env: Envelope): nat { if env.EnvelopeFeeBump? then |env.inner.operations| + 1 else 1 }

  /** What a check that passed says of the payer. */
  ghost predicate CanPay(e: EnvState, sub: Submission, fullFee: int, feeOps: nat) {
    && sub.charge.Some? && sub.tx.ext.Some? && |sub.tx.operations| == 1 && PayerExists(e, sub)
    && (var payer := LoadAccount(e.store, sub.charge.value.payer).value; fullFee + Reserve(payer) <= payer.balance)
    && sub.charge.value.upfront == sub.tx.ext.value.resourceFee + 100 * feeOps <= fullFee
  }

  lemma SourceCanPay(o: Oracles, s: Settings, e: EnvState, tx: Transaction, signatures: seq<DecoratedSignature>,
                     options: ValidationOptions)
    requires options.feeCharging && Applies(o, s, e, EnvelopeV1(tx, signatures), options)
    ensures CanPay(e, PlainSubmission(tx, signatures, options), tx.fee, 1)
  {}

  lemma FeeSourceCanPay(o: Oracles, s: Settings, e: EnvState, env: Envelope, options: ValidationOptions)
    requires env.EnvelopeFeeBump? && options.feeCharging && Applies(o, s, e, env, options)
    ensures CanPay(e, BumpSubmission(env, options), env.fee, |env.inner.operations| + 1)
  {}

  /** Before anything is charged, the payer can pay the whole bid and keep its reserve. */
  lemma PayerCanPay(o: Oracles, s: Settings, e: EnvState, env: Envelope, options: ValidationOptions)
    requires options.feeCharging && Applies(o, s, e, env, options)
    ensures CanPay(e, SubmissionOf(env, options), FullFee(env), FeeOps(env))
  {
    match env
    case EnvelopeV1(tx, signatures) => SourceCanPay(o, s, e, tx, signatures, options);
    case EnvelopeFeeBump(_, _, _, _, _) => FeeSourceCanPay(o, s, e, env, options);
  }

  /**
   * Conservation: the payer's balance falls by exactly the reported fee, apart
   * from what the operation does. The fee is the non-refundable part, what was
   * consumed, and the base fee per operation whatever the bid; it never passes
   * the full fee, and the debit up front never dips into the reserve.
   */
  lemma FeeIsConserved(o: Oracles, s: Settings, e: EnvState, env: Envelope, options: ValidationOptions)
    requires HostAssumptions(o) && FeeAssumptions(o) && WellKeyed(e.store)
    requires options.feeCharging && Applies(o, s, e, env, options)
    ensures var (after, outcome) := Submitted(o, s, e, env, options);
            var sub := SubmissionOf(env, options);
            && PayerExists(e, sub) && sub.charge.Some?
            && outcome.sorobanFee.Some?
            && FeeAddsUp(outcome, DeclaredResourceFee(sub.tx), 100 * FeeOps(env))
            && 0 <= outcome.feeCharged <= FullFee(env)
            && Balance(after.store, sub.charge.value.payer)
               == Balance(e.store, sub.charge.value.payer) - outcome.feeCharged
                  + OperationEffect(o, s, e, sub, sub.charge.value.payer)
            && AboveReserve(Charged(o, s, e, sub).store, sub.charge.value.payer)
  {
    PayerCanPay(o, s, e, env, options);
    var sub := SubmissionOf(env, options);
    RejectedOrApplied(o, s, e, env, options);
    ChargedStore(o, s, e, sub);
    CommitConserves(o, s, e, sub);
  }

  // ---- whose balance moves ----------------------------------------------------------------

  /** No invocation here may write to the account. */
  predicate CannotWrite(tx: Transaction, id: PublicKey) {
    tx.operations != [] && tx.operations[0].body.InvokeHostFunction? && tx.ext.Some?
    ==> AccountKey(id) !in tx.ext.value.resources.readWrite
  }

  /** An account that does not pay for a submission moves by what its operation does, and no more. */
  lemma OthersMoveByEffect(o: Oracles, s: Settings, e: EnvState, sub: Submission, id: PublicKey)
    requires HostAssumptions(o) && WellKeyed(e.store) && PassesChecks(o, s, e, sub) && PayerExists(e, sub)
    requires sub.charge.Some? ==> sub.charge.value.payer != id
    ensures Balance(Committed(o, s, e, sub).0.store, id) == Balance(e.store, id) + OperationEffect(o, s, e, sub, id)
  {
    ChargeKeepsOthers(o, s, e, sub, id);
    ChargedStore(o, s, e, sub);
    var charged := Charged(o, s, e, sub);
    var opExists, cap := LoadAccount(e.store, OpSourceId(sub)).Some?, RefundableCap(o, s, sub);
    OperationKeepsAccounts(o, s, charged, sub, opExists, cap);
    var (ran, outcome, consumed) := RunOperation(o, s, charged, sub, opExists, cap);
    SettleKeepsOthers(o, s, ran, sub, outcome, consumed, id);
  }

  lemma ChargeKeepsOthers(o: Oracles, s: Settings, e: EnvState, sub: Submission, id: PublicKey)
    requires WellKeyed(e.store) && LoadAccount(e.store, SourceId(sub)).Some?
    requires sub.charge.Some? ==> sub.charge.value.payer != id
    ensures Balance(Charged(o, s, e, sub).store, id) == Balance(e.store, id)
  {
    var current := LoadAccount(e.store, SourceId(sub));
    var to := if sub.options.sequenceCheck || current.None? then sub.tx.seqNum else current.value.seqNum + 1;
    BumpedAccount(e.store, SourceId(sub), to, e.ledgerSeq, e.timestamp);
    var bumped := BumpSequence(e.store, SourceId(sub), to, e.ledgerSeq, e.timestamp);
    if sub.charge.Some? && LoadAccount(bumped, sub.charge.value.payer).Some? {
      DebitedAccount(bumped, sub.charge.value.payer, sub.charge.value.upfront, e.ledgerSeq);
    }
  }

  lemma SettleKeepsOthers(o: Oracles, s: Settings, e: EnvState, sub: Submission, outcome: TxOutcome,
                          consumed: SorobanFee, id: PublicKey)
    requires WellKeyed(e.store) && sub.tx.operations != [] && sub.tx.ext.Some?
    requires sub.charge.Some? ==> sub.charge.value.payer != id
    ensures Balance(Settled(o, s, e, sub, outcome, consumed).0.store, id) == Balance(e.store, id)
  {
    if sub.charge.Some? && LoadAccount(e.store, sub.charge.value.payer).Some? {
      var refund := RefundableCap(o, s, sub).value - consumed.refundable;
      DebitedAccount(e.store, sub.charge.value.payer, -refund, e.ledgerSeq);
    }
  }

  function PayerOf(env: Envelope): PublicKey
    requires !env.EnvelopeV0?
  {
    if env.EnvelopeV1? then env.tx.source.id else env.feeSource.id
  }

  /** Every account's balance, whoever pays: less the reported fee if it is the payer, plus the operation's effect. */
  lemma BalanceMoves(o: Oracles, s: Settings, e: EnvState, env: Envelope, options: ValidationOptions, id: PublicKey)
    requires HostAssumptions(o) && FeeAssumptions(o) && WellKeyed(e.store)
    requires options.feeCharging && Applies(o, s, e, env, options)
    ensures var (after, outcome) := Submitted(o, s, e, env, options);
            Balance(after.store, id)
            == Balance(e.store, id) - (if id == PayerOf(env) then outcome.feeCharged else 0)
               + OperationEffect(o, s, e, SubmissionOf(env, options), id)
  {
    PayerCanPay(o, s, e, env, options);
    RejectedOrApplied(o, s, e, env, options);
    if id == PayerOf(env) {
      FeeIsConserved(o, s, e, env, options);
    } else {
      OthersMoveByEffect(o, s, e, SubmissionOf(env, options), id);
    }
  }

  /** An account no invocation may write pays exactly the reported fee of what it pays for, and nothing else. */
  lemma OnlyPayerPays(o: Oracles, s: Settings, e: EnvState, env: Envelope, options: ValidationOptions, id: PublicKey)
    requires HostAssumptions(o) && FeeAssumptions(o) && WellKeyed(e.store)
    requires options.feeCharging && Applies(o, s, e, env, options) && CannotWrite(SubmissionOf(env, options).tx, id)
    ensures var (after, outcome) := Submitted(o, s, e, env, options);
            Balance(after.store, id) == Balance(e.store, id) - if id == PayerOf(env) then outcome.feeCharged else 0
  {
    BalanceMoves(o, s, e, env, options, id);
    EffectIsTheInvocations(o, s, e, SubmissionOf(env, options), id);
  }
}
