/**
 * src/classic.ts, the apply path: an ordered validator, then a commit that
 * bumps the sequence, charges the fee, runs the operation and refunds.
 */
module Transactions {
  import opened Sequences
  import opened Xdr
  import opened Signatures
  import opened Accounts
  import opened Host
  import opened Fees
  import opened Environment
  import opened EnvironmentLaws
  import opened FootprintOps
  import opened Validation

  datatype ValidationOptions = ValidationOptions(sigverify: bool, sequenceCheck: bool, feeCharging: bool,
                                                 timebounds: bool)

  /** Who pays, and what leaves the payer before the operation runs. */
  datatype FeeCharge = FeeCharge(payer: PublicKey, upfront: int)

  datatype OpCode = OpBadAuth | OpNoAccount

  datatype SorobanFee = SorobanFee(nonRefundable: int, refundable: int, rent: int)

  datatype TxOutcome = TxOutcome(
    code: Code,
    ok: bool,
    rejected: bool,
    unseeded: bool,
    feeCharged: int,
    opCode: Option<OpCode>,
    footprintOp: Option<FootprintResult>,
    invokeFailure: Option<InvokeResult>,
    sorobanFee: Option<SorobanFee>,
    innerCode: Option<Code>,
    changedKeys: seq<LedgerKey>,
    removedKeys: seq<LedgerKey>)

  function Fail(code: Code, fee: int := 0): TxOutcome {
    TxOutcome(code, false, true, false, fee, None, None, None, None, None, [], [])
  }

  /** A rejection whose fee is still to be filled in. */
  predicate PlainRejection(p: TxOutcome) { p.rejected && p.feeCharged == 0 && !p.unseeded }

  function Malformed(): TxOutcome { Fail(TxMalformed).(unseeded := true) }

  function Ran(code: Code, ok: bool): TxOutcome {
    TxOutcome(code, ok, false, false, 0, None, None, None, None, None, [], [])
  }

  /** applyInner's arguments. */
  datatype Submission = Submission(
    tx: Transaction,
    signatures: seq<DecoratedSignature>,
    feeBumped: bool,
    options: ValidationOptions,
    txSize: nat,
    charge: Option<FeeCharge>)

  // ---- validation --------------------------------------------------------------------

  /** checkValid up to the source account: the envelope's shape, its resources, its fee, its bounds. */
  ghost function EnvelopeProblem(o: Oracles, s: Settings, e: EnvState, sub: Submission): (p: Option<TxOutcome>)
    ensures p.Some? ==> PlainRejection(p.value)
  {
    var tx := sub.tx;
    if ExtraSignersMalformed(tx) then Some(Fail(TxMalformed))
    else if tx.operations == [] then Some(Fail(TxMissingOperation))
    else if (forall op :: op in tx.operations ==> !IsSorobanOp(op)) then Some(Fail(TxMalformed))
    else if (exists op :: op in tx.operations && !IsSorobanOp(op)) || |tx.operations| != 1 then Some(Fail(TxMalformed))
    else if MemoOrMuxed(tx, tx.operations[0]) then Some(Fail(TxSorobanInvalid))
    else if tx.ext.None? then Some(Fail(TxSorobanInvalid))
    else if !ResourcesOk(s.fees, tx.ext.value, sub.txSize, tx.operations[0].body.RestoreFootprint?)
        then Some(Fail(TxSorobanInvalid))
    else if !ResourceFeeCovers(o, s, sub) then Some(Fail(TxSorobanInvalid))
    else if sub.options.timebounds && BoundsProblem(e.ledgerSeq, e.timestamp, tx).Some?
    then Some(Fail(BoundsProblem(e.ledgerSeq, e.timestamp, tx).value))
    else None
  }

  /** computeSorobanResourceFee of the declared resources, with no events yet. */
  function DeclaredCost(o: Oracles, s: Settings, sub: Submission): ResourceFee
    requires sub.tx.ext.Some? && sub.tx.operations != []
  {
    ComputeResourceFee(o, s.fees, sub.tx.ext.value, sub.txSize, 0, sub.tx.operations[0].body.RestoreFootprint?)
  }

  /** Where fees are charged, the declared resource fee covers what the declared resources cost. */
  predicate ResourceFeeCovers(o: Oracles, s: Settings, sub: Submission)
    requires sub.tx.ext.Some? && sub.tx.operations != []
  {
    var cost := DeclaredCost(o, s, sub);
    sub.charge.Some? ==> sub.tx.ext.value.resourceFee >= cost.nonRefundable + cost.refundable
  }

  function SourceId(sub: Submission): PublicKey { sub.tx.source.id }

  function OpSourceId(sub: Submission): PublicKey
    requires sub.tx.operations != []
  {
    var op := sub.tx.operations[0];
    if op.source.Some? then op.source.value.id else SourceId(sub)
  }

  // ---- the three checks over one checker ----------------------------------------------

  function VerifierFor(o: Oracles, sub: Submission): Verifier { VerifierOf(o.crypto, o.txHash(sub.tx)) }

  function SourceCheck(o: Oracles, sub: Submission, source: Account): Check {
    Decide(VerifierFor(o, sub), sub.signatures, AccountSigners(source), source.thresholds.low)
  }

  function ExtraAsSigners(tx: Transaction): seq<Signer> {
    seq(|ExtraSigners(tx)|, k requires 0 <= k < |ExtraSigners(tx)| => Signer(ExtraSigners(tx)[k], 1))
  }

  /** checkExtraSigners: nothing to check without any. */
  function ExtraCheck(o: Oracles, sub: Submission): Check {
    if ExtraSigners(sub.tx) == [] then Check(true, 0, [])
    else Decide(VerifierFor(o, sub), sub.signatures, ExtraAsSigners(sub.tx), |ExtraSigners(sub.tx)|)
  }

  /** MEDIUM for InvokeHostFunction, LOW for the footprint operations. */
  function OpThreshold(op: Operation, a: Account): nat {
    if op.body.InvokeHostFunction? then a.thresholds.medium else a.thresholds.low
  }

  function OpSigners(sub: Submission, opAccount: Option<Account>): seq<Signer>
    requires sub.tx.operations != []
  {
    if opAccount.Some? then AccountSigners(opAccount.value) else [Signer(Ed25519(OpSourceId(sub)), 1)]
  }

  function OpNeeded(sub: Submission, opAccount: Option<Account>): nat
    requires sub.tx.operations != []
  {
    if opAccount.Some? then OpThreshold(sub.tx.operations[0], opAccount.value) else 0
  }

  function OpCheck(o: Oracles, sub: Submission, opAccount: Option<Account>): Check
    requires sub.tx.operations != []
  {
    Decide(VerifierFor(o, sub), sub.signatures, OpSigners(sub, opAccount), OpNeeded(sub, opAccount))
  }

  ghost predicate AllUsed(signatures: seq<DecoratedSignature>, log: seq<Counted>) {
    forall i :: 0 <= i < |signatures| ==> Consumed(log, i)
  }

  /** checkValid from the source account on. */
  ghost function AccountProblem(o: Oracles, s: Settings, e: EnvState, sub: Submission): (p: Option<TxOutcome>)
    requires sub.tx.operations != [] && sub.tx.ext.Some?
    ensures p.Some? ==> PlainRejection(p.value)
  {
    var tx, source := sub.tx, LoadAccount(e.store, SourceId(sub));
    if source.None? then Some(Fail(TxNoAccount))
    else if tx.seqNum == e.ledgerSeq * 0x1_0000_0000 then Some(Fail(TxBadSeq))
    else if sub.options.sequenceCheck && BadSequence(tx, source.value.seqNum) then Some(Fail(TxBadSeq))
    else if sub.options.timebounds && TooEarlyForAccount(e.ledgerSeq, e.timestamp, tx, source.value)
    then Some(Fail(TxBadMinSeqAgeOrGap))
    else if sub.options.sigverify && !(SourceCheck(o, sub, source.value).done && ExtraCheck(o, sub).done)
    then Some(Fail(TxBadAuth))
    else if !sub.feeBumped && tx.fee - tx.ext.value.resourceFee < BASE_FEE then Some(Fail(TxInsufficientFee))
    else if sub.charge.Some? && !sub.feeBumped
            && AvailableBalance(LoadAccount(e.store, sub.charge.value.payer).GetOr(source.value)) < tx.fee
    then Some(Fail(TxInsufficientBalance))
    else OperationProblem(o, s, sub, source.value, LoadAccount(e.store, OpSourceId(sub)))
  }

  ghost function OperationProblem(o: Oracles, s: Settings, sub: Submission, source: Account,
                                  opAccount: Option<Account>): (p: Option<TxOutcome>)
    requires sub.tx.operations != [] && sub.tx.ext.Some?
    ensures p.Some? ==> PlainRejection(p.value)
  {
    var malformed := FootprintOpMalformed(s, sub.tx.operations[0], sub.tx.ext.value.resources);
    if sub.options.sigverify && !OpCheck(o, sub, opAccount).done then Some(Fail(TxFailed).(opCode := Some(OpBadAuth)))
    else if malformed.Some? then Some(Fail(TxFailed).(footprintOp := malformed))
    else if sub.options.sigverify
            && !AllUsed(sub.signatures,
                        SourceCheck(o, sub, source).log + ExtraCheck(o, sub).log + OpCheck(o, sub, opAccount).log)
    then Some(Fail(TxBadAuthExtra))
    else None
  }

  ghost function Problem(o: Oracles, s: Settings, e: EnvState, sub: Submission): (p: Option<TxOutcome>)
    ensures p.Some? ==> PlainRejection(p.value)
  {
    var p := EnvelopeProblem(o, s, e, sub);
    if p.Some? then p else AccountProblem(o, s, e, sub)
  }

  // ---- the commit ----------------------------------------------------------------------

  /** What the fee source gets back: the refundable fee the operation did not consume. */
  function Refund(store: Store, payer: PublicKey, refund: int, ledgerSeq: u32): Store {
    if refund > 0 then Debit(store, payer, -refund, ledgerSeq) else store
  }

  /** The operation, once the sequence is bumped and the fee charged. */
  ghost function RunOperation(o: Oracles, s: Settings, e: EnvState, sub: Submission, opExists: bool, cap: Option<int>)
    : (EnvState, TxOutcome, SorobanFee)
    requires sub.tx.operations != [] && sub.tx.ext.Some?
  {
    var op, r := sub.tx.operations[0], sub.tx.ext.value.resources;
    if !opExists then (e, Ran(TxFailed, false).(opCode := Some(OpNoAccount)), SorobanFee(0, 0, 0))
    else
      match op.body
      case ExtendFootprintTtl(extendTo) =>
        var (store, applied) := ExtendApplied(o, s, e.store, e.ledgerSeq, extendTo, r, cap);
        var (outcome, fee) := FootprintOutcome(applied, ExtendResourceLimitExceeded, ExtendInsufficientRefundableFee,
                                               ExtendSuccess);
        (e.(store := store), outcome, fee)
      case RestoreFootprint =>
        var (store, applied) := RestoreApplied(o, s, e.store, e.ledgerSeq, r, cap);
        var (outcome, fee) := FootprintOutcome(applied, RestoreResourceLimitExceeded, RestoreInsufficientRefundableFee,
                                               RestoreSuccess);
        (e.(store := store), outcome, fee)
      case InvokeHostFunction(hostFn, auth) =>
        var (after, sent) := Sent(o, s, e, SendRequest(hostFn, OpSourceId(sub), r, auth, [], cap));
        (after, InvokeOutcome(sent), if sent.ok then SorobanFee(0, sent.refundableConsumed, sent.rentFee)
         else SorobanFee(0, 0, 0))
      case ClassicOperation(_) => (e, Ran(TxFailed, false), SorobanFee(0, 0, 0))
  }

  function FootprintOutcome(applied: Applied, overLimit: FootprintResult, short: FootprintResult,
                            success: FootprintResult): (TxOutcome, SorobanFee)
  {
    match applied
    case OverLimit => (Ran(TxFailed, false).(footprintOp := Some(overLimit)), SorobanFee(0, 0, 0))
    case Short => (Ran(TxFailed, false).(footprintOp := Some(short)), SorobanFee(0, 0, 0))
    case Moved(changed, rent) =>
      (Ran(TxSuccess, true).(footprintOp := Some(success), changedKeys := changed), SorobanFee(0, rent, rent))
  }

  function InvokeOutcome(sent: SendResult): TxOutcome {
    Ran(if sent.ok then TxSuccess else TxFailed, sent.ok)
      .(changedKeys := sent.changedKeys, removedKeys := sent.removedKeys, invokeFailure := sent.failure)
  }

  function NonRefundable(o: Oracles, s: Settings, sub: Submission): int
    requires sub.tx.operations != [] && sub.tx.ext.Some?
  {
    if sub.charge.Some? then DeclaredCost(o, s, sub).nonRefundable else 0
  }

  /** The account and fee-source writes that come before the operation. */
  function Charged(o: Oracles, s: Settings, e: EnvState, sub: Submission): EnvState {
    var current := LoadAccount(e.store, SourceId(sub));
    var to := if sub.options.sequenceCheck || current.None? then sub.tx.seqNum else current.value.seqNum + 1;
    var bumped := BumpSequence(e.store, SourceId(sub), to, e.ledgerSeq, e.timestamp);
    match sub.charge
    case None => e.(store := bumped)
    case Some(charge) => e.(store := Debit(bumped, charge.payer, charge.upfront, e.ledgerSeq))
  }

  /** settle: the refund, and what was charged in all. */
  function Settled(o: Oracles, s: Settings, e: EnvState, sub: Submission, outcome: TxOutcome,
                   consumed: SorobanFee): (EnvState, TxOutcome)
    requires sub.tx.operations != [] && sub.tx.ext.Some?
  {
    if sub.charge.None? then (e, outcome)
    else
      var refund := sub.tx.ext.value.resourceFee - NonRefundable(o, s, sub) - consumed.refundable;
      (e.(store := Refund(e.store, sub.charge.value.payer, refund, e.ledgerSeq)),
       outcome.(feeCharged := sub.charge.value.upfront - refund,
                sorobanFee := Some(consumed.(nonRefundable := NonRefundable(o, s, sub)))))
  }

  function RefundableCap(o: Oracles, s: Settings, sub: Submission): Option<int>
    requires sub.tx.operations != [] && sub.tx.ext.Some?
  {
    if sub.charge.Some? then Some(sub.tx.ext.value.resourceFee - NonRefundable(o, s, sub)) else None
  }

  /** The envelope passed every check: nothing after this rejects it. */
  ghost predicate PassesChecks(o: Oracles, s: Settings, e: EnvState, sub: Submission) { Problem(o, s, e, sub).None? }

  ghost predicate PayerExists(e: EnvState, sub: Submission) {
    sub.charge.Some? ==> LoadAccount(e.store, sub.charge.value.payer).Some?
  }

  ghost function Committed(o: Oracles, s: Settings, e: EnvState, sub: Submission): (EnvState, TxOutcome)
    requires PassesChecks(o, s, e, sub)
  {
    var opExists := LoadAccount(e.store, OpSourceId(sub)).Some?;
    var (after, outcome, consumed) :=
        RunOperation(o, s, Charged(o, s, e, sub), sub, opExists, RefundableCap(o, s, sub));
    Settled(o, s, after, sub, outcome, consumed)
  }

  ghost function InnerApplied(o: Oracles, s: Settings, e: EnvState, sub: Submission): (EnvState, TxOutcome)
  {
    var p := Problem(o, s, e, sub);
    if p.Some? then (e, p.value) else Committed(o, s, e, sub)
  }

  // ---- envelopes -----------------------------------------------------------------------

  function PlainSubmission(tx: Transaction, signatures: seq<DecoratedSignature>, options: ValidationOptions): Submission
  {
    Submission(tx, signatures, false, options, EnvelopeV1Size(tx, signatures),
               if options.feeCharging
               then Some(FeeCharge(tx.source.id, FeeToCharge(tx.fee, DeclaredResourceFee(tx), |tx.operations|)))
                   else None)
  }

  function BumpSubmission(env: Envelope, options: ValidationOptions): Submission
    requires env.EnvelopeFeeBump?
  {
    Submission(env.inner, env.innerSignatures, true, options, EnvelopeV1Size(env.inner, env.innerSignatures),
               if options.feeCharging
               then Some(FeeCharge(env.feeSource.id,
                                   FeeToCharge(env.fee, DeclaredResourceFee(env.inner), |env.inner.operations| + 1)))
               else None)
  }

  /** What applyEnvelope rejects before validating a v1 envelope. */
  predicate PlainMalformed(tx: Transaction) {
    InvalidXdrFee(tx) || NegativeInclusionFee(tx.fee, DeclaredResourceFee(tx))
  }

  function OuterCheck(o: Oracles, env: Envelope, feeAccount: Account): Check
    requires env.EnvelopeFeeBump?
  {
    Decide(VerifierOf(o.crypto, o.bumpHash(env.feeSource, env.fee, env.inner, env.innerSignatures)), env.signatures,
           AccountSigners(feeAccount), feeAccount.thresholds.low)
  }

  /** applyFeeBump's own checks, before the inner transaction is looked at. */
  ghost function OuterProblem(o: Oracles, e: EnvState, env: Envelope,
                              options: ValidationOptions): (p: Option<TxOutcome>)
    requires env.EnvelopeFeeBump?
    ensures p.Some? ==> p.value.rejected
  {
    var innerOps, resourceFee := |env.inner.operations|, DeclaredResourceFee(env.inner);
    var inclusion, innerInclusion := env.fee - resourceFee, env.inner.fee - resourceFee;
    var feeAccount := LoadAccount(e.store, env.feeSource.id);
    if env.fee < 0 || InvalidXdrFee(env.inner) || NegativeInclusionFee(env.fee, resourceFee) then Some(Malformed())
    else if inclusion < MinInclusion(innerOps + 1) then Some(Fail(TxInsufficientFee))
    else if !RaisesRate(inclusion, innerInclusion, innerOps)
    then Some(Fail(TxInsufficientFee, NeededInclusion(innerInclusion, innerOps)))
    else if feeAccount.None? then Some(Fail(TxNoAccount))
    else OuterAccountProblem(o, env, feeAccount.value, options)
  }

  ghost function OuterAccountProblem(o: Oracles, env: Envelope, feeAccount: Account,
                                     options: ValidationOptions): (p: Option<TxOutcome>)
    requires env.EnvelopeFeeBump?
    ensures p.Some? ==> p.value.rejected
  {
    if options.sigverify && !OuterCheck(o, env, feeAccount).done then Some(Fail(TxBadAuth))
    else if options.feeCharging && AvailableBalance(feeAccount) < env.fee then Some(Fail(TxInsufficientBalance))
    else if options.sigverify && !AllUsed(env.signatures, OuterCheck(o, env, feeAccount).log)
        then Some(Fail(TxBadAuthExtra))
    else None
  }

  /** The fee bump's result around its inner transaction's. */
  function BumpOutcome(inner: TxOutcome): TxOutcome {
    if inner.rejected
    then inner.(code := TxFeeBumpInnerFailed, innerCode := Some(inner.code), feeCharged := 0, unseeded := false)
    else inner.(code := if inner.ok then TxFeeBumpInnerSuccess else TxFeeBumpInnerFailed, innerCode := Some(inner.code))
  }

  /** applyTransaction fills a seeded rejection's fee with the nominal one. */
  function Seeded(outcome: TxOutcome, tx: Transaction, isBump: bool): TxOutcome {
    if outcome.rejected && !outcome.unseeded && outcome.feeCharged == 0
    then outcome.(feeCharged := NominalFee(tx, isBump)) else outcome
  }

  ghost function Submitted(o: Oracles, s: Settings, e: EnvState, env: Envelope,
                           options: ValidationOptions): (EnvState, TxOutcome)
  {
    match env
    case EnvelopeV0 => (e, Malformed())
    case EnvelopeV1(tx, signatures) =>
      if PlainMalformed(tx) then (e, Malformed())
      else
        var sub := PlainSubmission(tx, signatures, options);
        var (after, outcome) := InnerApplied(o, s, e, sub);
        (after, Seeded(outcome, tx, false))
    case EnvelopeFeeBump(_, _, inner, _, _) =>
      var p := OuterProblem(o, e, env, options);
      if p.Some? then (e, Seeded(p.value, inner, true))
      else
        var (after, outcome) := InnerApplied(o, s, e, BumpSubmission(env, options));
        (after, Seeded(BumpOutcome(outcome), inner, true))
  }

  // ---- no operation touches an account's identity -----------------------------------------

  ghost predicate KeepsAccounts(store: Store, store': Store) {
    WellKeyed(store') && forall id :: KeepsIdentity(store, store', id)
  }

  lemma TtlMoveKeepsAccounts(store: Store, keys: seq<LedgerKey>, ttl: u32)
    requires WellKeyed(store)
    ensures KeepsAccounts(store, WithTtl(store, keys, ttl)) && KeepsAccounts(store, store)
  {}

  lemma ExtendKeepsAccounts(o: Oracles, s: Settings, store: Store, ledgerSeq: u32, extendTo: u32, r: Resources,
                            cap: Option<int>)
    requires WellKeyed(store)
    ensures KeepsAccounts(store, ExtendApplied(o, s, store, ledgerSeq, extendTo, r, cap).0)
  {
    TtlMoveKeepsAccounts(store, Filter(ExtendMoves(store, ledgerSeq, ExtendTarget(ledgerSeq, extendTo)), r.readOnly),
                         Wrap32(ExtendTarget(ledgerSeq, extendTo)));
  }

  lemma RestoreKeepsAccounts(o: Oracles, s: Settings, store: Store, ledgerSeq: u32, r: Resources, cap: Option<int>)
    requires WellKeyed(store)
    ensures KeepsAccounts(store, RestoreApplied(o, s, store, ledgerSeq, r, cap).0)
  {
    TtlMoveKeepsAccounts(store, Filter(Restorable(store, ledgerSeq), r.readWrite), Wrap32(RestoreTarget(s, ledgerSeq)));
  }

  /** The operation removes no account and moves none's sequence number or stamp. */
  lemma OperationKeepsAccounts(o: Oracles, s: Settings, e: EnvState, sub: Submission, opExists: bool, cap: Option<int>)
    requires HostAssumptions(o) && WellKeyed(e.store) && sub.tx.operations != [] && sub.tx.ext.Some?
    ensures var after := RunOperation(o, s, e, sub, opExists, cap).0;
            after == e.(store := after.store, moduleCache := after.moduleCache) && KeepsAccounts(e.store, after.store)
  {
    var op, r := sub.tx.operations[0], sub.tx.ext.value.resources;
    TtlMoveKeepsAccounts(e.store, [], 0);
    match op.body
    case ExtendFootprintTtl(extendTo) => ExtendKeepsAccounts(o, s, e.store, e.ledgerSeq, extendTo, r, cap);
    case RestoreFootprint => RestoreKeepsAccounts(o, s, e.store, e.ledgerSeq, r, cap);
    case InvokeHostFunction(hostFn, auth) =>
      var req := SendRequest(hostFn, OpSourceId(sub), r, auth, [], cap);
      SendKeepsAccounts(o, s, e, req);
      SendMergesAllOrNothing(o, s, e, req);
    case ClassicOperation(_) =>
  }

  // ---- the same, step by step on the environment --------------------------------------------

  method BumpSequenceOf(env: SorobanEnv, id: PublicKey, to: int)
    requires WellKeyed(env.store) && LoadAccount(env.store, id).Some?
    modifies env
    ensures env.State() == old(env.State()).(store :=
                                             BumpSequence(old(env.store), id, to, old(env.ledgerSeq),
                                                          old(env.timestamp)))
  {
    var a := LoadAccount(env.store, id).value;
    var _ := env.PutEntry(LedgerEntry(env.ledgerSeq, AccountData(Bumped(a, to, env.ledgerSeq, env.timestamp))), None);
  }

  method DebitFrom(env: SorobanEnv, id: PublicKey, amount: int)
    requires WellKeyed(env.store) && LoadAccount(env.store, id).Some?
    modifies env
    ensures env.State() == old(env.State()).(store := Debit(old(env.store), id, amount, old(env.ledgerSeq)))
  {
    var a := LoadAccount(env.store, id).value;
    var _ := env.PutEntry(LedgerEntry(env.ledgerSeq, AccountData(a.(balance := a.balance - amount))), None);
  }

  method CheckEnvelope(env: SorobanEnv, sub: Submission) returns (p: Option<TxOutcome>)
    ensures p == EnvelopeProblem(env.o, env.s, env.State(), sub)
  {
    var tx := sub.tx;
    if ExtraSignersMalformed(tx) { return Some(Fail(TxMalformed)); }
    if tx.operations == [] { return Some(Fail(TxMissingOperation)); }
    var op := tx.operations[0];
    if |tx.operations| != 1 || !IsSorobanOp(op) { return Some(Fail(TxMalformed)); }
    assert forall other :: other in tx.operations <==> other == op;
    if MemoOrMuxed(tx, op) { return Some(Fail(TxSorobanInvalid)); }
    if tx.ext.None? { return Some(Fail(TxSorobanInvalid)); }
    var isRestore := op.body.RestoreFootprint?;
    var fits := CheckResources(env.s.fees, tx.ext.value, sub.txSize, isRestore);
    if !fits { return Some(Fail(TxSorobanInvalid)); }
    if sub.charge.Some? {
      var actual := ComputeResourceFee(env.o, env.s.fees, tx.ext.value, sub.txSize, 0, isRestore);
      if tx.ext.value.resourceFee < actual.nonRefundable + actual.refundable { return Some(Fail(TxSorobanInvalid)); }
    }
    if sub.options.timebounds {
      var bounds := BoundsProblem(env.ledgerSeq, env.timestamp, tx);
      if bounds.Some? { return Some(Fail(bounds.value)); }
    }
    p := None;
  }

  /** Marks from a fresh checker: every signature is used iff some check counted it. */
  lemma AllMarked(used: seq<bool>, log: seq<Counted>, signatures: seq<DecoratedSignature>)
    requires |used| == |signatures| && forall i :: 0 <= i < |used| ==> !used[i]
    ensures (forall i :: 0 <= i < |used| ==> Marked(used, log)[i]) <==> AllUsed(signatures, log)
  {
    assert forall i :: 0 <= i < |used| ==> Marked(used, log)[i] == Consumed(log, i);
  }

  /** Signatures, part 1: the source at LOW, then every extraSigner. */
  method CheckSourceSignatures(o: Oracles, sub: Submission, account: Account, checker: SignatureChecker)
    returns (signed: bool)
    requires checker.v == VerifierFor(o, sub) && checker.signatures == sub.signatures
        && checker.used.Length == |sub.signatures|
    modifies checker.used
    ensures signed == (SourceCheck(o, sub, account).done && ExtraCheck(o, sub).done)
    ensures signed ==>
              checker.used[..]
              == Marked(old(checker.used[..]), SourceCheck(o, sub, account).log + ExtraCheck(o, sub).log)
  {
    ghost var unused := checker.used[..];
    signed := checker.CheckSignature(AccountSigners(account), account.thresholds.low);
    if !signed { return; }
    ghost var log := SourceCheck(o, sub, account).log;
    if ExtraSigners(sub.tx) == [] {
      assert log + [] == log;
    } else {
      signed := checker.CheckSignature(ExtraAsSigners(sub.tx), |ExtraSigners(sub.tx)|);
      MarkedTwice(unused, log, ExtraCheck(o, sub).log);
    }
  }

  /** Signatures, part 2: the operation's threshold, its own shape, and that nothing is left over. */
  method CheckOperation(o: Oracles, s: Settings, sub: Submission, source: Account, opAccount: Option<Account>,
                        checker: SignatureChecker, ghost unused: seq<bool>) returns (p: Option<TxOutcome>)
    requires sub.tx.operations != [] && sub.tx.ext.Some?
    requires checker.v == VerifierFor(o, sub) && checker.signatures == sub.signatures
        && checker.used.Length == |sub.signatures|
    requires |unused| == |sub.signatures| && forall i :: 0 <= i < |unused| ==> !unused[i]
    requires sub.options.sigverify ==>
               checker.used[..] == Marked(unused, SourceCheck(o, sub, source).log + ExtraCheck(o, sub).log)
    modifies checker.used
    ensures p == OperationProblem(o, s, sub, source, opAccount)
  {
    ghost var log := SourceCheck(o, sub, source).log + ExtraCheck(o, sub).log;
    if sub.options.sigverify {
      var signed := checker.CheckSignature(OpSigners(sub, opAccount), OpNeeded(sub, opAccount));
      MarkedTwice(unused, log, OpCheck(o, sub, opAccount).log);
      if !signed { return Some(Fail(TxFailed).(opCode := Some(OpBadAuth))); }
    }
    var malformed := FootprintOpMalformed(s, sub.tx.operations[0], sub.tx.ext.value.resources);
    if malformed.Some? { return Some(Fail(TxFailed).(footprintOp := malformed)); }
    if sub.options.sigverify {
      AllMarked(unused, log + OpCheck(o, sub, opAccount).log, sub.signatures);
      var all := checker.CheckAllSignaturesUsed();
      if !all { return Some(Fail(TxBadAuthExtra)); }
    }
    p := None;
  }

  method CheckAccounts(env: SorobanEnv, sub: Submission) returns (p: Option<TxOutcome>)
    requires sub.tx.operations != [] && sub.tx.ext.Some?
    ensures p == AccountProblem(env.o, env.s, env.State(), sub)
  {
    var tx := sub.tx;
    var source := LoadAccount(env.store, SourceId(sub));
    if source.None? { return Some(Fail(TxNoAccount)); }
    var account := source.value;
    var opAccount := LoadAccount(env.store, OpSourceId(sub));
    if tx.seqNum == env.ledgerSeq * 0x1_0000_0000 { return Some(Fail(TxBadSeq)); }
    if sub.options.sequenceCheck && BadSequence(tx, account.seqNum) { return Some(Fail(TxBadSeq)); }
    if sub.options.timebounds && TooEarlyForAccount(env.ledgerSeq, env.timestamp, tx, account) {
      return Some(Fail(TxBadMinSeqAgeOrGap));
    }
    var checker := new SignatureChecker(VerifierFor(env.o, sub), sub.signatures);
    ghost var unused := checker.used[..];
    if sub.options.sigverify {
      var signed := CheckSourceSignatures(env.o, sub, account, checker);
      if !signed { return Some(Fail(TxBadAuth)); }
    }
    if !sub.feeBumped && tx.fee - tx.ext.value.resourceFee < BASE_FEE { return Some(Fail(TxInsufficientFee)); }
    if sub.charge.Some? && !sub.feeBumped {
      var payer := LoadAccount(env.store, sub.charge.value.payer).GetOr(account);
      if AvailableBalance(payer) < tx.fee { return Some(Fail(TxInsufficientBalance)); }
    }
    p := CheckOperation(env.o, env.s, sub, account, opAccount, checker, unused);
  }

  method RunOperationOn(env: SorobanEnv, sub: Submission, opExists: bool, cap: Option<int>)
    returns (outcome: TxOutcome, consumed: SorobanFee)
    requires WellKeyed(env.store) && sub.tx.operations != [] && sub.tx.ext.Some?
    modifies env
    ensures (env.State(), outcome, consumed) == RunOperation(env.o, env.s, old(env.State()), sub, opExists, cap)
  {
    var op, r := sub.tx.operations[0], sub.tx.ext.value.resources;
    if !opExists { return Ran(TxFailed, false).(opCode := Some(OpNoAccount)), SorobanFee(0, 0, 0); }
    match op.body
    case ExtendFootprintTtl(extendTo) =>
      var applied := ApplyExtendFootprintTtl(env, extendTo, r, cap);
      var (result, fee) := FootprintOutcome(applied, ExtendResourceLimitExceeded, ExtendInsufficientRefundableFee,
                                            ExtendSuccess);
      return result, fee;
    case RestoreFootprint =>
      var applied := ApplyRestoreFootprint(env, r, cap);
      var (result, fee) := FootprintOutcome(applied, RestoreResourceLimitExceeded, RestoreInsufficientRefundableFee,
                                            RestoreSuccess);
      return result, fee;
    case InvokeHostFunction(hostFn, auth) =>
      var sent := env.Send(SendRequest(hostFn, OpSourceId(sub), r, auth, [], cap));
      return InvokeOutcome(sent), if sent.ok then SorobanFee(0, sent.refundableConsumed, sent.rentFee)
          else SorobanFee(0, 0, 0);
    case ClassicOperation(_) =>
      return Ran(TxFailed, false), SorobanFee(0, 0, 0);
  }

  /** Bump the source's sequence, then take the fee from the payer. */
  method ChargeAccounts(env: SorobanEnv, sub: Submission)
    requires WellKeyed(env.store) && LoadAccount(env.store, SourceId(sub)).Some? && PayerExists(env.State(), sub)
    modifies env
    ensures env.State() == Charged(env.o, env.s, old(env.State()), sub)
    ensures WellKeyed(env.store) && PayerExists(env.State(), sub)
  {
    var account := LoadAccount(env.store, SourceId(sub)).value;
    var to := if sub.options.sequenceCheck then sub.tx.seqNum else account.seqNum + 1;
    BumpedAccount(env.store, SourceId(sub), to, env.ledgerSeq, env.timestamp);
    BumpSequenceOf(env, SourceId(sub), to);
    if sub.charge.Some? {
      DebitedAccount(env.store, sub.charge.value.payer, sub.charge.value.upfront, env.ledgerSeq);
      DebitFrom(env, sub.charge.value.payer, sub.charge.value.upfront);
    }
  }

  /** settle: the refund goes back only when there is one. */
  method Settle(env: SorobanEnv, sub: Submission, ran: TxOutcome, consumed: SorobanFee) returns (outcome: TxOutcome)
    requires WellKeyed(env.store) && PayerExists(env.State(), sub) && sub.tx.operations != [] && sub.tx.ext.Some?
    modifies env
    ensures (env.State(), outcome) == Settled(env.o, env.s, old(env.State()), sub, ran, consumed)
  {
    if sub.charge.None? { return ran; }
    var nonRefundable := NonRefundable(env.o, env.s, sub);
    var refund := sub.tx.ext.value.resourceFee - nonRefundable - consumed.refundable;
    if refund > 0 { DebitFrom(env, sub.charge.value.payer, -refund); }
    outcome := ran.(feeCharged := sub.charge.value.upfront - refund,
                    sorobanFee := Some(consumed.(nonRefundable := nonRefundable)));
  }

  method Commit(env: SorobanEnv, sub: Submission) returns (outcome: TxOutcome)
    requires HostAssumptions(env.o) && WellKeyed(env.store)
    requires PassesChecks(env.o, env.s, env.State(), sub) && PayerExists(env.State(), sub)
    modifies env
    ensures (env.State(), outcome) == Committed(env.o, env.s, old(env.State()), sub)
  {
    var opExists := LoadAccount(env.store, OpSourceId(sub)).Some?;
    ChargeAccounts(env, sub);
    OperationKeepsAccounts(env.o, env.s, env.State(), sub, opExists, RefundableCap(env.o, env.s, sub));
    ghost var charged := env.store;
    var consumed;
    outcome, consumed := RunOperationOn(env, sub, opExists, RefundableCap(env.o, env.s, sub));
    if sub.charge.Some? { assert KeepsIdentity(charged, env.store, sub.charge.value.payer); }
    outcome := Settle(env, sub, outcome, consumed);
  }

  method ApplyInner(env: SorobanEnv, sub: Submission) returns (outcome: TxOutcome)
    requires HostAssumptions(env.o) && WellKeyed(env.store)
    requires PassesChecks(env.o, env.s, env.State(), sub) ==> PayerExists(env.State(), sub)
    modifies env
    ensures (env.State(), outcome) == InnerApplied(env.o, env.s, old(env.State()), sub)
  {
    var p := CheckEnvelope(env, sub);
    if p.Some? { return p.value; }
    p := CheckAccounts(env, sub);
    if p.Some? { return p.value; }
    outcome := Commit(env, sub);
  }

  /** checkValid of the fee bump itself, with its own signatures and checker. */
  method CheckOuter(env: SorobanEnv, envelope: Envelope, options: ValidationOptions) returns (p: Option<TxOutcome>)
    requires envelope.EnvelopeFeeBump?
    ensures p == OuterProblem(env.o, env.State(), envelope, options)
  {
    var innerOps, resourceFee := |envelope.inner.operations|, DeclaredResourceFee(envelope.inner);
    if envelope.fee < 0 { return Some(Malformed()); }
    if InvalidXdrFee(envelope.inner) { return Some(Malformed()); }
    var inclusion := envelope.fee - resourceFee;
    if NegativeInclusionFee(envelope.fee, resourceFee) { return Some(Malformed()); }
    if inclusion < MinInclusion(innerOps + 1) { return Some(Fail(TxInsufficientFee)); }
    var innerInclusion := envelope.inner.fee - resourceFee;
    if !RaisesRate(inclusion, innerInclusion, innerOps) {
      return Some(Fail(TxInsufficientFee, NeededInclusion(innerInclusion, innerOps)));
    }
    var loaded := LoadAccount(env.store, envelope.feeSource.id);
    if loaded.None? { return Some(Fail(TxNoAccount)); }
    p := CheckOuterSignatures(env.o, envelope, loaded.value, options);
  }

  method CheckOuterSignatures(o: Oracles, envelope: Envelope, feeAccount: Account, options: ValidationOptions)
    returns (p: Option<TxOutcome>)
    requires envelope.EnvelopeFeeBump?
    ensures p == OuterAccountProblem(o, envelope, feeAccount, options)
  {
    var hash := o.bumpHash(envelope.feeSource, envelope.fee, envelope.inner, envelope.innerSignatures);
    var checker := new SignatureChecker(VerifierOf(o.crypto, hash), envelope.signatures);
    ghost var unused := checker.used[..];
    if options.sigverify {
      var signed := checker.CheckSignature(AccountSigners(feeAccount), feeAccount.thresholds.low);
      if !signed { return Some(Fail(TxBadAuth)); }
    }
    if options.feeCharging && AvailableBalance(feeAccount) < envelope.fee { return Some(Fail(TxInsufficientBalance)); }
    if options.sigverify {
      AllMarked(unused, OuterCheck(o, envelope, feeAccount).log, envelope.signatures);
      var all := checker.CheckAllSignaturesUsed();
      if !all { return Some(Fail(TxBadAuthExtra)); }
    }
    p := None;
  }

  method ApplyFeeBump(env: SorobanEnv, envelope: Envelope, options: ValidationOptions) returns (outcome: TxOutcome)
    requires HostAssumptions(env.o) && WellKeyed(env.store) && envelope.EnvelopeFeeBump?
    modifies env
    ensures var p := OuterProblem(env.o, old(env.State()), envelope, options);
            if p.Some? then env.State() == old(env.State()) && outcome == p.value
            else
              var (after, inner) := InnerApplied(env.o, env.s, old(env.State()), BumpSubmission(envelope, options));
              env.State() == after && outcome == BumpOutcome(inner)
  {
    var p := CheckOuter(env, envelope, options);
    if p.Some? { return p.value; }
    var inner := ApplyInner(env, BumpSubmission(envelope, options));
    outcome := BumpOutcome(inner);
  }

  method ApplyTransaction(env: SorobanEnv, envelope: Envelope, options: ValidationOptions) returns (outcome: TxOutcome)
    requires HostAssumptions(env.o) && WellKeyed(env.store)
    modifies env
    ensures (env.State(), outcome) == Submitted(env.o, env.s, old(env.State()), envelope, options)
    ensures envelope.EnvelopeV0? ==> outcome.rejected
  {
    match envelope
    case EnvelopeV0 => outcome := Malformed();
    case EnvelopeV1(tx, signatures) =>
      if PlainMalformed(tx) { return Malformed(); }
      outcome := ApplyInner(env, PlainSubmission(tx, signatures, options));
      outcome := Seeded(outcome, tx, false);
    case EnvelopeFeeBump(_, _, inner, _, _) =>
      outcome := ApplyFeeBump(env, envelope, options);
      outcome := Seeded(outcome, inner, true);
  }
}
