/** What a submission reports and leaves, item by item: its fee, its operation's result, and every account. */
module OutcomeLaws {
  import opened Sequences
  import opened Xdr
  import opened Accounts
  import opened Host
  import opened Fees
  import opened Environment
  import opened EnvironmentLaws
  import opened SendLaws
  import opened FootprintOps
  import opened FootprintLaws
  import opened Validation
  import opened Transactions
  import opened TransactionLaws
  import opened Acceptance

  // ---- what is submitted -------------------------------------------------------------

  /** The inner transaction's size and signatures, and what the payer pays up front. */
  lemma SubmissionIs(env: Envelope, options: ValidationOptions)
    requires !env.EnvelopeV0?
    ensures var sub := SubmissionOf(env, options);
            && (sub.feeBumped <==> env.EnvelopeFeeBump?) && sub.options == options
            && (sub.tx, sub.signatures)
               == (if env.EnvelopeV1? then (env.tx, env.signatures) else (env.inner, env.innerSignatures))
            && sub.txSize == 4 + V1Size(sub.tx, sub.signatures)
            && (sub.charge.Some? <==> options.feeCharging)
            && (sub.charge.Some? ==>
                  var n, fee := |sub.tx.operations| + (if env.EnvelopeV1? then 0 else 1), ResourceFeeIn(sub.tx);
                  && sub.charge.value.payer == (if env.EnvelopeV1? then env.tx.source.id else env.feeSource.id)
                  && sub.charge.value.upfront == fee + Min(FullFee(env) - fee, LeastInclusion(n)))
  {}

  // ---- the operation -------------------------------------------------------------------

  /** What the operation reports of itself, and what it consumes. */
  datatype Report = Report(ok: bool, opCode: Option<OpCode>, footprintOp: Option<FootprintResult>,
                           invokeFailure: Option<InvokeResult>, changedKeys: seq<LedgerKey>,
                           removedKeys: seq<LedgerKey>, refundable: int, rent: int)

  function Reported(outcome: TxOutcome, refundable: int, rent: int): Report {
    Report(outcome.ok, outcome.opCode, outcome.footprintOp, outcome.invokeFailure, outcome.changedKeys,
           outcome.removedKeys, refundable, rent)
  }

  function Failure(): Report { Report(false, None, None, None, [], [], 0, 0) }

  /** A footprint operation's: too large, then too dear, then a success that consumes its rent alone. */
  function FootprintReport(tooLarge: bool, cap: Option<int>, rent: int, moves: seq<LedgerKey>,
                           overLimit: FootprintResult, short: FootprintResult, success: FootprintResult): Report
  {
    if tooLarge then Failure().(footprintOp := Some(overLimit))
    else if RentPasses(cap, rent) then Failure().(footprintOp := Some(short))
    else Report(true, None, Some(success), None, moves, [], rent, rent)
  }

  /** An invocation's, from what the host answered: it consumes its rent and its events fee. */
  ghost function InvocationReport(o: Oracles, s: Settings, e: EnvState, req: SendRequest, sent: SendResult): Report {
    var out := o.invoke(HostInputOf(o, s, e, req));
    if sent.failure.Some? || out.HostError? || out.value.None? then Failure().(invokeFailure := sent.failure)
    else
      var rent := RentCharged(o, s, out.changes, e.ledgerSeq);
      Report(true, None, None, None, sent.changedKeys, sent.removedKeys,
             Saturated64(rent + EventsCharged(o, s, EventTotal(out.events, out.value.value))), rent)
  }

  lemma ShortLivedPresent(store: Store, ledgerSeq: u32, extendTo: u32, keys: seq<LedgerKey>)
    ensures forall k :: k in ShortLived(store, ledgerSeq, extendTo, keys) ==> k in store
  {
    forall k | k in ShortLived(store, ledgerSeq, extendTo, keys) ensures k in store {
      ShortLivedKey(store, ledgerSeq, extendTo, keys, k);
    }
  }

  ghost function ExtensionReport(o: Oracles, s: Settings, e: EnvState, extendTo: u32, r: Resources,
                                 cap: Option<int>): Report
  {
    var moves := ShortLived(e.store, e.ledgerSeq, extendTo, r.readOnly);
    ShortLivedPresent(e.store, e.ledgerSeq, extendTo, r.readOnly);
    FootprintReport(AnyOverSize(s, e.store, moves), cap,
                    RentOf(o, s, e.store, moves, FromNonzeroTtl, ExtendedTtl(e.ledgerSeq, extendTo), e.ledgerSeq),
                    moves, ExtendResourceLimitExceeded, ExtendInsufficientRefundableFee, ExtendSuccess)
  }

  ghost function RestorationReport(o: Oracles, s: Settings, e: EnvState, r: Resources, cap: Option<int>): Report {
    var moves := ArchivedKeys(e.store, e.ledgerSeq, r.readWrite);
    FootprintReport(RestoresTooMuch(s, e.store, moves, r), cap,
                    RentOf(o, s, e.store, moves, FromArchive, RestoredTtl(s, e.ledgerSeq), e.ledgerSeq), moves,
                    RestoreResourceLimitExceeded, RestoreInsufficientRefundableFee, RestoreSuccess)
  }

  /** Whichever operation it is, with this much to consume. */
  ghost function OperationReport(o: Oracles, s: Settings, e: EnvState, tx: Transaction, opExists: bool,
                                 cap: Option<int>): Report
    requires tx.operations != [] && tx.ext.Some?
  {
    var r := tx.ext.value.resources;
    if !opExists then Failure().(opCode := Some(OpNoAccount))
    else
      match tx.operations[0].body
      case ExtendFootprintTtl(extendTo) => ExtensionReport(o, s, e, extendTo, r, cap)
      case RestoreFootprint => RestorationReport(o, s, e, r, cap)
      case InvokeHostFunction(hostFn, auth) =>
        var req := SendRequest(hostFn, OperationSource(tx), r, auth, [], cap);
        InvocationReport(o, s, e, req, Sent(o, s, e, req).1)
      case ClassicOperation(_) => Failure()
  }

  lemma ExtensionReported(o: Oracles, s: Settings, e: EnvState, extendTo: u32, r: Resources, cap: Option<int>)
    ensures var applied := ExtendApplied(o, s, e.store, e.ledgerSeq, extendTo, r, cap).1;
            var (outcome, fee) := FootprintOutcome(applied, ExtendResourceLimitExceeded,
                                                   ExtendInsufficientRefundableFee, ExtendSuccess);
            && Reported(outcome, fee.refundable, fee.rent) == ExtensionReport(o, s, e, extendTo, r, cap)
            && fee.nonRefundable == 0
  {
    ExtendEffect(o, s, e.store, e.ledgerSeq, extendTo, r, cap);
  }

  lemma RestorationReported(o: Oracles, s: Settings, e: EnvState, r: Resources, cap: Option<int>)
    ensures var applied := RestoreApplied(o, s, e.store, e.ledgerSeq, r, cap).1;
            var (outcome, fee) := FootprintOutcome(applied, RestoreResourceLimitExceeded,
                                                   RestoreInsufficientRefundableFee, RestoreSuccess);
            && Reported(outcome, fee.refundable, fee.rent) == RestorationReport(o, s, e, r, cap)
            && fee.nonRefundable == 0
  {
    RestorationEffect(o, s, e.store, e.ledgerSeq, r, cap);
  }

  lemma InvocationReported(o: Oracles, s: Settings, e: EnvState, req: SendRequest)
    ensures var sent := Sent(o, s, e, req).1;
            Reported(InvokeOutcome(sent), if sent.ok then sent.refundableConsumed else 0,
                     if sent.ok then sent.rentFee else 0)
            == InvocationReport(o, s, e, req, sent)
  {
    SendAnswers(o, s, e, req);
  }

  lemma OperationReported(o: Oracles, s: Settings, e: EnvState, sub: Submission, opExists: bool, cap: Option<int>)
    requires sub.tx.operations != [] && sub.tx.ext.Some?
    ensures var (_, outcome, consumed) := RunOperation(o, s, e, sub, opExists, cap);
            && Reported(outcome, consumed.refundable, consumed.rent) == OperationReport(o, s, e, sub.tx, opExists, cap)
            && consumed.nonRefundable == 0
  {
    var r := sub.tx.ext.value.resources;
    match sub.tx.operations[0].body
    case ExtendFootprintTtl(extendTo) => ExtensionReported(o, s, e, extendTo, r, cap);
    case RestoreFootprint => RestorationReported(o, s, e, r, cap);
    case InvokeHostFunction(hostFn, auth) =>
      InvocationReported(o, s, e, SendRequest(hostFn, OperationSource(sub.tx), r, auth, [], cap));
    case ClassicOperation(_) =>
  }

  // ---- the fee, item by item --------------------------------------------------------------

  /** The ledger the operation runs on, and what it has to consume. */
  ghost function RunReport(o: Oracles, s: Settings, e: EnvState, sub: Submission): Report
    requires PassesChecks(o, s, e, sub)
  {
    OperationReport(o, s, Charged(o, s, e, sub), sub.tx, LoadAccount(e.store, OperationSource(sub.tx)).Some?,
                    CapOf(o, s, sub))
  }

  /** The declared resource fee, less its non-refundable part. */
  function CapOf(o: Oracles, s: Settings, sub: Submission): Option<int>
    requires sub.tx.operations != [] && sub.tx.ext.Some?
  {
    var data := sub.tx.ext.value;
    if sub.charge.None? then None
    else Some(data.resourceFee
              - Price(o, s, data, sub.txSize, sub.tx.operations[0].body.RestoreFootprint?).nonRefundable)
  }

  /** What is reported of a run: its own report, and where fees are charged the items and their sum. */
  ghost predicate Itemised(o: Oracles, s: Settings, sub: Submission, run: Report, outcome: TxOutcome)
    requires sub.tx.operations != [] && sub.tx.ext.Some?
  {
    var price := Price(o, s, sub.tx.ext.value, sub.txSize, sub.tx.operations[0].body.RestoreFootprint?);
    && Reported(outcome, run.refundable, run.rent) == run
    && if sub.charge.None? then outcome.sorobanFee.None? && outcome.feeCharged == 0
       else
         && outcome.sorobanFee == Some(SorobanFee(price.nonRefundable, run.refundable, run.rent))
         && outcome.feeCharged
            == price.nonRefundable + run.refundable + sub.charge.value.upfront - sub.tx.ext.value.resourceFee
  }

  lemma SettledItemised(o: Oracles, s: Settings, e: EnvState, sub: Submission, ran: TxOutcome, consumed: SorobanFee,
                        run: Report)
    requires sub.tx.operations != [] && sub.tx.ext.Some? && consumed.nonRefundable == 0 && ran.feeCharged == 0
    requires ran.sorobanFee.None? && Reported(ran, consumed.refundable, consumed.rent) == run
    ensures Itemised(o, s, sub, run, Settled(o, s, e, sub, ran, consumed).1)
  {
    PriceMeaning(o, s, sub);
  }

  lemma RanPlain(o: Oracles, s: Settings, e: EnvState, sub: Submission, opExists: bool, cap: Option<int>)
    requires sub.tx.operations != [] && sub.tx.ext.Some?
    ensures var outcome := RunOperation(o, s, e, sub, opExists, cap).1;
            outcome.feeCharged == 0 && outcome.sorobanFee.None? && outcome.innerCode.None?
  {
    match sub.tx.operations[0].body
    case ExtendFootprintTtl(extendTo) =>
      FootprintPlain(ExtendApplied(o, s, e.store, e.ledgerSeq, extendTo, sub.tx.ext.value.resources, cap).1,
                     ExtendResourceLimitExceeded, ExtendInsufficientRefundableFee, ExtendSuccess);
    case RestoreFootprint =>
      FootprintPlain(RestoreApplied(o, s, e.store, e.ledgerSeq, sub.tx.ext.value.resources, cap).1,
                     RestoreResourceLimitExceeded, RestoreInsufficientRefundableFee, RestoreSuccess);
    case InvokeHostFunction(_, _) =>
    case ClassicOperation(_) =>
  }

  lemma FootprintPlain(applied: Applied, overLimit: FootprintResult, short: FootprintResult, success: FootprintResult)
    ensures var outcome := FootprintOutcome(applied, overLimit, short, success).0;
            outcome.feeCharged == 0 && outcome.sorobanFee.None? && outcome.innerCode.None?
  {}

  lemma CapMeaning(o: Oracles, s: Settings, sub: Submission)
    requires sub.tx.operations != [] && sub.tx.ext.Some?
    ensures RefundableCap(o, s, sub) == CapOf(o, s, sub)
  {
    PriceMeaning(o, s, sub);
  }

  lemma RunItemised(o: Oracles, s: Settings, e: EnvState, sub: Submission, opExists: bool, cap: Option<int>)
    requires sub.tx.operations != [] && sub.tx.ext.Some?
    ensures var (ran, outcome, consumed) := RunOperation(o, s, e, sub, opExists, cap);
            Itemised(o, s, sub, OperationReport(o, s, e, sub.tx, opExists, cap),
                     Settled(o, s, ran, sub, outcome, consumed).1)
  {
    OperationReported(o, s, e, sub, opExists, cap);
    RanPlain(o, s, e, sub, opExists, cap);
    var (ran, outcome, consumed) := RunOperation(o, s, e, sub, opExists, cap);
    SettledItemised(o, s, ran, sub, outcome, consumed, OperationReport(o, s, e, sub.tx, opExists, cap));
  }

  lemma CommitItemised(o: Oracles, s: Settings, e: EnvState, sub: Submission)
    requires PassesChecks(o, s, e, sub)
    ensures Itemised(o, s, sub, RunReport(o, s, e, sub), Committed(o, s, e, sub).1)
  {
    CapMeaning(o, s, sub);
    RunItemised(o, s, Charged(o, s, e, sub), sub, LoadAccount(e.store, OperationSource(sub.tx)).Some?,
                CapOf(o, s, sub));
  }

  lemma CommittedPlain(o: Oracles, s: Settings, e: EnvState, sub: Submission)
    requires PassesChecks(o, s, e, sub)
    ensures var outcome := Committed(o, s, e, sub).1;
            RanNotRejected(outcome) && outcome.innerCode.None?
  {
    InnerRejectedOrApplied(o, s, e, sub);
    RanPlain(o, s, Charged(o, s, e, sub), sub, LoadAccount(e.store, OpSourceId(sub)).Some?, RefundableCap(o, s, sub));
  }

  lemma BumpItemised(o: Oracles, s: Settings, sub: Submission, run: Report, inner: TxOutcome, tx: Transaction)
    requires sub.tx.operations != [] && sub.tx.ext.Some? && Itemised(o, s, sub, run, inner) && RanNotRejected(inner)
    ensures var outcome := Seeded(BumpOutcome(inner), tx, true);
            && Itemised(o, s, sub, run, outcome)
            && outcome.innerCode == Some(if outcome.ok then TxSuccess else TxFailed)
  {}

  /**
   * Every item an applied envelope reports: the operation's own result and keys;
   * the non-refundable fee of what it declared, priced on its inner envelope's
   * size; what its operation consumed, the rent of its moves or the rent and
   * events fee of its invocation, nothing if it failed; and their sum with the
   * inclusion fee charged up front. A fee bump reports its inner code as well.
   */
  lemma AppliedReports(o: Oracles, s: Settings, e: EnvState, env: Envelope, options: ValidationOptions)
    requires Applies(o, s, e, env, options)
    ensures var sub, outcome := SubmissionOf(env, options), Submitted(o, s, e, env, options).1;
            && Itemised(o, s, sub, RunReport(o, s, e, sub), outcome)
            && outcome.innerCode == if env.EnvelopeV1? then None else Some(if outcome.ok then TxSuccess else TxFailed)
  {
    var sub := SubmissionOf(env, options);
    CommitItemised(o, s, e, sub);
    CommittedPlain(o, s, e, sub);
    var outcome := Committed(o, s, e, sub).1;
    if env.EnvelopeV1? {
      assert Submitted(o, s, e, env, options).1 == Seeded(outcome, env.tx, false);
    } else {
      assert Submitted(o, s, e, env, options).1 == Seeded(BumpOutcome(outcome), env.inner, true);
      BumpItemised(o, s, sub, RunReport(o, s, e, sub), outcome, env.inner);
    }
  }

  // ---- what a refusal reports ---------------------------------------------------------------

  /** The nominal fee: the declared resource fee and the base fee per operation, one more for a bump. */
  function Nominal(tx: Transaction, bump: nat): int { ResourceFeeIn(tx) + LeastInclusion(|tx.operations| + bump) }

  /** A refusal reports the nominal fee, unless it came too early for one or names the fee it wants. */
  function WithNominal(p: TxOutcome, nominal: int): TxOutcome {
    if p.unseeded || p.feeCharged != 0 then p else p.(feeCharged := nominal)
  }

  /** What is answered to an envelope that does not apply. */
  ghost function Refusal(o: Oracles, s: Settings, e: EnvState, env: Envelope, options: ValidationOptions): TxOutcome
    requires !Applies(o, s, e, env, options)
  {
    match env
    case EnvelopeV0 => Fail(TxMalformed).(unseeded := true)
    case EnvelopeV1(tx, _) =>
      if BadResourceFee(tx) || tx.fee < ResourceFeeIn(tx) then Fail(TxMalformed).(unseeded := true)
      else
        ValidatorAnswers(o, s, e, SubmissionOf(env, options));
        WithNominal(Answer(o, s, e, SubmissionOf(env, options)).value, Nominal(tx, 0))
    case EnvelopeFeeBump(_, _, inner, _, _) =>
      var p := BumpAnswer(o, e, env, options);
      if p.Some? then WithNominal(p.value, Nominal(inner, 1))
      else
        BumpAnswered(o, e, env, options);
        ValidatorAnswers(o, s, e, SubmissionOf(env, options));
        var a := Answer(o, s, e, SubmissionOf(env, options)).value;
        a.(code := TxFeeBumpInnerFailed, innerCode := Some(a.code), feeCharged := Nominal(inner, 1))
  }

  lemma SeededIs(p: TxOutcome, tx: Transaction, isBump: bool)
    requires p.rejected
    ensures Seeded(p, tx, isBump) == WithNominal(p, Nominal(tx, if isBump then 1 else 0))
  {}

  lemma RefusedPlain(o: Oracles, s: Settings, e: EnvState, tx: Transaction, signatures: seq<DecoratedSignature>,
                     options: ValidationOptions)
    requires !PlainMalformed(tx) && Problem(o, s, e, PlainSubmission(tx, signatures, options)).Some?
    ensures Submitted(o, s, e, EnvelopeV1(tx, signatures), options)
         == (e, WithNominal(Problem(o, s, e, PlainSubmission(tx, signatures, options)).value, Nominal(tx, 0)))
  {
    SeededIs(Problem(o, s, e, PlainSubmission(tx, signatures, options)).value, tx, false);
  }

  lemma RefusedBump(o: Oracles, s: Settings, e: EnvState, env: Envelope, options: ValidationOptions)
    requires env.EnvelopeFeeBump? && OuterProblem(o, e, env, options).Some?
    ensures Submitted(o, s, e, env, options)
         == (e, WithNominal(OuterProblem(o, e, env, options).value, Nominal(env.inner, 1)))
  {
    SeededIs(OuterProblem(o, e, env, options).value, env.inner, true);
  }

  lemma RefusedInner(o: Oracles, s: Settings, e: EnvState, env: Envelope, options: ValidationOptions)
    requires env.EnvelopeFeeBump? && OuterProblem(o, e, env, options).None?
    requires Problem(o, s, e, BumpSubmission(env, options)).Some?
    ensures var p := Problem(o, s, e, BumpSubmission(env, options)).value;
            Submitted(o, s, e, env, options)
            == (e, p.(code := TxFeeBumpInnerFailed, innerCode := Some(p.code), feeCharged := Nominal(env.inner, 1)))
  {
    SeededIs(BumpOutcome(Problem(o, s, e, BumpSubmission(env, options)).value), env.inner, true);
  }

  /** Exactly what a refused envelope is answered; it leaves the ledger as it was. */
  lemma RefusalReports(o: Oracles, s: Settings, e: EnvState, env: Envelope, options: ValidationOptions)
    requires !Applies(o, s, e, env, options)
    ensures Submitted(o, s, e, env, options) == (e, Refusal(o, s, e, env, options))
  {
    match env
    case EnvelopeV0 =>
    case EnvelopeV1(tx, signatures) =>
      ValidatorAnswers(o, s, e, SubmissionOf(env, options));
      if !PlainMalformed(tx) { RefusedPlain(o, s, e, tx, signatures, options); }
    case EnvelopeFeeBump(_, _, _, _, _) =>
      BumpAnswered(o, e, env, options);
      ValidatorAnswers(o, s, e, SubmissionOf(env, options));
      if OuterProblem(o, e, env, options).Some? {
        RefusedBump(o, s, e, env, options);
      } else {
        RefusedInner(o, s, e, env, options);
      }
  }

  // ---- every account, whole ------------------------------------------------------------------

  datatype Bump = Bump(to: int, stamp: SequenceStamp)

  /** The account pays this much; a bump moves its number and stamp; nothing else of it changes. */
  ghost predicate AccountMoves(a: Account, b: Account, paid: int, bump: Option<Bump>) {
    && b.balance == a.balance - paid
    && b.(balance := a.balance, seqNum := a.seqNum, ext := a.ext) == a
    && match bump
       case None => b.seqNum == a.seqNum && b.ext == a.ext
       case Some(x) => b.seqNum == x.to && ChainEndsIn(a, b, x.stamp)
  }

  /** The same of an account that may not exist, and then still does not. */
  ghost predicate MovedBy(before: Store, after: Store, id: PublicKey, paid: int, bump: Option<Bump>) {
    match LoadAccount(before, id)
    case None => LoadAccount(after, id).None?
    case Some(a) => LoadAccount(after, id).Some? && AccountMoves(a, LoadAccount(after, id).value, paid, bump)
  }

  lemma MovedThenPaid(a: Store, b: Store, c: Store, id: PublicKey, p: int, q: int, bump: Option<Bump>)
    requires MovedBy(a, b, id, p, bump) && MovedBy(b, c, id, q, None)
    ensures MovedBy(a, c, id, p + q, bump)
  {}

  lemma DebitMoves(store: Store, payer: PublicKey, amount: int, ledgerSeq: u32, id: PublicKey)
    requires WellKeyed(store)
    ensures WellKeyed(Debit(store, payer, amount, ledgerSeq))
    ensures MovedBy(store, Debit(store, payer, amount, ledgerSeq), id, if id == payer then amount else 0, None)
  {
    if LoadAccount(store, payer).Some? { DebitedAccount(store, payer, amount, ledgerSeq); }
  }

  lemma BumpMoves(store: Store, source: PublicKey, to: int, ledgerSeq: u32, timestamp: u64, id: PublicKey)
    requires WellKeyed(store) && LoadAccount(store, source).Some?
    ensures var after := BumpSequence(store, source, to, ledgerSeq, timestamp);
            && WellKeyed(after)
            && MovedBy(store, after, id, 0,
                       if id == source then Some(Bump(to, SequenceStamp(ledgerSeq, timestamp))) else None)
  {
    BumpedAccount(store, source, to, ledgerSeq, timestamp);
    BumpKeepsTheRest(LoadAccount(store, source).value, to, ledgerSeq, timestamp);
  }

  /** Which number a commit moves its source to: the transaction's, or, unchecked, the next one. */
  function BumpOf(e: EnvState, sub: Submission, id: PublicKey): Option<Bump>
    requires LoadAccount(e.store, sub.tx.source.id).Some?
  {
    if id != sub.tx.source.id then None
    else Some(Bump(if sub.options.sequenceCheck then sub.tx.seqNum
                   else LoadAccount(e.store, id).value.seqNum + 1,
                   SequenceStamp(e.ledgerSeq, e.timestamp)))
  }

  function PaidUpFront(sub: Submission, id: PublicKey): int {
    if sub.charge.Some? && sub.charge.value.payer == id then sub.charge.value.upfront else 0
  }

  /** The source's bump, the first of a commit's two writes. */
  function BumpedStore(e: EnvState, sub: Submission): Store
    requires LoadAccount(e.store, sub.tx.source.id).Some?
  {
    var to := if sub.options.sequenceCheck then sub.tx.seqNum
              else LoadAccount(e.store, sub.tx.source.id).value.seqNum + 1;
    BumpSequence(e.store, sub.tx.source.id, to, e.ledgerSeq, e.timestamp)
  }

  lemma ChargedIs(o: Oracles, s: Settings, e: EnvState, sub: Submission)
    requires LoadAccount(e.store, sub.tx.source.id).Some?
    ensures Charged(o, s, e, sub).store
         == match sub.charge
            case None => BumpedStore(e, sub)
            case Some(charge) => Debit(BumpedStore(e, sub), charge.payer, charge.upfront, e.ledgerSeq)
  {}

  lemma BumpedMoves(e: EnvState, sub: Submission, id: PublicKey)
    requires WellKeyed(e.store) && LoadAccount(e.store, sub.tx.source.id).Some?
    ensures WellKeyed(BumpedStore(e, sub)) && MovedBy(e.store, BumpedStore(e, sub), id, 0, BumpOf(e, sub, id))
  {
    var to := if sub.options.sequenceCheck then sub.tx.seqNum
              else LoadAccount(e.store, sub.tx.source.id).value.seqNum + 1;
    BumpMoves(e.store, sub.tx.source.id, to, e.ledgerSeq, e.timestamp, id);
  }

  lemma ChargedMoves(o: Oracles, s: Settings, e: EnvState, sub: Submission, id: PublicKey)
    requires WellKeyed(e.store) && LoadAccount(e.store, sub.tx.source.id).Some?
    ensures WellKeyed(Charged(o, s, e, sub).store)
    ensures MovedBy(e.store, Charged(o, s, e, sub).store, id, PaidUpFront(sub, id), BumpOf(e, sub, id))
  {
    ChargedIs(o, s, e, sub);
    BumpedMoves(e, sub, id);
    if sub.charge.Some? {
      DebitMoves(BumpedStore(e, sub), sub.charge.value.payer, sub.charge.value.upfront, e.ledgerSeq, id);
      MovedThenPaid(e.store, BumpedStore(e, sub), Charged(o, s, e, sub).store, id, 0, PaidUpFront(sub, id),
                    BumpOf(e, sub, id));
    }
  }

  lemma RefundMoves(store: Store, payer: PublicKey, refund: int, ledgerSeq: u32, id: PublicKey)
    requires WellKeyed(store) && refund >= 0
    ensures MovedBy(store, Refund(store, payer, refund, ledgerSeq), id, if id == payer then -refund else 0, None)
  {
    DebitMoves(store, payer, -refund, ledgerSeq, id);
  }

  lemma SameEntryMoves(before: Store, after: Store, id: PublicKey)
    requires SameEntryAt(before, after, AccountKey(id))
    ensures MovedBy(before, after, id, 0, None)
  {}

  /** The operation, for an account it may not write. */
  lemma OperationMoves(o: Oracles, s: Settings, e: EnvState, sub: Submission, opExists: bool, cap: Option<int>,
                       id: PublicKey)
    requires HostAssumptions(o) && WellKeyed(e.store) && sub.tx.operations != [] && sub.tx.ext.Some?
    requires CannotWrite(sub.tx, id)
    ensures var ran := RunOperation(o, s, e, sub, opExists, cap).0;
            WellKeyed(ran.store) && ran.ledgerSeq == e.ledgerSeq && MovedBy(e.store, ran.store, id, 0, None)
  {
    OperationKeepsEntry(o, s, e, sub, opExists, cap, AccountKey(id));
    OperationKeepsAccounts(o, s, e, sub, opExists, cap);
    SameEntryMoves(e.store, RunOperation(o, s, e, sub, opExists, cap).0.store, id);
  }

  lemma SettledMoves(o: Oracles, s: Settings, e: EnvState, sub: Submission, ran: TxOutcome, consumed: SorobanFee,
                     id: PublicKey)
    requires WellKeyed(e.store) && sub.tx.operations != [] && sub.tx.ext.Some?
    requires sub.charge.Some? ==> consumed.refundable <= RefundableCap(o, s, sub).value
    ensures var (after, outcome) := Settled(o, s, e, sub, ran, consumed);
            var paid := if sub.charge.Some? && sub.charge.value.payer == id
                        then outcome.feeCharged - sub.charge.value.upfront else 0;
            MovedBy(e.store, after.store, id, paid, None)
  {
    if sub.charge.Some? {
      RefundMoves(e.store, sub.charge.value.payer, RefundableCap(o, s, sub).value - consumed.refundable, e.ledgerSeq,
                  id);
    }
  }

  lemma CommitMoves(o: Oracles, s: Settings, e: EnvState, sub: Submission, id: PublicKey)
    requires HostAssumptions(o) && FeeAssumptions(o) && WellKeyed(e.store) && PassesChecks(o, s, e, sub)
    requires CannotWrite(sub.tx, id) && LoadAccount(e.store, sub.tx.source.id).Some?
    ensures var (after, outcome) := Committed(o, s, e, sub);
            var paid := if sub.charge.Some? && sub.charge.value.payer == id then outcome.feeCharged else 0;
            MovedBy(e.store, after.store, id, paid, BumpOf(e, sub, id))
  {
    var charged, opExists := Charged(o, s, e, sub), LoadAccount(e.store, OpSourceId(sub)).Some?;
    var cap := RefundableCap(o, s, sub);
    ChargedMoves(o, s, e, sub, id);
    OperationMoves(o, s, charged, sub, opExists, cap, id);
    var (ran, outcome, consumed) := RunOperation(o, s, charged, sub, opExists, cap);
    MovedThenPaid(e.store, charged.store, ran.store, id, PaidUpFront(sub, id), 0, BumpOf(e, sub, id));
    if sub.charge.Some? {
      CapIsNat(o, s, e, sub);
      ConsumesWithin(o, s, charged, sub, opExists, cap.value);
    }
    SettledMoves(o, s, ran, sub, outcome, consumed, id);
    var (after, settled) := Settled(o, s, ran, sub, outcome, consumed);
    MovedThenPaid(e.store, ran.store, after.store, id, PaidUpFront(sub, id),
                  if sub.charge.Some? && sub.charge.value.payer == id
                  then settled.feeCharged - sub.charge.value.upfront else 0, BumpOf(e, sub, id));
  }

  lemma CapIsNat(o: Oracles, s: Settings, e: EnvState, sub: Submission)
    requires FeeAssumptions(o) && PassesChecks(o, s, e, sub) && sub.charge.Some?
    ensures sub.tx.operations != [] && sub.tx.ext.Some? && RefundableCap(o, s, sub).value >= 0
  {
    assert DeclaredCost(o, s, sub).refundable >= 0;
  }

  lemma ConsumesWithin(o: Oracles, s: Settings, e: EnvState, sub: Submission, opExists: bool, cap: int)
    requires FeeAssumptions(o) && sub.tx.operations != [] && sub.tx.ext.Some? && cap >= 0
    ensures RunOperation(o, s, e, sub, opExists, Some(cap)).2.refundable <= cap
  {
    OperationConsumes(o, s, e, sub, opExists, cap);
  }

  /**
   * What a submission leaves of any account no invocation may write: the payer
   * pays the reported fee, the source's number and stamp move, and every other
   * part of every account, its signers and thresholds too, is as it was.
   */
  lemma AccountAfter(o: Oracles, s: Settings, e: EnvState, env: Envelope, options: ValidationOptions, id: PublicKey)
    requires HostAssumptions(o) && FeeAssumptions(o) && WellKeyed(e.store) && Applies(o, s, e, env, options)
    requires CannotWrite(SubmissionOf(env, options).tx, id)
    ensures LoadAccount(e.store, SubmissionOf(env, options).tx.source.id).Some?
    ensures var (after, outcome) := Submitted(o, s, e, env, options);
            var paid := if options.feeCharging && id == PayerOf(env) then outcome.feeCharged else 0;
            MovedBy(e.store, after.store, id, paid, BumpOf(e, SubmissionOf(env, options), id))
  {
    var sub := SubmissionOf(env, options);
    ValidatorAnswers(o, s, e, sub);
    CommitMoves(o, s, e, sub, id);
    InnerRejectedOrApplied(o, s, e, sub);
    SubmissionIs(env, options);
  }
}
