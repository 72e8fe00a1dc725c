/** The validator read off the envelope's fields and the ledger: what each answer stands for, and in what order. */
module Acceptance {
  import opened Sequences
  import opened Xdr
  import opened Signatures
  import opened Accounts
  import opened Host
  import opened Fees
  import opened Environment
  import opened Validation
  import opened Transactions
  import opened TransactionLaws

  // ---- the clock and the sequence number --------------------------------------------

  predicate HasTimeBounds(tx: Transaction, tb: TimeBounds) {
    tx.cond == PrecondTime(tb) || (tx.cond.PrecondV2? && tx.cond.v2.timeBounds == Some(tb))
  }

  /** Before a minimum time or ledger of the transaction's. */
  ghost predicate Early(ledgerSeq: u32, timestamp: u64, tx: Transaction) {
    || (exists tb :: HasTimeBounds(tx, tb) && timestamp < tb.minTime)
    || (tx.cond.PrecondV2? && tx.cond.v2.ledgerBounds.Some? && ledgerSeq < tx.cond.v2.ledgerBounds.value.minLedger)
  }

  /** After a maximum time, or in the exclusive maximum ledger or after it; 0 means there is none. */
  ghost predicate Late(ledgerSeq: u32, timestamp: u64, tx: Transaction) {
    || (exists tb :: HasTimeBounds(tx, tb) && 0 < tb.maxTime < timestamp)
    || (tx.cond.PrecondV2? && tx.cond.v2.ledgerBounds.Some?
        && 0 < tx.cond.v2.ledgerBounds.value.maxLedger <= ledgerSeq)
  }

  lemma BoundsMeaning(ledgerSeq: u32, timestamp: u64, tx: Transaction)
    ensures BoundsProblem(ledgerSeq, timestamp, tx)
         == if Early(ledgerSeq, timestamp, tx) then Some(TxTooEarly)
            else if Late(ledgerSeq, timestamp, tx) then Some(TxTooLate)
            else None
  {
    var tb := TimeBoundsOf(tx);
    if tb.Some? { assert HasTimeBounds(tx, tb.value); }
  }

  /** The next number, or any past the account's if that is not below a present minSeqNum. */
  predicate SequenceFits(tx: Transaction, seqNum: int) {
    if tx.cond.PrecondV2? && tx.cond.v2.minSeqNum.Some? then tx.cond.v2.minSeqNum.value <= seqNum < tx.seqNum
    else seqNum == tx.seqNum - 1
  }

  /** Where the account's number last moved, if its ext chain says so. */
  function LastStamp(a: Account): SequenceStamp {
    match a.ext
    case ExtV1(_, _, Ext1V2(_, _, _, Ext2V3(stamp))) => stamp
    case _ => SequenceStamp(0, 0)
  }

  predicate OldEnough(ledgerSeq: u32, timestamp: u64, tx: Transaction, last: SequenceStamp) {
    if tx.cond.PrecondV2?
    then timestamp >= last.seqTime + tx.cond.v2.minSeqAge && ledgerSeq >= last.seqLedger + tx.cond.v2.minSeqLedgerGap
    else timestamp >= last.seqTime && ledgerSeq >= last.seqLedger
  }

  lemma SequenceMeaning(ledgerSeq: u32, timestamp: u64, tx: Transaction, a: Account)
    ensures BadSequence(tx, a.seqNum) <==> !SequenceFits(tx, a.seqNum)
    ensures TooEarlyForAccount(ledgerSeq, timestamp, tx, a) <==> !OldEnough(ledgerSeq, timestamp, tx, LastStamp(a))
  {}

  // ---- the envelope --------------------------------------------------------------------

  predicate OneSorobanOperation(tx: Transaction) {
    |tx.operations| == 1 && !tx.operations[0].body.ClassicOperation?
  }

  /** Two extraSigners alike, or one with an empty payload. */
  ghost predicate BadExtraSigners(tx: Transaction) {
    tx.cond.PrecondV2? &&
    var extra := tx.cond.v2.extraSigners;
    (|extra| == 2 && extra[0] == extra[1]) || exists p :: SignedPayload(p, []) in extra
  }

  /** Only an invocation may carry neither a memo nor a muxed source. */
  predicate PlainSources(tx: Transaction)
    requires OneSorobanOperation(tx)
  {
    var op := tx.operations[0];
    op.body.InvokeHostFunction? ==>
      tx.memo == MemoNone && tx.source.Plain? && (op.source.None? || op.source.value.Plain?)
  }

  function CountsOnDisk(): LedgerKey -> nat { (k: LedgerKey) => if k.DataKey? || k.CodeKey? then 0 else 1 }

  /** What a restoration names, or else the classic keys and the archived entries marked for restoring. */
  function DiskReads(data: SorobanData, isRestore: bool): nat {
    var r := data.resources;
    if isRestore then |r.readWrite|
    else Sum(CountsOnDisk(), r.readOnly) + Sum(CountsOnDisk(), r.readWrite) + |data.archived.GetOr([])|
  }

  lemma {:induction false} FilterCount(f: LedgerKey -> nat, p: LedgerKey -> bool, s: seq<LedgerKey>)
    requires forall k :: f(k) == if p(k) then 1 else 0
    ensures |Filter(p, s)| == Sum(f, s)
  {
    if s == [] {
    } else {
      FilterCount(f, p, s[1..]);
    }
  }

  lemma DiskReadsMeaning(data: SorobanData, isRestore: bool)
    ensures DiskReadEntries(data, isRestore) == NumDiskReadEntries(data, isRestore) == DiskReads(data, isRestore)
  {
    var r := data.resources;
    FilterAppend(ClassicKey(), r.readOnly, r.readWrite);
    FilterCount(CountsOnDisk(), ClassicKey(), r.readOnly);
    FilterCount(CountsOnDisk(), ClassicKey(), r.readWrite);
  }

  /** At least that many letters and digits, and nothing but zeros after them. */
  ghost predicate CodeFits(code: Bytes, least: nat) {
    exists n | least <= n <= |code| :: CodeOf(code, n)
  }

  predicate CodeOf(code: Bytes, n: nat) {
    forall i :: 0 <= i < |code| ==>
      if i < n then 48 <= code[i] <= 57 || 65 <= code[i] <= 90 || 97 <= code[i] <= 122 else code[i] == 0
  }

  lemma CodeMeaning(code: Bytes, least: nat)
    ensures AssetCodeValid(code, least) <==> CodeFits(code, least)
  {
    forall n | 0 <= n <= |code| ensures ZeroPadded(code, n) <==> CodeOf(code, n) {}
  }

  /** A key the network supports and small enough; a trustline one of an issued asset of somebody else's. */
  ghost predicate KeyAllowed(s: FeeSettings, key: LedgerKey) {
    && KeySize(key) <= s.maxContractDataKeySizeBytes
    && match key
       case UnsupportedKey(_) => false
       case TrustLineKey(id, Native) => false
       case TrustLineKey(id, Alphanum4(code, issuer)) => CodeFits(code, 1) && issuer != id
       case TrustLineKey(id, Alphanum12(code, issuer)) => CodeFits(code, 5) && issuer != id
       case _ => true
  }

  lemma KeyMeaning(s: FeeSettings, key: LedgerKey)
    ensures KeyProblem(s, key) <==> !KeyAllowed(s, key)
  {
    if key.TrustLineKey? {
      match key.asset
      case Native =>
      case Alphanum4(code, _) => CodeMeaning(code, 1);
      case Alphanum12(code, _) => CodeMeaning(code, 5);
      case PoolShare(_) =>
    }
  }

  /** Every declared resource, key and index within the network's limits. */
  ghost predicate WithinLimits(s: FeeSettings, data: SorobanData, txSize: nat, isRestore: bool) {
    var r, archived := data.resources, data.archived.GetOr([]);
    && r.instructions <= s.txMaxInstructions
    && r.diskReadBytes <= s.txMaxDiskReadBytes && r.writeBytes <= s.txMaxWriteBytes
    && DiskReads(data, isRestore) <= s.txMaxDiskReadEntries && |r.readWrite| <= s.txMaxWriteLedgerEntries
    && |r.readOnly| + |r.readWrite| <= s.txMaxFootprintEntries
    && (forall key :: key in r.readOnly || key in r.readWrite ==> KeyAllowed(s, key))
    && txSize <= s.txMaxSizeBytes
    && (forall i, j :: 0 <= i < j < |archived| ==> archived[i] < archived[j])
    && (forall i :: 0 <= i < |archived| ==>
          archived[i] < |r.readWrite|
          && (r.readWrite[archived[i]].CodeKey?
              || (r.readWrite[archived[i]].DataKey? && r.readWrite[archived[i]].durability == Persistent)))
  }

  lemma LimitsMeaning(s: FeeSettings, data: SorobanData, txSize: nat, isRestore: bool)
    ensures ResourcesOk(s, data, txSize, isRestore) <==> WithinLimits(s, data, txSize, isRestore)
  {
    DiskReadsMeaning(data, isRestore);
    forall key ensures KeyProblem(s, key) <==> !KeyAllowed(s, key) { KeyMeaning(s, key); }
  }

  /** What the declared resources cost in an envelope of this size, with no events yet. */
  function Price(o: Oracles, s: Settings, data: SorobanData, txSize: nat, isRestore: bool): ResourceFee {
    var r := data.resources;
    o.resourceFee(s.fees, TransactionResources(r.instructions, DiskReads(data, isRestore), |r.readWrite|,
                                               r.diskReadBytes, r.writeBytes, 0, Wrap32(txSize)))
  }

  lemma PriceMeaning(o: Oracles, s: Settings, sub: Submission)
    requires sub.tx.ext.Some? && sub.tx.operations != []
    ensures DeclaredCost(o, s, sub)
         == Price(o, s, sub.tx.ext.value, sub.txSize, sub.tx.operations[0].body.RestoreFootprint?)
  {
    DiskReadsMeaning(sub.tx.ext.value, sub.tx.operations[0].body.RestoreFootprint?);
  }

  /** Well declared: no memo or muxed source on an invocation, within the limits, and a fee that covers it. */
  ghost predicate WellDeclared(o: Oracles, s: Settings, sub: Submission)
    requires OneSorobanOperation(sub.tx)
  {
    var isRestore := sub.tx.operations[0].body.RestoreFootprint?;
    && PlainSources(sub.tx) && sub.tx.ext.Some?
    && WithinLimits(s.fees, sub.tx.ext.value, sub.txSize, isRestore)
    && (sub.charge.Some? ==>
          var price := Price(o, s, sub.tx.ext.value, sub.txSize, isRestore);
          sub.tx.ext.value.resourceFee >= price.nonRefundable + price.refundable)
  }

  /** Every answer that needs no account. */
  ghost function EnvelopeAnswer(o: Oracles, s: Settings, e: EnvState, sub: Submission): Option<TxOutcome> {
    var tx := sub.tx;
    if BadExtraSigners(tx) then Some(Fail(TxMalformed))
    else if tx.operations == [] then Some(Fail(TxMissingOperation))
    else if !OneSorobanOperation(tx) then Some(Fail(TxMalformed))
    else if !WellDeclared(o, s, sub) then Some(Fail(TxSorobanInvalid))
    else if sub.options.timebounds && Early(e.ledgerSeq, e.timestamp, tx) then Some(Fail(TxTooEarly))
    else if sub.options.timebounds && Late(e.ledgerSeq, e.timestamp, tx) then Some(Fail(TxTooLate))
    else None
  }

  lemma ExtraSignersMeaning(tx: Transaction)
    ensures ExtraSignersMalformed(tx) <==> BadExtraSigners(tx)
  {
    if tx.cond.PrecondV2? {
      forall k | k in tx.cond.v2.extraSigners && k.SignedPayload? && k.payload == []
        ensures SignedPayload(k.payloadKey, []) in tx.cond.v2.extraSigners
      {}
    }
  }

  lemma ShapeMeaning(tx: Transaction)
    requires tx.operations != []
    ensures OneSorobanOperation(tx) <==>
              !((forall op :: op in tx.operations ==> !IsSorobanOp(op))
                || (exists op :: op in tx.operations && !IsSorobanOp(op)) || |tx.operations| != 1)
  {
    assert tx.operations[0] in tx.operations;
    if |tx.operations| == 1 { assert forall op :: op in tx.operations <==> op == tx.operations[0]; }
  }

  lemma DeclaredMeaning(o: Oracles, s: Settings, sub: Submission)
    requires OneSorobanOperation(sub.tx)
    ensures WellDeclared(o, s, sub) <==>
              && !MemoOrMuxed(sub.tx, sub.tx.operations[0]) && sub.tx.ext.Some?
              && ResourcesOk(s.fees, sub.tx.ext.value, sub.txSize, sub.tx.operations[0].body.RestoreFootprint?)
              && ResourceFeeCovers(o, s, sub)
  {
    if sub.tx.ext.Some? {
      LimitsMeaning(s.fees, sub.tx.ext.value, sub.txSize, sub.tx.operations[0].body.RestoreFootprint?);
      PriceMeaning(o, s, sub);
    }
  }

  lemma EnvelopeAnswered(o: Oracles, s: Settings, e: EnvState, sub: Submission)
    ensures EnvelopeProblem(o, s, e, sub) == EnvelopeAnswer(o, s, e, sub)
  {
    ExtraSignersMeaning(sub.tx);
    if sub.tx.operations != [] {
      ShapeMeaning(sub.tx);
      if OneSorobanOperation(sub.tx) { DeclaredMeaning(o, s, sub); }
    }
    BoundsMeaning(e.ledgerSeq, e.timestamp, sub.tx);
  }

  // ---- the accounts ----------------------------------------------------------------------

  function Spendable(a: Account): int { a.balance - Reserve(a) }

  /** Who may sign for an account: its own key unless that weighs nothing, and its signers. */
  function Signatories(a: Account): seq<Signer> {
    if a.thresholds.master > 0 then [Signer(Ed25519(a.id), a.thresholds.master)] + a.signers else a.signers
  }

  function OperationSource(tx: Transaction): PublicKey
    requires tx.operations != []
  {
    match tx.operations[0].source
    case Some(m) => m.id
    case None => tx.source.id
  }

  /** Who may sign for the operation: its source's signatories, or a missing source's own key. */
  function OperationSignatories(tx: Transaction, account: Option<Account>): seq<Signer>
    requires tx.operations != []
  {
    match account
    case Some(a) => Signatories(a)
    case None => [Signer(Ed25519(OperationSource(tx)), 1)]
  }

  /** The medium threshold for an invocation, the low one for a footprint operation, any weight for a missing source. */
  function OperationWeight(tx: Transaction, account: Option<Account>): nat
    requires tx.operations != []
  {
    match account
    case Some(a) => if tx.operations[0].body.InvokeHostFunction? then a.thresholds.medium else a.thresholds.low
    case None => 0
  }

  function Extras(tx: Transaction): seq<Signer> {
    if tx.cond.PrecondV2?
    then seq(|tx.cond.v2.extraSigners|, k requires 0 <= k < |tx.cond.v2.extraSigners| =>
             Signer(tx.cond.v2.extraSigners[k], 1))
    else []
  }

  /** The check of the transaction's signatures, over its hash, against these signers. */
  function Signed(o: Oracles, sub: Submission, signers: seq<Signer>, needed: nat): Check {
    Decide(VerifierOf(o.crypto, o.txHash(sub.tx)), sub.signatures, signers, needed)
  }

  function ExtrasSigned(o: Oracles, sub: Submission): Check {
    if Extras(sub.tx) == [] then Check(true, 0, []) else Signed(o, sub, Extras(sub.tx), |Extras(sub.tx)|)
  }

  lemma OperationSignersMeaning(sub: Submission, account: Option<Account>)
    requires sub.tx.operations != []
    ensures OpSigners(sub, account) == OperationSignatories(sub.tx, account)
    ensures OpNeeded(sub, account) == OperationWeight(sub.tx, account)
  {
    if account.Some? { SignatoriesAre(account.value); }
  }

  lemma SignersMeaning(sub: Submission, source: Account, account: Option<Account>)
    requires sub.tx.operations != []
    ensures AccountSigners(source) == Signatories(source) && ExtraAsSigners(sub.tx) == Extras(sub.tx)
    ensures OpSigners(sub, account) == OperationSignatories(sub.tx, account)
    ensures OpNeeded(sub, account) == OperationWeight(sub.tx, account)
    ensures OpSourceId(sub) == OperationSource(sub.tx)
  {
    SignatoriesAre(source);
    OperationSignersMeaning(sub, account);
    assert ExtraAsSigners(sub.tx) == Extras(sub.tx);
  }

  lemma ChecksMeaning(o: Oracles, sub: Submission, source: Account, account: Option<Account>)
    requires sub.tx.operations != []
    ensures SourceCheck(o, sub, source) == Signed(o, sub, Signatories(source), source.thresholds.low)
    ensures ExtraCheck(o, sub) == ExtrasSigned(o, sub)
    ensures OpCheck(o, sub, account)
         == Signed(o, sub, OperationSignatories(sub.tx, account), OperationWeight(sub.tx, account))
  {
    SignersMeaning(sub, source, account);
  }

  lemma SignatoriesAre(a: Account)
    ensures AccountSigners(a) == Signatories(a)
  {
    assert [] + a.signers == a.signers;
  }

  /** The footprint operation's own shape. */
  ghost predicate Misshapen(s: Settings, op: Operation, r: Resources) {
    match op.body
    case ExtendFootprintTtl(extendTo) =>
      r.readWrite != [] || extendTo >= s.maxEntryTtl || exists k :: k in r.readOnly && !(k.DataKey? || k.CodeKey?)
    case RestoreFootprint =>
      r.readOnly != []
      || exists k :: k in r.readWrite && !(k.CodeKey? || (k.DataKey? && k.durability == Persistent))
    case _ => false
  }

  lemma ShapeOfOperation(s: Settings, op: Operation, r: Resources)
    ensures FootprintOpMalformed(s, op, r)
         == if !Misshapen(s, op, r) then None
            else if op.body.RestoreFootprint? then Some(RestoreMalformed) else Some(ExtendMalformed)
  {}

  /** A signature none of these counted. */
  ghost predicate Idle(signatures: seq<DecoratedSignature>, log: seq<Counted>) {
    exists i :: 0 <= i < |signatures| && !Consumed(log, i)
  }

  /** Every answer once the source account is there and its signatures are checked; `rest` is the operation's. */
  ghost function AccountAnswer(e: EnvState, sub: Submission, source: Account, signed: bool,
                               rest: Option<TxOutcome>): Option<TxOutcome>
  {
    var tx, options := sub.tx, sub.options;
    if tx.seqNum == e.ledgerSeq * 0x1_0000_0000 || (options.sequenceCheck && !SequenceFits(tx, source.seqNum))
    then Some(Fail(TxBadSeq))
    else if options.timebounds && !OldEnough(e.ledgerSeq, e.timestamp, tx, LastStamp(source))
    then Some(Fail(TxBadMinSeqAgeOrGap))
    else if options.sigverify && !signed then Some(Fail(TxBadAuth))
    else if !sub.feeBumped && tx.fee < ResourceFeeIn(tx) + 100 then Some(Fail(TxInsufficientFee))
    else if !sub.feeBumped && sub.charge.Some?
            && Spendable(LoadAccount(e.store, sub.charge.value.payer).GetOr(source)) < tx.fee
    then Some(Fail(TxInsufficientBalance))
    else rest
  }

  /** The operation's: its own check, its shape, and a signature that none of the three checks counted. */
  ghost function OperationAnswer(s: Settings, sub: Submission, a: Check, b: Check, c: Check): Option<TxOutcome>
    requires sub.tx.operations != [] && sub.tx.ext.Some?
  {
    var op, sigverify := sub.tx.operations[0], sub.options.sigverify;
    if sigverify && !c.done then Some(Fail(TxFailed).(opCode := Some(OpBadAuth)))
    else if Misshapen(s, op, sub.tx.ext.value.resources)
    then Some(Fail(TxFailed).(footprintOp := Some(if op.body.RestoreFootprint? then RestoreMalformed
                                                  else ExtendMalformed)))
    else if sigverify && Idle(sub.signatures, a.log + b.log + c.log) then Some(Fail(TxBadAuthExtra))
    else None
  }

  lemma OperationAnswered(o: Oracles, s: Settings, sub: Submission, source: Account, account: Option<Account>)
    requires sub.tx.operations != [] && sub.tx.ext.Some?
    ensures OperationProblem(o, s, sub, source, account)
         == OperationAnswer(s, sub, SourceCheck(o, sub, source), ExtraCheck(o, sub), OpCheck(o, sub, account))
  {
    ShapeOfOperation(s, sub.tx.operations[0], sub.tx.ext.value.resources);
  }

  lemma AccountAnswered(o: Oracles, s: Settings, e: EnvState, sub: Submission, source: Account)
    requires sub.tx.operations != [] && sub.tx.ext.Some? && LoadAccount(e.store, sub.tx.source.id) == Some(source)
    ensures AccountProblem(o, s, e, sub)
         == AccountAnswer(e, sub, source, SourceCheck(o, sub, source).done && ExtraCheck(o, sub).done,
                          OperationProblem(o, s, sub, source, LoadAccount(e.store, OperationSource(sub.tx))))
  {
    SequenceMeaning(e.ledgerSeq, e.timestamp, sub.tx, source);
  }

  /** The three checks, each against its own signers, and what they answer. */
  ghost function SignedAnswer(o: Oracles, s: Settings, e: EnvState, sub: Submission, source: Account,
                              account: Option<Account>): Option<TxOutcome>
    requires sub.tx.operations != [] && sub.tx.ext.Some?
  {
    var a, b := Signed(o, sub, Signatories(source), source.thresholds.low), ExtrasSigned(o, sub);
    var c := Signed(o, sub, OperationSignatories(sub.tx, account), OperationWeight(sub.tx, account));
    AccountAnswer(e, sub, source, a.done && b.done, OperationAnswer(s, sub, a, b, c))
  }

  /** checkValid's answer, whatever the envelope: the first of these that applies, or none. */
  ghost function Answer(o: Oracles, s: Settings, e: EnvState, sub: Submission): Option<TxOutcome> {
    var p := EnvelopeAnswer(o, s, e, sub);
    if p.Some? then p
    else if LoadAccount(e.store, sub.tx.source.id).None? then Some(Fail(TxNoAccount))
    else SignedAnswer(o, s, e, sub, LoadAccount(e.store, sub.tx.source.id).value,
                      LoadAccount(e.store, OperationSource(sub.tx)))
  }

  lemma ValidatorAnswers(o: Oracles, s: Settings, e: EnvState, sub: Submission)
    ensures Problem(o, s, e, sub) == Answer(o, s, e, sub)
  {
    EnvelopeAnswered(o, s, e, sub);
    if EnvelopeProblem(o, s, e, sub).None? && LoadAccount(e.store, sub.tx.source.id).Some? {
      var source, account :=
          LoadAccount(e.store, sub.tx.source.id).value, LoadAccount(e.store, OperationSource(sub.tx));
      ChecksMeaning(o, sub, source, account);
      OperationAnswered(o, s, sub, source, account);
      AccountAnswered(o, s, e, sub, source);
    }
  }

  // ---- a fee bump's own tests --------------------------------------------------------------

  /** A Soroban transaction without its data, or with a resource fee outside [0, 2^50]. */
  predicate BadResourceFee(tx: Transaction) {
    tx.operations != [] && !tx.operations[0].body.ClassicOperation?
    && (tx.ext.None? || tx.ext.value.resourceFee < 0 || tx.ext.value.resourceFee > 0x4_0000_0000_0000)
  }

  function ResourceFeeIn(tx: Transaction): int {
    match tx.ext
    case None => 0
    case Some(data) => data.resourceFee
  }

  /** The base fee per operation, and at least one. */
  function LeastInclusion(operations: nat): nat { if operations == 0 then 100 else 100 * operations }

  /** The bid does not raise the inner transaction's rate per operation. */
  predicate TooWeak(env: Envelope)
    requires env.EnvelopeFeeBump?
  {
    var n, fee := |env.inner.operations|, ResourceFeeIn(env.inner);
    && env.inner.fee >= fee
    && (env.fee - fee) * LeastInclusion(n) < (env.inner.fee - fee) * LeastInclusion(n + 1)
  }

  ghost function BumpAnswer(o: Oracles, e: EnvState, env: Envelope, options: ValidationOptions): Option<TxOutcome>
    requires env.EnvelopeFeeBump?
  {
    var n, fee, account := |env.inner.operations|, ResourceFeeIn(env.inner), LoadAccount(e.store, env.feeSource.id);
    if BadResourceFee(env.inner) || env.fee < 0 || env.fee < fee then Some(Fail(TxMalformed).(unseeded := true))
    else if env.fee - fee < LeastInclusion(n + 1) then Some(Fail(TxInsufficientFee))
    else if TooWeak(env) then Some(Fail(TxInsufficientFee, NeededInclusion(env.inner.fee - fee, n)))
    else if account.None? then Some(Fail(TxNoAccount))
    else FeeSourceAnswer(o, env, account.value, options)
  }

  ghost function FeeSourceAnswer(o: Oracles, env: Envelope, account: Account,
                                 options: ValidationOptions): Option<TxOutcome>
    requires env.EnvelopeFeeBump?
  {
    var hash := o.bumpHash(env.feeSource, env.fee, env.inner, env.innerSignatures);
    var check := Decide(VerifierOf(o.crypto, hash), env.signatures, Signatories(account), account.thresholds.low);
    if options.sigverify && !check.done then Some(Fail(TxBadAuth))
    else if options.feeCharging && Spendable(account) < env.fee then Some(Fail(TxInsufficientBalance))
    else if options.sigverify && Idle(env.signatures, check.log) then Some(Fail(TxBadAuthExtra))
    else None
  }

  /** A fee bump's own checks answer the first of these that applies, or none. */
  lemma BumpAnswered(o: Oracles, e: EnvState, env: Envelope, options: ValidationOptions)
    requires env.EnvelopeFeeBump?
    ensures OuterProblem(o, e, env, options) == BumpAnswer(o, e, env, options)
  {
    var n := |env.inner.operations|;
    assert MinInclusion(n) == LeastInclusion(n) && MinInclusion(n + 1) == LeastInclusion(n + 1);
    var account := LoadAccount(e.store, env.feeSource.id);
    if account.Some? { SignatoriesAre(account.value); }
  }

  // ---- the sequence rule by itself -----------------------------------------------------------

  /** An accepted transaction has the next number, or one its minSeqNum allows. */
  lemma AcceptedSequence(o: Oracles, s: Settings, e: EnvState, sub: Submission)
    requires PassesChecks(o, s, e, sub) && sub.options.sequenceCheck
    ensures LoadAccount(e.store, sub.tx.source.id).Some?
    ensures var seqNum, cond := LoadAccount(e.store, sub.tx.source.id).value.seqNum, sub.tx.cond;
            && (cond.PrecondV2? && cond.v2.minSeqNum.Some? ==> cond.v2.minSeqNum.value <= seqNum < sub.tx.seqNum)
            && (!cond.PrecondV2? || cond.v2.minSeqNum.None? ==> seqNum == sub.tx.seqNum - 1)
            && sub.tx.seqNum != e.ledgerSeq * 0x1_0000_0000
  {
    ValidatorAnswers(o, s, e, sub);
  }

  /** And is within its bounds, and as old as it asks to be. */
  lemma AcceptedInTime(o: Oracles, s: Settings, e: EnvState, sub: Submission)
    requires PassesChecks(o, s, e, sub) && sub.options.timebounds
    ensures LoadAccount(e.store, sub.tx.source.id).Some?
    ensures !Early(e.ledgerSeq, e.timestamp, sub.tx) && !Late(e.ledgerSeq, e.timestamp, sub.tx)
    ensures OldEnough(e.ledgerSeq, e.timestamp, sub.tx, LastStamp(LoadAccount(e.store, sub.tx.source.id).value))
  {
    ValidatorAnswers(o, s, e, sub);
  }

  lemma EnvelopeCodes(o: Oracles, s: Settings, e: EnvState, sub: Submission)
    ensures EnvelopeAnswer(o, s, e, sub).Some? ==> EnvelopeAnswer(o, s, e, sub).value.code != TxBadSeq
  {}

  lemma OperationCodes(s: Settings, sub: Submission, a: Check, b: Check, c: Check)
    requires sub.tx.operations != [] && sub.tx.ext.Some?
    ensures var p := OperationAnswer(s, sub, a, b, c); p.Some? ==> p.value.code != TxBadSeq
  {}

  lemma AccountCodes(e: EnvState, sub: Submission, source: Account, signed: bool, rest: Option<TxOutcome>)
    requires rest.Some? ==> rest.value.code != TxBadSeq
    ensures var p := AccountAnswer(e, sub, source, signed, rest);
            p.Some? && p.value.code == TxBadSeq <==>
              sub.tx.seqNum == e.ledgerSeq * 0x1_0000_0000
              || (sub.options.sequenceCheck && !SequenceFits(sub.tx, source.seqNum))
  {}

  /** txBAD_SEQ is answered exactly when nothing before the test fails and the number does not fit. */
  lemma BadSeqAnswered(o: Oracles, s: Settings, e: EnvState, sub: Submission)
    ensures var p, source := Problem(o, s, e, sub), LoadAccount(e.store, sub.tx.source.id);
            p.Some? && p.value.code == TxBadSeq <==>
              && EnvelopeAnswer(o, s, e, sub).None? && source.Some?
              && (sub.tx.seqNum == e.ledgerSeq * 0x1_0000_0000
                  || (sub.options.sequenceCheck && !SequenceFits(sub.tx, source.value.seqNum)))
  {
    ValidatorAnswers(o, s, e, sub);
    EnvelopeCodes(o, s, e, sub);
    var loaded := LoadAccount(e.store, sub.tx.source.id);
    if EnvelopeAnswer(o, s, e, sub).None? && loaded.Some? {
      var source, account := loaded.value, LoadAccount(e.store, OperationSource(sub.tx));
      var a, b := Signed(o, sub, Signatories(source), source.thresholds.low), ExtrasSigned(o, sub);
      var c := Signed(o, sub, OperationSignatories(sub.tx, account), OperationWeight(sub.tx, account));
      OperationCodes(s, sub, a, b, c);
      AccountCodes(e, sub, source, a.done && b.done, OperationAnswer(s, sub, a, b, c));
    }
  }
}
