/** Whether an accepted envelope survives one more signature: when it never does, and exactly when it does. */
module Padding {
  import opened Sequences
  import opened Xdr
  import opened Signatures
  import opened Accounts
  import opened Host
  import opened Fees
  import opened Environment
  import opened Validation
  import opened Transactions
  import opened TransactionLaws
  import opened Acceptance
  import opened Authorization

  // ---- when it never does --------------------------------------------------------------

  /** A satisfied check never counts a signature that comes too late for it. */
  lemma AppendedNotCounted(v: Verifier, sigs: seq<DecoratedSignature>, signers: seq<Signer>, needed: nat,
                           extra: DecoratedSignature)
    requires Decide(v, sigs, signers, needed).done && ComesLate(v, sigs, signers, needed, extra)
    ensures !Consumed(Decide(v, sigs + [extra], signers, needed).log, |sigs|)
  {
    CheckIgnoresLaterSignature(v, sigs, signers, needed, extra);
    CheckSound(v, sigs, signers, needed);
  }

  /** The signature verifies, in each of the three lists, for no signer of a type tried before the satisfying one. */
  ghost predicate LateForAll(o: Oracles, e: EnvState, sub: Submission, extra: DecoratedSignature)
    requires sub.tx.operations != [] && LoadAccount(e.store, SourceId(sub)).Some?
  {
    var v, sigs, source := VerifierFor(o, sub), sub.signatures, LoadAccount(e.store, SourceId(sub)).value;
    var opAccount := LoadAccount(e.store, OpSourceId(sub));
    && ComesLate(v, sigs, AccountSigners(source), source.thresholds.low, extra)
    && ComesLate(v, sigs, ExtraAsSigners(sub.tx), |ExtraSigners(sub.tx)|, extra)
    && ComesLate(v, sigs, OpSigners(sub, opAccount), OpNeeded(sub, opAccount), extra)
  }

  /** None of the three checks would count such a signature appended to an accepted submission. */
  lemma AppendedCountedNowhere(o: Oracles, s: Settings, e: EnvState, sub: Submission, padded: Submission,
                               extra: DecoratedSignature)
    requires sub.options.sigverify && PassesChecks(o, s, e, sub) && sub.tx.operations != []
    requires LoadAccount(e.store, SourceId(sub)).Some? && LateForAll(o, e, sub, extra)
    requires padded.tx == sub.tx && padded.signatures == sub.signatures + [extra]
    ensures var n := |sub.signatures|;
            && !Consumed(SourceCheck(o, padded, LoadAccount(e.store, SourceId(sub)).value).log, n)
            && !Consumed(ExtraCheck(o, padded).log, n)
            && !Consumed(OpCheck(o, padded, LoadAccount(e.store, OpSourceId(sub))).log, n)
  {
    AcceptedChecks(o, s, e, sub);
    var v, sigs := VerifierFor(o, sub), sub.signatures;
    var source, opAccount := LoadAccount(e.store, SourceId(sub)).value, LoadAccount(e.store, OpSourceId(sub));
    AppendedNotCounted(v, sigs, AccountSigners(source), source.thresholds.low, extra);
    if ExtraSigners(sub.tx) != [] {
      AppendedNotCounted(v, sigs, ExtraAsSigners(sub.tx), |ExtraSigners(sub.tx)|, extra);
    }
    AppendedNotCounted(v, sigs, OpSigners(sub, opAccount), OpNeeded(sub, opAccount), extra);
  }

  lemma PaddedSubmissionRefused(o: Oracles, s: Settings, e: EnvState, sub: Submission, padded: Submission,
                                extra: DecoratedSignature)
    requires sub.options.sigverify && PassesChecks(o, s, e, sub) && sub.tx.operations != []
    requires LoadAccount(e.store, SourceId(sub)).Some? && LateForAll(o, e, sub, extra)
    requires padded.tx == sub.tx && padded.signatures == sub.signatures + [extra] && padded.options == sub.options
    ensures !PassesChecks(o, s, e, padded)
  {
    AppendedCountedNowhere(o, s, e, sub, padded, extra);
    if PassesChecks(o, s, e, padded) {
      AcceptedIsAuthorized(o, s, e, padded);
    }
  }

  /** The envelope with one more signature on its transaction. */
  function WithSignature(env: Envelope, extra: DecoratedSignature): Envelope
    requires !env.EnvelopeV0?
  {
    match env
    case EnvelopeV1(tx, signatures) => EnvelopeV1(tx, signatures + [extra])
    case EnvelopeFeeBump(feeSource, fee, inner, innerSignatures, signatures) =>
      EnvelopeFeeBump(feeSource, fee, inner, innerSignatures + [extra], signatures)
  }

  /** An accepted envelope has one operation and an existing source. */
  lemma AcceptedShape(o: Oracles, s: Settings, e: EnvState, sub: Submission)
    requires PassesChecks(o, s, e, sub)
    ensures sub.tx.operations != [] && sub.tx.ext.Some? && LoadAccount(e.store, SourceId(sub)).Some?
    ensures EnvelopeProblem(o, s, e, sub).None?
  {}

  /** An accepted envelope is rejected with any signature that comes too late for its three checks. */
  lemma PaddedEnvelopeRejected(o: Oracles, s: Settings, e: EnvState, env: Envelope, extra: DecoratedSignature,
                               options: ValidationOptions)
    requires options.sigverify && Applies(o, s, e, env, options)
    requires var sub := SubmissionOf(env, options);
             sub.tx.operations != [] && LoadAccount(e.store, SourceId(sub)).Some? ==> LateForAll(o, e, sub, extra)
    ensures !Applies(o, s, e, WithSignature(env, extra), options)
  {
    var sub := SubmissionOf(env, options);
    AcceptedShape(o, s, e, sub);
    PaddedSubmissionRefused(o, s, e, sub, SubmissionOf(WithSignature(env, extra), options), extra);
  }

  /** Each of the three lists has signers of one type only, beside any PRE_AUTH_TX ones. */
  ghost predicate OneTypeInvolved(e: EnvState, sub: Submission)
    requires sub.tx.operations != []
  {
    var source, opAccount := LoadAccount(e.store, SourceId(sub)), LoadAccount(e.store, OpSourceId(sub));
    && (source.Some? ==> OneSignatureType(AccountSigners(source.value)))
    && OneSignatureType(ExtraAsSigners(sub.tx))
    && OneSignatureType(OpSigners(sub, opAccount))
  }

  /** So with one type of signer in each list, no signature can be added at all: ed25519 accounts, in particular. */
  lemma OneTypePaddingRejected(o: Oracles, s: Settings, e: EnvState, env: Envelope, extra: DecoratedSignature,
                               options: ValidationOptions)
    requires options.sigverify && Applies(o, s, e, env, options)
    requires SubmissionOf(env, options).tx.operations != [] ==> OneTypeInvolved(e, SubmissionOf(env, options))
    ensures !Applies(o, s, e, WithSignature(env, extra), options)
  {
    var sub := SubmissionOf(env, options);
    AcceptedShape(o, s, e, sub);
    AcceptedChecks(o, s, e, sub);
    var v, sigs, source := VerifierFor(o, sub), sub.signatures, LoadAccount(e.store, SourceId(sub)).value;
    var opAccount := LoadAccount(e.store, OpSourceId(sub));
    OneTypeComesLate(v, sigs, AccountSigners(source), source.thresholds.low, extra);
    if ExtraSigners(sub.tx) != [] { OneTypeComesLate(v, sigs, ExtraAsSigners(sub.tx), |ExtraSigners(sub.tx)|, extra); }
    OneTypeComesLate(v, sigs, OpSigners(sub, opAccount), OpNeeded(sub, opAccount), extra);
    PaddedEnvelopeRejected(o, s, e, env, extra, options);
  }

  // ---- a fee bump's own signatures -----------------------------------------------------

  function OuterVerifier(o: Oracles, env: Envelope): Verifier
    requires env.EnvelopeFeeBump?
  {
    VerifierOf(o.crypto, o.bumpHash(env.feeSource, env.fee, env.inner, env.innerSignatures))
  }

  function WithOuterSignature(env: Envelope, extra: DecoratedSignature): Envelope
    requires env.EnvelopeFeeBump?
  {
    EnvelopeFeeBump(env.feeSource, env.fee, env.inner, env.innerSignatures, env.signatures + [extra])
  }

  /** What acceptance says of the fee source's check, and what it takes to be accepted again with other signatures. */
  lemma OuterShape(o: Oracles, e: EnvState, env: Envelope, extra: DecoratedSignature, options: ValidationOptions)
    requires env.EnvelopeFeeBump? && options.sigverify && OuterProblem(o, e, env, options).None?
    ensures LoadAccount(e.store, env.feeSource.id).Some?
    ensures var account, padded := LoadAccount(e.store, env.feeSource.id).value, WithOuterSignature(env, extra);
            && OuterCheck(o, env, account).done && AllUsed(env.signatures, OuterCheck(o, env, account).log)
            && (OuterProblem(o, e, padded, options).None? <==>
                  OuterCheck(o, padded, account).done && AllUsed(padded.signatures, OuterCheck(o, padded, account).log))
  {}

  /** Nor does a fee bump survive a signature that comes too late for its own check. */
  lemma PaddedBumpRejected(o: Oracles, e: EnvState, env: Envelope, extra: DecoratedSignature,
                           options: ValidationOptions)
    requires env.EnvelopeFeeBump? && options.sigverify && OuterProblem(o, e, env, options).None?
    requires var feeAccount := LoadAccount(e.store, env.feeSource.id);
             feeAccount.Some? ==>
               || OneSignatureType(AccountSigners(feeAccount.value))
               || ComesLate(OuterVerifier(o, env), env.signatures, AccountSigners(feeAccount.value),
                            feeAccount.value.thresholds.low, extra)
    ensures OuterProblem(o, e, WithOuterSignature(env, extra), options).Some?
  {
    OuterShape(o, e, env, extra, options);
    var v, account := OuterVerifier(o, env), LoadAccount(e.store, env.feeSource.id).value;
    if OneSignatureType(AccountSigners(account)) {
      OneTypeComesLate(v, env.signatures, AccountSigners(account), account.thresholds.low, extra);
    }
    AppendedNotCounted(v, env.signatures, AccountSigners(account), account.thresholds.low, extra);
    assert 0 <= |env.signatures| < |WithOuterSignature(env, extra).signatures|;
  }

  /**
   * Exactly when it does survive: the signature brings a signer of a type tried
   * before the satisfying one, and every signature before it is still needed.
   */
  lemma PaddedBumpAcceptedIff(o: Oracles, e: EnvState, env: Envelope, extra: DecoratedSignature,
                              options: ValidationOptions)
    requires env.EnvelopeFeeBump? && options.sigverify && OuterProblem(o, e, env, options).None?
    requires LoadAccount(e.store, env.feeSource.id).Some?
    requires AtMostOneSigner(OuterVerifier(o, env), env.signatures + [extra],
                             AccountSigners(LoadAccount(e.store, env.feeSource.id).value))
    ensures var v, sigs := OuterVerifier(o, env), env.signatures;
            var account := LoadAccount(e.store, env.feeSource.id).value;
            var signers, needed := AccountSigners(account), account.thresholds.low;
            OuterProblem(o, e, WithOuterSignature(env, extra), options).None? <==>
              && BringsNew(v, sigs, signers, needed, extra)
              && forall k :: 0 <= k < |sigs| ==> CountedBy(v, sigs + [extra], signers, needed, k)
  {
    OuterShape(o, e, env, extra, options);
    var account := LoadAccount(e.store, env.feeSource.id).value;
    CheckSurvives(OuterVerifier(o, env), env.signatures, AccountSigners(account), account.thresholds.low, extra);
  }

  /** The same for a single check that has to count every signature. */
  lemma CheckSurvives(v: Verifier, sigs: seq<DecoratedSignature>, signers: seq<Signer>, needed: nat,
                      extra: DecoratedSignature)
    requires AtMostOneSigner(v, sigs + [extra], signers) && Decide(v, sigs, signers, needed).done
    ensures var padded := Decide(v, sigs + [extra], signers, needed);
            padded.done && AllUsed(sigs + [extra], padded.log) <==>
              && BringsNew(v, sigs, signers, needed, extra)
              && forall k :: 0 <= k < |sigs| ==> CountedBy(v, sigs + [extra], signers, needed, k)
  {
    StillDone(v, sigs, signers, needed, extra);
    AppendedCountedIff(v, sigs, signers, needed, extra);
    UsedWithExtra(sigs, extra, Decide(v, sigs + [extra], signers, needed).log);
    forall k | 0 <= k <= |sigs|
      ensures Consumed(Decide(v, sigs + [extra], signers, needed).log, k)
          <==> CountedBy(v, sigs + [extra], signers, needed, k)
    {
      CheckCounts(v, sigs + [extra], signers, needed, k);
    }
  }

  lemma UsedWithExtra(sigs: seq<DecoratedSignature>, extra: DecoratedSignature, log: seq<Counted>)
    ensures AllUsed(sigs + [extra], log) <==>
              Consumed(log, |sigs|) && forall k :: 0 <= k < |sigs| ==> Consumed(log, k)
  {
    assert |sigs + [extra]| == |sigs| + 1;
  }

  // ---- exactly when an envelope does ---------------------------------------------------

  /** More signatures match no fewer signers. */
  lemma MoreSignatures(v: Verifier, sigs: seq<DecoratedSignature>, signers: seq<Signer>, extra: DecoratedSignature)
    ensures Sum(MatchedCap(v, sigs), signers) <= Sum(MatchedCap(v, sigs + [extra]), signers)
    ensures AnyMatched(v, sigs, signers) ==> AnyMatched(v, sigs + [extra], signers)
    ensures forall s :: Matched(v, sigs, s) ==> Matched(v, sigs + [extra], s)
  {
    forall s | Matched(v, sigs, s) ensures Matched(v, sigs + [extra], s) {}
    SumMonotone(MatchedCap(v, sigs), MatchedCap(v, sigs + [extra]), signers);
  }

  lemma StillDone(v: Verifier, sigs: seq<DecoratedSignature>, signers: seq<Signer>, needed: nat,
                  extra: DecoratedSignature)
    requires AtMostOneSigner(v, sigs + [extra], signers) && Decide(v, sigs, signers, needed).done
    ensures AtMostOneSigner(v, sigs, signers) && Decide(v, sigs + [extra], signers, needed).done
  {
    forall sig | sig in sigs ensures OneSigner(v, sig, signers) { assert sig in sigs + [extra]; }
    CheckMeaning(v, sigs, signers, needed);
    CheckMeaning(v, sigs + [extra], signers, needed);
    MoreSignatures(v, sigs, signers, extra);
  }

  /** In one of the three lists, the signature brings a signer of a type tried before the satisfying one. */
  ghost predicate BringsNewSomewhere(o: Oracles, sub: Submission, source: Account, opAccount: Option<Account>,
                                     extra: DecoratedSignature)
    requires sub.tx.operations != []
  {
    var v, sigs := VerifierFor(o, sub), sub.signatures;
    || BringsNew(v, sigs, Signatories(source), source.thresholds.low, extra)
    || (Extras(sub.tx) != [] && BringsNew(v, sigs, Extras(sub.tx), |Extras(sub.tx)|, extra))
    || BringsNew(v, sigs, OperationSignatories(sub.tx, opAccount), OperationWeight(sub.tx, opAccount), extra)
  }

  /** The three checks, satisfied without the signature, are satisfied with it. */
  lemma PaddedStillDone(o: Oracles, sub: Submission, padded: Submission, source: Account, opAccount: Option<Account>,
                        extra: DecoratedSignature)
    requires sub.tx.operations != [] && padded.tx == sub.tx && padded.signatures == sub.signatures + [extra]
    requires SourceCheck(o, sub, source).done && ExtraCheck(o, sub).done && OpCheck(o, sub, opAccount).done
    requires Unambiguous(o, padded, source, opAccount)
    ensures SourceCheck(o, padded, source).done && ExtraCheck(o, padded).done && OpCheck(o, padded, opAccount).done
  {
    var v, sigs := VerifierFor(o, sub), sub.signatures;
    ChecksMeaning(o, sub, source, opAccount);
    ChecksMeaning(o, padded, source, opAccount);
    StillDone(v, sigs, Signatories(source), source.thresholds.low, extra);
    ExtrasStillDone(o, sub, padded, extra);
    StillDone(v, sigs, OperationSignatories(sub.tx, opAccount), OperationWeight(sub.tx, opAccount), extra);
  }

  /** And one of them counts it iff it brings a new signer to one of them. */
  lemma PaddedCounted(o: Oracles, sub: Submission, padded: Submission, source: Account, opAccount: Option<Account>,
                      extra: DecoratedSignature)
    requires sub.tx.operations != [] && padded.tx == sub.tx && padded.signatures == sub.signatures + [extra]
    requires SourceCheck(o, sub, source).done && ExtraCheck(o, sub).done && OpCheck(o, sub, opAccount).done
    requires Unambiguous(o, padded, source, opAccount)
    ensures CountedForSomeone(o, padded, source, opAccount, |sub.signatures|)
       <==> BringsNewSomewhere(o, sub, source, opAccount, extra)
  {
    var v, sigs := VerifierFor(o, sub), sub.signatures;
    ChecksMeaning(o, sub, source, opAccount);
    AppendedCountedIff(v, sigs, Signatories(source), source.thresholds.low, extra);
    ExtrasStillDone(o, sub, padded, extra);
    AppendedCountedIff(v, sigs, OperationSignatories(sub.tx, opAccount), OperationWeight(sub.tx, opAccount), extra);
  }

  lemma ListStillDone(v: Verifier, sigs: seq<DecoratedSignature>, signers: seq<Signer>, needed: nat,
                      extra: DecoratedSignature)
    requires AtMostOneSigner(v, sigs + [extra], signers) && Decide(v, sigs, signers, needed).done
    ensures Decide(v, sigs + [extra], signers, needed).done
    ensures CountedBy(v, sigs + [extra], signers, needed, |sigs|) <==> BringsNew(v, sigs, signers, needed, extra)
  {
    StillDone(v, sigs, signers, needed, extra);
    AppendedCountedIff(v, sigs, signers, needed, extra);
  }

  lemma ExtrasStillDone(o: Oracles, sub: Submission, padded: Submission, extra: DecoratedSignature)
    requires padded.tx == sub.tx && padded.signatures == sub.signatures + [extra] && ExtraCheck(o, sub).done
    requires AtMostOneSigner(VerifierFor(o, padded), padded.signatures, Extras(padded.tx))
    ensures var v, signers, n := VerifierFor(o, sub), Extras(sub.tx), |Extras(sub.tx)|;
            && ExtraCheck(o, padded).done
            && (CountedBy(v, padded.signatures, signers, n, |sub.signatures|) <==>
                  n != 0 && BringsNew(v, sub.signatures, signers, n, extra))
  {
    assert ExtraAsSigners(sub.tx) == Extras(sub.tx);
    if ExtraSigners(sub.tx) != [] {
      ListStillDone(VerifierFor(o, sub), sub.signatures, Extras(sub.tx), |Extras(sub.tx)|, extra);
    }
  }

  /** The whole condition: it brings someone new, and leaves every earlier signature needed. */
  ghost predicate SurvivesPadding(o: Oracles, sub: Submission, padded: Submission, source: Account,
                                  opAccount: Option<Account>, extra: DecoratedSignature)
    requires sub.tx.operations != [] && padded.tx == sub.tx && padded.signatures == sub.signatures + [extra]
  {
    && BringsNewSomewhere(o, sub, source, opAccount, extra)
    && forall k :: 0 <= k < |sub.signatures| ==> CountedForSomeone(o, padded, source, opAccount, k)
  }

  lemma PaddedSubmissionAcceptedIff(o: Oracles, s: Settings, e: EnvState, sub: Submission, padded: Submission,
                                    extra: DecoratedSignature)
    requires sub.options.sigverify && PassesChecks(o, s, e, sub)
    requires padded == sub.(signatures := sub.signatures + [extra], txSize := padded.txSize)
    requires sub.tx.operations != [] && sub.tx.ext.Some? && LoadAccount(e.store, SourceId(sub)).Some?
    requires Unambiguous(o, padded, LoadAccount(e.store, SourceId(sub)).value, LoadAccount(e.store, OpSourceId(sub)))
    ensures var source, opAccount := LoadAccount(e.store, SourceId(sub)).value, LoadAccount(e.store, OpSourceId(sub));
            PassesChecks(o, s, e, padded) <==>
              EnvelopeProblem(o, s, e, padded).None? && SurvivesPadding(o, sub, padded, source, opAccount, extra)
  {
    var source, opAccount := LoadAccount(e.store, SourceId(sub)).value, LoadAccount(e.store, OpSourceId(sub));
    AcceptedChecks(o, s, e, sub);
    ChecksSurvive(o, sub, padded, source, opAccount, extra);
    RestIsTheSame(o, s, e, sub, padded);
  }

  lemma ChecksSurvive(o: Oracles, sub: Submission, padded: Submission, source: Account, opAccount: Option<Account>,
                      extra: DecoratedSignature)
    requires sub.tx.operations != [] && padded.tx == sub.tx && padded.signatures == sub.signatures + [extra]
    requires SourceCheck(o, sub, source).done && ExtraCheck(o, sub).done && OpCheck(o, sub, opAccount).done
    requires Unambiguous(o, padded, source, opAccount)
    ensures SurvivesPadding(o, sub, padded, source, opAccount, extra) <==>
              && SourceCheck(o, padded, source).done && ExtraCheck(o, padded).done && OpCheck(o, padded, opAccount).done
              && AllUsed(padded.signatures,
                         SourceCheck(o, padded, source).log + ExtraCheck(o, padded).log
                         + OpCheck(o, padded, opAccount).log)
  {
    PaddedStillDone(o, sub, padded, source, opAccount, extra);
    PaddedCounted(o, sub, padded, source, opAccount, extra);
    var log := SourceCheck(o, padded, source).log + ExtraCheck(o, padded).log + OpCheck(o, padded, opAccount).log;
    UsedWithExtra(sub.signatures, extra, log);
    forall k | 0 <= k <= |sub.signatures|
      ensures Consumed(log, k) <==> CountedForSomeone(o, padded, source, opAccount, k)
    {
      UsedMeaning(o, padded, source, opAccount, k);
    }
  }

  /** Everything but the signatures and the size is judged as before. */
  lemma RestIsTheSame(o: Oracles, s: Settings, e: EnvState, sub: Submission, padded: Submission)
    requires sub.options.sigverify && PassesChecks(o, s, e, sub)
    requires padded == sub.(signatures := padded.signatures, txSize := padded.txSize)
    requires sub.tx.operations != [] && sub.tx.ext.Some? && LoadAccount(e.store, SourceId(sub)).Some?
    ensures var source, opAccount := LoadAccount(e.store, SourceId(sub)).value, LoadAccount(e.store, OpSourceId(sub));
            PassesChecks(o, s, e, padded) <==>
              && EnvelopeProblem(o, s, e, padded).None?
              && SourceCheck(o, padded, source).done && ExtraCheck(o, padded).done && OpCheck(o, padded, opAccount).done
              && AllUsed(padded.signatures,
                         SourceCheck(o, padded, source).log + ExtraCheck(o, padded).log
                         + OpCheck(o, padded, opAccount).log)
  {
    AccountTests(o, s, e, sub);
    AccountTests(o, s, e, padded);
  }

  /** The signature changes what is submitted in its signatures and size alone. */
  lemma PaddedSubmission(env: Envelope, extra: DecoratedSignature, options: ValidationOptions)
    requires !env.EnvelopeV0?
    ensures var sub, padded := SubmissionOf(env, options), SubmissionOf(WithSignature(env, extra), options);
            padded == sub.(signatures := sub.signatures + [extra], txSize := padded.txSize)
  {}

  /**
   * An accepted envelope, plain or fee bump, with one more signature is accepted
   * iff its size and fee still pass, the signature brings a signer of a type
   * tried before the one that satisfied some check, and every signature before
   * it is still needed. (A fee bump's own check is over another hash then.)
   */
  lemma PaddedEnvelopeAcceptedIff(o: Oracles, s: Settings, e: EnvState, env: Envelope, extra: DecoratedSignature,
                                  options: ValidationOptions)
    requires options.sigverify && Applies(o, s, e, env, options)
    requires var sub := SubmissionOf(env, options);
             && sub.tx.operations != [] && sub.tx.ext.Some? && LoadAccount(e.store, SourceId(sub)).Some?
             && Unambiguous(o, SubmissionOf(WithSignature(env, extra), options),
                            LoadAccount(e.store, SourceId(sub)).value,
                            LoadAccount(e.store, OpSourceId(sub)))
    ensures var sub, padded := SubmissionOf(env, options), SubmissionOf(WithSignature(env, extra), options);
            var source, opAccount := LoadAccount(e.store, SourceId(sub)).value, LoadAccount(e.store, OpSourceId(sub));
            Applies(o, s, e, WithSignature(env, extra), options) <==>
              && OuterAccepted(o, e, WithSignature(env, extra), options)
              && EnvelopeProblem(o, s, e, padded).None?
              && SurvivesPadding(o, sub, padded, source, opAccount, extra)
  {
    PaddedSubmission(env, extra, options);
    PaddedSubmissionAcceptedIff(o, s, e, SubmissionOf(env, options), SubmissionOf(WithSignature(env, extra), options),
                                extra);
  }

  // ---- an envelope that does -----------------------------------------------------------

  /** A check satisfied by signature `i` alone. */
  function CountedOne(i: nat, signer: Signer): Check { Check(true, Cap(signer), [Counted(Some(i), signer)]) }

  lemma {:induction false} OnePass(v: Verifier, sigs: seq<DecoratedSignature>, i: nat, signer: Signer, needed: nat)
    requires i < |sigs| && v.verifies(signer.key, sigs[i]) && Cap(signer) >= needed
    requires forall k :: 0 <= k < i ==> !v.verifies(signer.key, sigs[k])
    ensures forall k :: 0 <= k <= i ==> VerifyPass(v, sigs, k, [signer], 0, needed) == CountedOne(i, signer)
  {
    assert FindIndex(v, [signer], sigs[i]) == Some(0);
    var k := i;
    while k > 0
      invariant k <= i
      invariant forall j :: k <= j <= i ==> VerifyPass(v, sigs, j, [signer], 0, needed) == CountedOne(i, signer)
    {
      k := k - 1;
      assert FindIndex(v, [signer], sigs[k]) == None;
    }
  }

  lemma {:induction false} NoPass(v: Verifier, sigs: seq<DecoratedSignature>, i: nat, signer: Signer, needed: nat)
    requires i <= |sigs| && forall k :: i <= k < |sigs| ==> !v.verifies(signer.key, sigs[k])
    ensures VerifyPass(v, sigs, i, [signer], 0, needed) == Check(false, 0, [])
    decreases |sigs| - i
  {
    if i == |sigs| {
    } else {
      assert FindIndex(v, [signer], sigs[i]) == None;
      NoPass(v, sigs, i + 1, signer, needed);
    }
  }

  lemma FilterTwo(kind: Kind, a: Signer, b: Signer)
    ensures KindOf(a.key) != kind && KindOf(b.key) != kind ==> Filter(OfKind(kind), [a, b]) == []
    ensures KindOf(a.key) == kind && KindOf(b.key) != kind ==> Filter(OfKind(kind), [a, b]) == [a]
    ensures KindOf(a.key) != kind && KindOf(b.key) == kind ==> Filter(OfKind(kind), [a, b]) == [b]
  {
    assert [a, b][1..] == [b] && [b][1..] == [];
    assert Filter(OfKind(kind), [b]) == (if KindOf(b.key) == kind then [b] else []) + Filter(OfKind(kind), []);
  }

  /** Without PRE_AUTH_TX signers, a check may end with its HASH_X pass or, if that counts nothing, its ed25519 one. */
  lemma TwoPasses(v: Verifier, sigs: seq<DecoratedSignature>, signers: seq<Signer>, needed: nat)
    requires Filter(OfKind(KindPreAuthTx), signers) == []
    ensures var first := VerifyPass(v, sigs, 0, Filter(OfKind(KindHashX), signers), 0, needed);
            var second := VerifyPass(v, sigs, 0, Filter(OfKind(KindEd25519), signers), 0, needed);
            && (first.done ==> Decide(v, sigs, signers, needed) == first)
            && (first == Check(false, 0, []) && second.done ==> Decide(v, sigs, signers, needed) == second)
  {
    PassesStart(v, sigs, signers, KindHashX, needed);
    PassesStart(v, sigs, signers, KindEd25519, needed);
  }

  lemma PassesStart(v: Verifier, sigs: seq<DecoratedSignature>, signers: seq<Signer>, kind: Kind, needed: nat)
    requires Filter(OfKind(KindPreAuthTx), signers) == []
    ensures PreAuthPass(v.hash, Filter(OfKind(KindPreAuthTx), signers), 0, needed) == Check(false, 0, [])
    ensures AndThen(Check(false, 0, []), v, sigs, signers, kind, needed)
        == VerifyPass(v, sigs, 0, Filter(OfKind(kind), signers), 0, needed)
  {
    var r := VerifyPass(v, sigs, 0, Filter(OfKind(kind), signers), 0, needed);
    assert [] + r.log == r.log;
  }

  /**
   * With an earlier signer type beside it the padding can pass: the source's HASH_X
   * signer satisfies the source's check in an earlier pass, and the ed25519 signature
   * it displaces is still counted by the operation's check.
   */
  lemma MixedSignersAcceptPadding(v: Verifier, a: PublicKey, h: Bytes32, sig: DecoratedSignature,
                                  extra: DecoratedSignature)
    requires v.verifies(Ed25519(a), sig) && !v.verifies(HashX(h), sig)
    requires v.verifies(HashX(h), extra) && !v.verifies(Ed25519(a), extra)
    ensures var source, op := [Signer(Ed25519(a), 1), Signer(HashX(h), 1)], [Signer(Ed25519(a), 1)];
            && Decide(v, [sig], source, 1).done && Decide(v, [sig], op, 1).done
            && AllUsed([sig], Decide(v, [sig], source, 1).log + Decide(v, [sig], op, 1).log)
            && Decide(v, [sig, extra], source, 1).done && Decide(v, [sig, extra], op, 1).done
            && AllUsed([sig, extra], Decide(v, [sig, extra], source, 1).log + Decide(v, [sig, extra], op, 1).log)
  {
    var ed, hx := Signer(Ed25519(a), 1), Signer(HashX(h), 1);
    EdAlone(v, [sig], ed);
    EdAlone(v, [sig, extra], ed);
    EdAfterHashX(v, sig, ed, hx);
    HashXFirst(v, sig, extra, ed, hx);
    BothUsed(sig, extra, ed, hx);
  }

  lemma BothUsed(sig: DecoratedSignature, extra: DecoratedSignature, ed: Signer, hx: Signer)
    ensures AllUsed([sig], [Counted(Some(0), ed)] + [Counted(Some(0), ed)])
    ensures AllUsed([sig, extra], [Counted(Some(1), hx)] + [Counted(Some(0), ed)])
  {
    var one, two := [Counted(Some(0), ed)] + [Counted(Some(0), ed)], [Counted(Some(1), hx)] + [Counted(Some(0), ed)];
    assert Counted(Some(0), ed) in one && Counted(Some(1), hx) in two && Counted(Some(0), ed) in two;
  }

  lemma EdAfterHashX(v: Verifier, sig: DecoratedSignature, ed: Signer, hx: Signer)
    requires ed.key.Ed25519? && ed.weight == 1 && hx.key.HashX?
    requires v.verifies(ed.key, sig) && !v.verifies(hx.key, sig)
    ensures Decide(v, [sig], [ed, hx], 1) == Check(true, 1, [Counted(Some(0), ed)])
  {
    FilterTwo(KindPreAuthTx, ed, hx);
    FilterTwo(KindHashX, ed, hx);
    FilterTwo(KindEd25519, ed, hx);
    TwoPasses(v, [sig], [ed, hx], 1);
    NoPass(v, [sig], 0, hx, 1);
    OnePass(v, [sig], 0, ed, 1);
  }

  lemma HashXFirst(v: Verifier, sig: DecoratedSignature, extra: DecoratedSignature, ed: Signer, hx: Signer)
    requires ed.key.Ed25519? && hx.key.HashX? && hx.weight == 1
    requires v.verifies(hx.key, extra) && !v.verifies(hx.key, sig)
    ensures Decide(v, [sig, extra], [ed, hx], 1) == Check(true, 1, [Counted(Some(1), hx)])
  {
    FilterTwo(KindPreAuthTx, ed, hx);
    FilterTwo(KindHashX, ed, hx);
    TwoPasses(v, [sig, extra], [ed, hx], 1);
    OnePass(v, [sig, extra], 1, hx, 1);
  }

  lemma EdAlone(v: Verifier, sigs: seq<DecoratedSignature>, ed: Signer)
    requires sigs != [] && ed.key.Ed25519? && ed.weight == 1 && v.verifies(ed.key, sigs[0])
    ensures Decide(v, sigs, [ed], 1) == Check(true, 1, [Counted(Some(0), ed)])
  {
    FilterAll([ed]);
    FilterNone(OfKind(KindPreAuthTx), [ed]);
    FilterNone(OfKind(KindHashX), [ed]);
    TwoPasses(v, sigs, [ed], 1);
    NoCandidates(v, sigs, 0, 0, 1);
    OnePass(v, sigs, 0, ed, 1);
  }

  /**
   * Which signature is idle depends on their order: with signers of weights 1 and
   * 2 and a needed weight of 2, the lighter one's signature counts only in front.
   */
  lemma IdleDependsOnOrder(v: Verifier, light: Signer, heavy: Signer, x: DecoratedSignature, y: DecoratedSignature)
    requires light.key.Ed25519? && light.weight == 1 && heavy.key.Ed25519? && heavy.weight == 2
    requires v.verifies(light.key, x) && !v.verifies(light.key, y) && v.verifies(heavy.key, y)
    ensures Decide(v, [x, y], [light, heavy], 2).done && Decide(v, [y, x], [light, heavy], 2).done
    ensures AllUsed([x, y], Decide(v, [x, y], [light, heavy], 2).log)
    ensures !AllUsed([y, x], Decide(v, [y, x], [light, heavy], 2).log)
  {
    LightFirst(v, light, heavy, x, y);
    HeavyFirst(v, light, heavy, x, y);
    EdPass(v, [x, y], light, heavy, 2);
    EdPass(v, [y, x], light, heavy, 2);
    BothOrOne(x, y, light, heavy);
  }

  lemma BothOrOne(x: DecoratedSignature, y: DecoratedSignature, light: Signer, heavy: Signer)
    ensures AllUsed([x, y], [Counted(Some(0), light), Counted(Some(1), heavy)])
    ensures !AllUsed([y, x], [Counted(Some(0), heavy)])
  {
    var both, one := [Counted(Some(0), light), Counted(Some(1), heavy)], [Counted(Some(0), heavy)];
    assert both[0] in both && both[1] in both;
    assert !Consumed(one, 1);
  }

  lemma LightFirst(v: Verifier, light: Signer, heavy: Signer, x: DecoratedSignature, y: DecoratedSignature)
    requires light.weight == 1 && heavy.weight == 2
    requires v.verifies(light.key, x) && v.verifies(heavy.key, y)
    ensures VerifyPass(v, [x, y], 0, [light, heavy], 0, 2)
         == Check(true, 3, [Counted(Some(0), light), Counted(Some(1), heavy)])
  {
    assert RemoveAt([light, heavy], 0) == [heavy];
    assert VerifyPass(v, [x, y], 1, [heavy], 1, 2) == Check(true, 3, [Counted(Some(1), heavy)]);
  }

  lemma HeavyFirst(v: Verifier, light: Signer, heavy: Signer, x: DecoratedSignature, y: DecoratedSignature)
    requires heavy.weight == 2 && !v.verifies(light.key, y) && v.verifies(heavy.key, y)
    ensures VerifyPass(v, [y, x], 0, [light, heavy], 0, 2) == Check(true, 2, [Counted(Some(0), heavy)])
  {
    assert [light, heavy][1..] == [heavy];
    assert FindIndex(v, [heavy], y) == Some(0);
  }

  /** With two ed25519 signers a satisfied check is its ed25519 pass. */
  lemma EdPass(v: Verifier, sigs: seq<DecoratedSignature>, a: Signer, b: Signer, needed: nat)
    requires a.key.Ed25519? && b.key.Ed25519? && VerifyPass(v, sigs, 0, [a, b], 0, needed).done
    ensures Decide(v, sigs, [a, b], needed) == VerifyPass(v, sigs, 0, [a, b], 0, needed)
  {
    FilterAll([a, b]);
    FilterNone(OfKind(KindPreAuthTx), [a, b]);
    FilterNone(OfKind(KindHashX), [a, b]);
    TwoPasses(v, sigs, [a, b], needed);
    NoCandidates(v, sigs, 0, 0, needed);
  }
}
