/** Who must have signed an envelope that is not rejected, and that nobody else may have. */
module Authorization {
  import opened Sequences
  import opened Xdr
  import opened Signatures
  import opened Accounts
  import opened Host
  import opened Fees
  import opened Environment
  import opened Validation
  import opened Transactions
  import opened TransactionLaws
  import opened Acceptance

  /** A full house: as many counted as listed, so every listed signer is counted. */
  lemma {:induction false} EveryoneCounted(log: seq<Counted>, signers: seq<Signer>, s: Signer)
    requires DistinctSigners(log, signers)
    ensures |log| <= |signers|
    ensures |log| == |signers| && s in signers ==> exists m :: m in log && m.signer == s
  {
    if log == [] {
    } else {
      var first := log[0].signer;
      assert Sum(Times(first), log) >= 1;
      assert first in multiset(signers);
      var k :| 0 <= k < |signers| && signers[k] == first;
      forall x ensures Sum(Times(x), log[1..]) <= multiset(RemoveAt(signers, k))[x] {
        RemoveAtCount(signers, k, x);
        assert Sum(Times(x), log) <= multiset(signers)[x];
      }
      EveryoneCounted(log[1..], RemoveAt(signers, k), s);
      if |log| == |signers| && s in signers && s != first {
        var j :| 0 <= j < |signers| && signers[j] == s;
        assert RemoveAt(signers, k)[if j < k then j else j - 1] == s;
      }
      assert log[0] in log;
    }
  }

  lemma {:induction false} CountedAtMostOneEach(log: seq<Counted>)
    requires forall m :: m in log ==> Cap(m.signer) <= 1
    ensures Sum(CountedCap(), log) <= |log|
  {
    if log == [] {
    } else {
      CountedAtMostOneEach(log[1..]);
    }
  }

  lemma {:induction false} CountedIsListed(log: seq<Counted>, signers: seq<Signer>, m: Counted)
    requires DistinctSigners(log, signers) && m in log
    ensures m.signer in signers
  {
    TimesOfMember(log, m);
    assert multiset(signers)[m.signer] >= 1;
  }

  lemma {:induction false} TimesOfMember(log: seq<Counted>, m: Counted)
    requires m in log
    ensures Sum(Times(m.signer), log) >= 1
  {
    if log[0] != m { TimesOfMember(log[1..], m); }
  }

  /** A satisfied extraSigners check counted every one of them. */
  lemma EveryExtraSignerCounted(o: Oracles, sub: Submission, key: SignerKey)
    requires ExtraCheck(o, sub).done && key in ExtraSigners(sub.tx)
    ensures exists m :: m in ExtraCheck(o, sub).log && m.signer.key == key
  {
    var v, signers, n := VerifierFor(o, sub), ExtraAsSigners(sub.tx), |ExtraSigners(sub.tx)|;
    CheckSound(v, sub.signatures, signers, n);
    var log := ExtraCheck(o, sub).log;
    forall m | m in log ensures Cap(m.signer) <= 1 { CountedIsListed(log, signers, m); }
    CountedAtMostOneEach(log);
    var k :| 0 <= k < n && ExtraSigners(sub.tx)[k] == key;
    assert signers[k] == Signer(key, 1);
    EveryoneCounted(log, signers, Signer(key, 1));
  }

  /** What acceptance says of the three checks. */
  lemma AcceptedChecks(o: Oracles, s: Settings, e: EnvState, sub: Submission)
    requires PassesChecks(o, s, e, sub) && sub.options.sigverify
    ensures sub.tx.operations != [] && LoadAccount(e.store, SourceId(sub)).Some?
    ensures var source, opAccount := LoadAccount(e.store, SourceId(sub)).value, LoadAccount(e.store, OpSourceId(sub));
            && SourceCheck(o, sub, source).done && ExtraCheck(o, sub).done && OpCheck(o, sub, opAccount).done
            && AllUsed(sub.signatures,
                       SourceCheck(o, sub, source).log + ExtraCheck(o, sub).log + OpCheck(o, sub, opAccount).log)
  {}

  lemma ConsumedSomewhere(a: seq<Counted>, b: seq<Counted>, c: seq<Counted>, i: nat)
    requires Consumed(a + b + c, i)
    ensures Consumed(a, i) || Consumed(b, i) || Consumed(c, i)
  {
    var m: Counted :| m in a + b + c && m.sig == Some(i);
  }

  ghost predicate EachCounted(v: Verifier, sigs: seq<DecoratedSignature>, keys: seq<SignerKey>, log: seq<Counted>) {
    && (forall key :: key in keys ==> exists m :: m in log && m.signer.key == key)
    && (forall m :: m in log ==> Genuine(v, sigs, m))
  }

  /** The three logs, against the three lists of signers and their weights. */
  ghost predicate AuthorizedBy(o: Oracles, sub: Submission, source: Account, opAccount: Option<Account>,
                               a: seq<Counted>, b: seq<Counted>, c: seq<Counted>)
    requires sub.tx.operations != []
  {
    var v, sigs := VerifierOf(o.crypto, o.txHash(sub.tx)), sub.signatures;
    && Authorizes(v, sigs, Signatories(source), source.thresholds.low, a)
    && EachCounted(v, sigs, if sub.tx.cond.PrecondV2? then sub.tx.cond.v2.extraSigners else [], b)
    && (match opAccount
        case Some(account) =>
          if sub.tx.operations[0].body.InvokeHostFunction?
          then Authorizes(v, sigs, Signatories(account), account.thresholds.medium, c)
          else Authorizes(v, sigs, Signatories(account), account.thresholds.low, c)
        case None => Authorizes(v, sigs, [Signer(Ed25519(OperationSource(sub.tx)), 1)], 0, c))
    && (forall i :: 0 <= i < |sigs| ==> Consumed(a, i) || Consumed(b, i) || Consumed(c, i))
  }

  lemma ExtrasCounted(o: Oracles, sub: Submission)
    requires ExtraCheck(o, sub).done
    ensures EachCounted(VerifierOf(o.crypto, o.txHash(sub.tx)), sub.signatures,
                        if sub.tx.cond.PrecondV2? then sub.tx.cond.v2.extraSigners else [], ExtraCheck(o, sub).log)
  {
    CheckSound(VerifierFor(o, sub), sub.signatures, ExtraAsSigners(sub.tx), |ExtraSigners(sub.tx)|);
    forall key | key in ExtraSigners(sub.tx) ensures exists m :: m in ExtraCheck(o, sub).log && m.signer.key == key {
      EveryExtraSignerCounted(o, sub, key);
    }
  }

  lemma OperationAuthorized(o: Oracles, sub: Submission, opAccount: Option<Account>)
    requires sub.tx.operations != [] && OpCheck(o, sub, opAccount).done
    ensures Authorizes(VerifierOf(o.crypto, o.txHash(sub.tx)), sub.signatures,
                       OperationSignatories(sub.tx, opAccount), OperationWeight(sub.tx, opAccount),
                       OpCheck(o, sub, opAccount).log)
  {
    OperationSignersMeaning(sub, opAccount);
    CheckSound(VerifierFor(o, sub), sub.signatures, OpSigners(sub, opAccount), OpNeeded(sub, opAccount));
  }

  lemma ChecksAuthorize(o: Oracles, sub: Submission, source: Account, opAccount: Option<Account>)
    requires sub.tx.operations != []
    requires SourceCheck(o, sub, source).done && ExtraCheck(o, sub).done && OpCheck(o, sub, opAccount).done
    requires AllUsed(sub.signatures,
                     SourceCheck(o, sub, source).log + ExtraCheck(o, sub).log + OpCheck(o, sub, opAccount).log)
    ensures AuthorizedBy(o, sub, source, opAccount, SourceCheck(o, sub, source).log, ExtraCheck(o, sub).log,
                         OpCheck(o, sub, opAccount).log)
  {
    var a, b, c := SourceCheck(o, sub, source).log, ExtraCheck(o, sub).log, OpCheck(o, sub, opAccount).log;
    SignatoriesAre(source);
    CheckSound(VerifierFor(o, sub), sub.signatures, Signatories(source), source.thresholds.low);
    ExtrasCounted(o, sub);
    OperationAuthorized(o, sub, opAccount);
    forall i | 0 <= i < |sub.signatures| ensures Consumed(a, i) || Consumed(b, i) || Consumed(c, i) {
      ConsumedSomewhere(a, b, c, i);
    }
  }

  /**
   * An envelope that is not rejected carries genuine signatures, over its
   * transaction's hash and of distinct signers, giving its source the LOW
   * weight; one of every extraSigner; and the MEDIUM weight of an invocation's
   * source or the LOW one of a footprint operation's, or, if that account is
   * missing, a signature by its own key. And no signature is left that none of
   * these checks counted.
   */
  lemma AcceptedIsAuthorized(o: Oracles, s: Settings, e: EnvState, sub: Submission)
    requires PassesChecks(o, s, e, sub) && sub.options.sigverify
    ensures sub.tx.operations != [] && LoadAccount(e.store, sub.tx.source.id).Some?
    ensures var source, opAccount :=
                LoadAccount(e.store, sub.tx.source.id).value, LoadAccount(e.store, OperationSource(sub.tx));
            AuthorizedBy(o, sub, source, opAccount, SourceCheck(o, sub, source).log, ExtraCheck(o, sub).log,
                         OpCheck(o, sub, opAccount).log)
  {
    AcceptedChecks(o, s, e, sub);
    ChecksAuthorize(o, sub, LoadAccount(e.store, sub.tx.source.id).value,
                    LoadAccount(e.store, OperationSource(sub.tx)));
  }

  // ---- exactly who is accepted --------------------------------------------------------

  lemma {:induction false} FullSum<T>(f: T -> nat, s: seq<T>)
    requires forall x :: x in s ==> f(x) <= 1
    ensures Sum(f, s) <= |s|
    ensures Sum(f, s) >= |s| <==> forall x :: x in s ==> f(x) == 1
  {
    if s == [] {
    } else {
      FullSum(f, s[1..]);
      assert forall x :: x in s <==> x == s[0] || x in s[1..];
    }
  }

  ghost predicate SignedAt(o: Oracles, sub: Submission, signers: seq<Signer>, needed: nat) {
    && AnyMatched(VerifierFor(o, sub), sub.signatures, signers)
    && Sum(MatchedCap(VerifierFor(o, sub), sub.signatures), signers) >= needed
  }

  ghost predicate EveryExtraSigned(o: Oracles, sub: Submission) {
    forall key :: key in ExtraSigners(sub.tx) ==> Matched(VerifierFor(o, sub), sub.signatures, Signer(key, 1))
  }

  /** The extraSigners check is satisfied iff every one of them signed. */
  lemma ExtraCheckMeaning(o: Oracles, sub: Submission)
    requires AtMostOneSigner(VerifierFor(o, sub), sub.signatures, ExtraAsSigners(sub.tx))
    ensures ExtraCheck(o, sub).done <==> EveryExtraSigned(o, sub)
  {
    var v, sigs, signers := VerifierFor(o, sub), sub.signatures, ExtraAsSigners(sub.tx);
    if signers != [] {
      CheckMeaning(v, sigs, signers, |signers|);
      FullSum(MatchedCap(v, sigs), signers);
      forall key | key in ExtraSigners(sub.tx) ensures Signer(key, 1) in signers {
        var k :| 0 <= k < |signers| && ExtraSigners(sub.tx)[k] == key;
        assert signers[k] == Signer(key, 1);
      }
      assert signers[0] in signers;
    }
  }

  /** The sequence number is one the account may use now. */
  predicate Timely(e: EnvState, sub: Submission, source: Account) {
    && sub.tx.seqNum != e.ledgerSeq * 0x1_0000_0000
    && (sub.options.sequenceCheck ==> SequenceFits(sub.tx, source.seqNum))
    && (sub.options.timebounds ==> OldEnough(e.ledgerSeq, e.timestamp, sub.tx, LastStamp(source)))
  }

  /** A plain transaction bids the base fee, and its payer has it above the reserve. */
  predicate Affordable(e: EnvState, sub: Submission, source: Account) {
    !sub.feeBumped ==>
      && sub.tx.fee >= ResourceFeeIn(sub.tx) + 100
      && (sub.charge.Some? ==> Spendable(LoadAccount(e.store, sub.charge.value.payer).GetOr(source)) >= sub.tx.fee)
  }

  /** No two signers of one type answer to one signature, in any of the three lists. */
  ghost predicate Unambiguous(o: Oracles, sub: Submission, source: Account, opAccount: Option<Account>)
    requires sub.tx.operations != []
  {
    && AtMostOneSigner(VerifierFor(o, sub), sub.signatures, Signatories(source))
    && AtMostOneSigner(VerifierFor(o, sub), sub.signatures, Extras(sub.tx))
    && AtMostOneSigner(VerifierFor(o, sub), sub.signatures, OperationSignatories(sub.tx, opAccount))
  }

  /** One of the three checks counts the signature. */
  ghost predicate CountedForSomeone(o: Oracles, sub: Submission, source: Account, opAccount: Option<Account>, k: nat)
    requires sub.tx.operations != [] && k < |sub.signatures|
  {
    var v, sigs := VerifierFor(o, sub), sub.signatures;
    || CountedBy(v, sigs, Signatories(source), source.thresholds.low, k)
    || CountedBy(v, sigs, Extras(sub.tx), |Extras(sub.tx)|, k)
    || CountedBy(v, sigs, OperationSignatories(sub.tx, opAccount), OperationWeight(sub.tx, opAccount), k)
  }

  lemma ExtraCounts(o: Oracles, sub: Submission, k: nat)
    requires AtMostOneSigner(VerifierFor(o, sub), sub.signatures, ExtraAsSigners(sub.tx)) && k < |sub.signatures|
    ensures Consumed(ExtraCheck(o, sub).log, k)
       <==> CountedBy(VerifierFor(o, sub), sub.signatures, ExtraAsSigners(sub.tx), |ExtraSigners(sub.tx)|, k)
  {
    if ExtraSigners(sub.tx) != [] {
      CheckCounts(VerifierFor(o, sub), sub.signatures, ExtraAsSigners(sub.tx), |ExtraSigners(sub.tx)|, k);
    }
  }

  /** What the marks left by the three checks mean. */
  lemma UsedMeaning(o: Oracles, sub: Submission, source: Account, opAccount: Option<Account>, k: nat)
    requires sub.tx.operations != [] && k < |sub.signatures| && Unambiguous(o, sub, source, opAccount)
    ensures Consumed(SourceCheck(o, sub, source).log + ExtraCheck(o, sub).log + OpCheck(o, sub, opAccount).log, k)
       <==> CountedForSomeone(o, sub, source, opAccount, k)
  {
    var v, sigs := VerifierFor(o, sub), sub.signatures;
    var a, b, c := SourceCheck(o, sub, source).log, ExtraCheck(o, sub).log, OpCheck(o, sub, opAccount).log;
    ChecksMeaning(o, sub, source, opAccount);
    CheckCounts(v, sigs, Signatories(source), source.thresholds.low, k);
    ExtraCounts(o, sub, k);
    CheckCounts(v, sigs, OperationSignatories(sub.tx, opAccount), OperationWeight(sub.tx, opAccount), k);
    ConsumedAppend(a, b, k);
    ConsumedAppend(a + b, c, k);
  }

  /** Who signed, with no mention of how the checks go about it. */
  ghost predicate Authorized(o: Oracles, sub: Submission, source: Account, opAccount: Option<Account>)
    requires sub.tx.operations != []
  {
    && SignedAt(o, sub, Signatories(source), source.thresholds.low)
    && EveryExtraSigned(o, sub)
    && SignedAt(o, sub, OperationSignatories(sub.tx, opAccount), OperationWeight(sub.tx, opAccount))
    && forall k :: 0 <= k < |sub.signatures| ==> CountedForSomeone(o, sub, source, opAccount, k)
  }

  /** The three checks are satisfied iff the three parties signed. */
  lemma SignedMeaning(o: Oracles, sub: Submission, source: Account, opAccount: Option<Account>)
    requires sub.tx.operations != [] && Unambiguous(o, sub, source, opAccount)
    ensures SourceCheck(o, sub, source).done <==> SignedAt(o, sub, Signatories(source), source.thresholds.low)
    ensures ExtraCheck(o, sub).done <==> EveryExtraSigned(o, sub)
    ensures OpCheck(o, sub, opAccount).done
       <==> SignedAt(o, sub, OperationSignatories(sub.tx, opAccount), OperationWeight(sub.tx, opAccount))
  {
    var v, sigs := VerifierFor(o, sub), sub.signatures;
    SignersMeaning(sub, source, opAccount);
    CheckMeaning(v, sigs, Signatories(source), source.thresholds.low);
    ExtraCheckMeaning(o, sub);
    CheckMeaning(v, sigs, OperationSignatories(sub.tx, opAccount), OperationWeight(sub.tx, opAccount));
  }

  /** And nothing is left over iff one of them counts each signature. */
  lemma NoneIdleMeaning(o: Oracles, sub: Submission, source: Account, opAccount: Option<Account>)
    requires sub.tx.operations != [] && Unambiguous(o, sub, source, opAccount)
    ensures AllUsed(sub.signatures,
                    SourceCheck(o, sub, source).log + ExtraCheck(o, sub).log + OpCheck(o, sub, opAccount).log)
       <==> forall k :: 0 <= k < |sub.signatures| ==> CountedForSomeone(o, sub, source, opAccount, k)
  {
    var log := SourceCheck(o, sub, source).log + ExtraCheck(o, sub).log + OpCheck(o, sub, opAccount).log;
    forall k | 0 <= k < |sub.signatures| ensures Consumed(log, k) <==> CountedForSomeone(o, sub, source, opAccount, k) {
      UsedMeaning(o, sub, source, opAccount, k);
    }
  }

  lemma AuthorizedMeaning(o: Oracles, sub: Submission, source: Account, opAccount: Option<Account>)
    requires sub.tx.operations != [] && Unambiguous(o, sub, source, opAccount)
    ensures Authorized(o, sub, source, opAccount) <==>
              && SourceCheck(o, sub, source).done && ExtraCheck(o, sub).done && OpCheck(o, sub, opAccount).done
              && AllUsed(sub.signatures,
                         SourceCheck(o, sub, source).log + ExtraCheck(o, sub).log + OpCheck(o, sub, opAccount).log)
  {
    SignedMeaning(o, sub, source, opAccount);
    NoneIdleMeaning(o, sub, source, opAccount);
  }

  /** The tests from the source account on, as one conjunction. */
  lemma AccountTests(o: Oracles, s: Settings, e: EnvState, sub: Submission)
    requires sub.options.sigverify && sub.tx.operations != [] && sub.tx.ext.Some?
        && LoadAccount(e.store, SourceId(sub)).Some?
    ensures var source, opAccount := LoadAccount(e.store, SourceId(sub)).value, LoadAccount(e.store, OpSourceId(sub));
            AccountProblem(o, s, e, sub).None? <==>
              && Timely(e, sub, source) && Affordable(e, sub, source)
              && !Misshapen(s, sub.tx.operations[0], sub.tx.ext.value.resources)
              && SourceCheck(o, sub, source).done && ExtraCheck(o, sub).done && OpCheck(o, sub, opAccount).done
              && AllUsed(sub.signatures,
                         SourceCheck(o, sub, source).log + ExtraCheck(o, sub).log + OpCheck(o, sub, opAccount).log)
  {
    var source, opAccount := LoadAccount(e.store, SourceId(sub)).value, LoadAccount(e.store, OpSourceId(sub));
    SequenceMeaning(e.ledgerSeq, e.timestamp, sub.tx, source);
    ShapeOfOperation(s, sub.tx.operations[0], sub.tx.ext.value.resources);
  }

  /**
   * A well-formed envelope is accepted iff its number and its bid are good, its
   * source, every extraSigner and its operation's source signed with enough
   * weight in all, and each signature was needed by one of these when its turn
   * came. That last clause is about the order of the signatures: one that only
   * repeats what earlier ones gave makes the envelope invalid.
   */
  lemma AcceptanceMeaning(o: Oracles, s: Settings, e: EnvState, sub: Submission)
    requires EnvelopeAnswer(o, s, e, sub).None? && sub.options.sigverify && LoadAccount(e.store, SourceId(sub)).Some?
    requires sub.tx.operations != [] && sub.tx.ext.Some?
    requires Unambiguous(o, sub, LoadAccount(e.store, SourceId(sub)).value, LoadAccount(e.store, OpSourceId(sub)))
    ensures var source, opAccount := LoadAccount(e.store, SourceId(sub)).value, LoadAccount(e.store, OpSourceId(sub));
            PassesChecks(o, s, e, sub) <==>
              && Timely(e, sub, source) && Affordable(e, sub, source)
              && !Misshapen(s, sub.tx.operations[0], sub.tx.ext.value.resources)
              && Authorized(o, sub, source, opAccount)
  {
    EnvelopeAnswered(o, s, e, sub);
    AccountTests(o, s, e, sub);
    AuthorizedMeaning(o, sub, LoadAccount(e.store, SourceId(sub)).value, LoadAccount(e.store, OpSourceId(sub)));
  }

  /** A fee bump's own envelope: its fee source signed at LOW, and nothing is left over. */
  lemma BumpIsAuthorized(o: Oracles, e: EnvState, env: Envelope, options: ValidationOptions)
    requires env.EnvelopeFeeBump? && options.sigverify && OuterProblem(o, e, env, options).None?
    ensures LoadAccount(e.store, env.feeSource.id).Some?
    ensures var account := LoadAccount(e.store, env.feeSource.id).value;
            var v := VerifierOf(o.crypto, o.bumpHash(env.feeSource, env.fee, env.inner, env.innerSignatures));
            var log := OuterCheck(o, env, account).log;
            && Authorizes(v, env.signatures, AccountSigners(account), account.thresholds.low, log)
            && forall i :: 0 <= i < |env.signatures| ==> Consumed(log, i)
  {
    var account := LoadAccount(e.store, env.feeSource.id).value;
    CheckSound(VerifierOf(o.crypto, o.bumpHash(env.feeSource, env.fee, env.inner, env.innerSignatures)), env.signatures,
               AccountSigners(account), account.thresholds.low);
  }
}
