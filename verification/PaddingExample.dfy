/** One ledger and one envelope that is accepted both as it is and with a signature appended. */
module PaddingExample {
  import opened Sequences
  import opened Xdr
  import opened Signatures
  import opened Accounts
  import opened Host
  import opened Fees
  import opened Environment
  import opened Validation
  import opened Transactions
  import opened TransactionLaws
  import opened Acceptance
  import opened Authorization
  import opened Padding
  import opened Rpc

  function Filled(b: bv8): Bytes32 { seq(32, i => b) }

  /** Alice's key, Bob's key, and the hash whose preimage is one byte. */
  function Alice(): PublicKey { Filled(1) }
  function Bob(): PublicKey { Filled(2) }
  function Hash(): Bytes32 { Filled(3) }

  function AliceSigns(): DecoratedSignature { DecoratedSignature([1, 1, 1, 1], [1]) }
  function Preimage(): DecoratedSignature { DecoratedSignature([3, 3, 3, 3], [3]) }

  function World(): Oracles {
    Oracles(
      Crypto((key, signature, message) => key == Alice() && signature == [1], bytes => Hash()),
      tx => [], (source, fee, inner, signatures) => [],
      (fees, resources) => ResourceFee(0, 0), (fees, changes, ledgerSeq) => 0, entry => 0, changes => [],
      code => None, (a, b) => true, input => HostError(0, 0))
  }

  function Limits(): Settings {
    Settings(FeeSettings(1000, 1000, 10, 1000, 10, 1000, 10, 1000, 1000, 1000, 1000, 1000, []), 100, 1000, true, true)
  }

  function AliceAccount(): Account {
    Account(Alice(), 1_000_000_000, 0, 1, None, 0, [], Thresholds(1, 1, 1, 1), [Signer(HashX(Hash()), 1)], ExtV0)
  }

  /** Bob's own key weighs nothing; Alice signs for him. */
  function BobAccount(): Account {
    Account(Bob(), 1_000_000_000, 0, 1, None, 0, [], Thresholds(0, 1, 1, 1), [Signer(Ed25519(Alice()), 1)], ExtV0)
  }

  function Ledger(): EnvState {
    EnvState(map[AccountKey(Alice()) := Stored(LedgerEntry(1, AccountData(AliceAccount())), None),
                 AccountKey(Bob()) := Stored(LedgerEntry(1, AccountData(BobAccount())), None)],
             2, 1000, 0, [], None)
  }

  /** Alice submits an extension of nothing in Bob's name. */
  function Tx(): Transaction {
    Transaction(Plain(Alice()), 100, 1, PrecondNone, MemoNone, [Operation(Some(Plain(Bob())), ExtendFootprintTtl(1))],
                Some(SorobanData(Resources([], [], 0, 0, 0), 0, None)))
  }

  lemma LedgerAccounts()
    ensures Alice() != Bob()
    ensures LoadAccount(Ledger().store, Alice()) == Some(AliceAccount())
        && LoadAccount(Ledger().store, Bob()) == Some(BobAccount())
    ensures AccountSigners(AliceAccount()) == [Signer(Ed25519(Alice()), 1), Signer(HashX(Hash()), 1)]
    ensures AccountSigners(BobAccount()) == [Signer(Ed25519(Alice()), 1)]
  {
    assert Alice()[0] != Bob()[0];
  }

  lemma WhoVerifies()
    ensures var v := VerifierOf(World().crypto, []);
            && v.verifies(Ed25519(Alice()), AliceSigns()) && !v.verifies(HashX(Hash()), AliceSigns())
            && v.verifies(HashX(Hash()), Preimage()) && !v.verifies(Ed25519(Alice()), Preimage())
  {
    assert Alice()[28..] == [1, 1, 1, 1] && Hash()[28..] == [3, 3, 3, 3];
    assert [1, 1, 1, 1][0] as bv8 != [3, 3, 3, 3][0] as bv8;
  }

  lemma EnvelopeFits(signatures: seq<DecoratedSignature>)
    requires |signatures| <= 2 && forall s :: s in signatures ==> |s.signature| == 1
    ensures EnvelopeV1Size(Tx(), signatures) <= 1000
  {
    SumBounded(SignatureSizes(), signatures, 12);
    OneOperation(Tx().operations[0]);
  }

  lemma ShapeSuffices(o: Oracles, s: Settings, e: EnvState, sub: Submission, op: Operation, data: SorobanData)
    requires sub.tx.operations == [op] && op.body.ExtendFootprintTtl? && sub.tx.ext == Some(data)
        && sub.tx.cond.PrecondNone?
    requires ResourcesOk(s.fees, data, sub.txSize, false)
    requires data.resourceFee >= DeclaredCost(o, s, sub).nonRefundable + DeclaredCost(o, s, sub).refundable
    ensures EnvelopeProblem(o, s, e, sub).None?
  {
    assert sub.tx.operations[0] == op && forall other :: other in sub.tx.operations <==> other == op;
    assert op in sub.tx.operations && IsSorobanOp(op) && |sub.tx.operations| == 1;
    assert ResourcesOk(s.fees, sub.tx.ext.value, sub.txSize, sub.tx.operations[0].body.RestoreFootprint?);
    assert !ExtraSignersMalformed(sub.tx) && !MemoOrMuxed(sub.tx, op)
        && BoundsProblem(e.ledgerSeq, e.timestamp, sub.tx).None?;
  }

  lemma ResourcesFit(txSize: nat)
    requires txSize <= 1000
    ensures ResourcesOk(Limits().fees, Tx().ext.value, txSize, false)
  {
    assert FootprintKeys(Tx().ext.value.resources) == [];
  }

  lemma WellFormed(signatures: seq<DecoratedSignature>)
    requires |signatures| <= 2 && forall s :: s in signatures ==> |s.signature| == 1
    ensures !PlainMalformed(Tx())
    ensures EnvelopeProblem(World(), Limits(), Ledger(), PlainSubmission(Tx(), signatures, ALL_CHECKS)).None?
  {
    EnvelopeFits(signatures);
    ResourcesFit(EnvelopeV1Size(Tx(), signatures));
    ShapeSuffices(World(), Limits(), Ledger(), PlainSubmission(Tx(), signatures, ALL_CHECKS), Tx().operations[0],
                  Tx().ext.value);
  }

  lemma InOrder(signatures: seq<DecoratedSignature>)
    ensures var sub := PlainSubmission(Tx(), signatures, ALL_CHECKS);
            && Timely(Ledger(), sub, AliceAccount()) && Affordable(Ledger(), sub, AliceAccount())
            && !Misshapen(Limits(), Tx().operations[0], Tx().ext.value.resources)
            && SourceId(sub) == Alice() && OpSourceId(sub) == Bob()
  {
    LedgerAccounts();
  }

  function AliceSigners(): seq<Signer> { [Signer(Ed25519(Alice()), 1), Signer(HashX(Hash()), 1)] }
  function BobSigners(): seq<Signer> { [Signer(Ed25519(Alice()), 1)] }
  function Verifying(): Verifier { VerifierOf(World().crypto, []) }

  lemma ChecksAre(signatures: seq<DecoratedSignature>)
    ensures var sub := PlainSubmission(Tx(), signatures, ALL_CHECKS);
            && SourceCheck(World(), sub, AliceAccount()) == Decide(Verifying(), signatures, AliceSigners(), 1)
            && ExtraCheck(World(), sub) == Check(true, 0, [])
            && OpCheck(World(), sub, Some(BobAccount())) == Decide(Verifying(), signatures, BobSigners(), 1)
  {
    LedgerAccounts();
  }

  lemma Satisfied(signatures: seq<DecoratedSignature>)
    requires var (source, op) := (Decide(Verifying(), signatures, AliceSigners(), 1),
                                  Decide(Verifying(), signatures, BobSigners(), 1));
             source.done && op.done && AllUsed(signatures, source.log + op.log)
    ensures var sub := PlainSubmission(Tx(), signatures, ALL_CHECKS);
            var (source, op) := (SourceCheck(World(), sub, AliceAccount()), OpCheck(World(), sub, Some(BobAccount())));
            && source.done && ExtraCheck(World(), sub) == Check(true, 0, []) && op.done
            && AllUsed(sub.signatures, source.log + op.log)
  {
    ChecksAre(signatures);
  }

  lemma Accepted(signatures: seq<DecoratedSignature>)
    requires |signatures| <= 2 && forall s :: s in signatures ==> |s.signature| == 1
    requires var (source, op) := (Decide(Verifying(), signatures, AliceSigners(), 1),
                                  Decide(Verifying(), signatures, BobSigners(), 1));
             source.done && op.done && AllUsed(signatures, source.log + op.log)
    ensures !PlainMalformed(Tx()) && PassesChecks(World(), Limits(), Ledger(),
                                                  PlainSubmission(Tx(), signatures, ALL_CHECKS))
  {
    LedgerAccounts();
    WellFormed(signatures);
    InOrder(signatures);
    Satisfied(signatures);
    TestsSuffice(World(), Limits(), Ledger(), PlainSubmission(Tx(), signatures, ALL_CHECKS), AliceAccount(),
                 BobAccount());
  }

  lemma PlainApplies(o: Oracles, s: Settings, e: EnvState, tx: Transaction, signatures: seq<DecoratedSignature>)
    requires !PlainMalformed(tx) && PassesChecks(o, s, e, PlainSubmission(tx, signatures, ALL_CHECKS))
    ensures Applies(o, s, e, EnvelopeV1(tx, signatures), ALL_CHECKS)
  {}

  lemma TestsSuffice(o: Oracles, s: Settings, e: EnvState, sub: Submission, source: Account, opAccount: Account)
    requires EnvelopeProblem(o, s, e, sub).None? && sub.options.sigverify && sub.tx.operations != [] && sub.tx.ext.Some?
    requires LoadAccount(e.store, SourceId(sub)) == Some(source)
        && LoadAccount(e.store, OpSourceId(sub)) == Some(opAccount)
    requires Timely(e, sub, source) && Affordable(e, sub, source)
    requires !Misshapen(s, sub.tx.operations[0], sub.tx.ext.value.resources)
    requires SourceCheck(o, sub, source).done && ExtraCheck(o, sub) == Check(true, 0, [])
        && OpCheck(o, sub, Some(opAccount)).done
    requires AllUsed(sub.signatures, SourceCheck(o, sub, source).log + OpCheck(o, sub, Some(opAccount)).log)
    ensures PassesChecks(o, s, e, sub)
  {
    AccountTests(o, s, e, sub);
    assert SourceCheck(o, sub, source).log + [] == SourceCheck(o, sub, source).log;
  }

  /** What the two checks need of these signatures. */
  ghost predicate Covers(signatures: seq<DecoratedSignature>) {
    && |signatures| <= 2 && (forall s :: s in signatures ==> |s.signature| == 1)
    && var (source, op) := (Decide(Verifying(), signatures, AliceSigners(), 1),
                            Decide(Verifying(), signatures, BobSigners(), 1));
       source.done && op.done && AllUsed(signatures, source.log + op.log)
  }

  lemma BothCover()
    ensures Covers([AliceSigns()]) && Covers([AliceSigns(), Preimage()])
  {
    WhoVerifies();
    MixedSignersAcceptPadding(Verifying(), Alice(), Hash(), AliceSigns(), Preimage());
  }

  lemma CoveredApplies(signatures: seq<DecoratedSignature>)
    requires Covers(signatures)
    ensures Applies(World(), Limits(), Ledger(), EnvelopeV1(Tx(), signatures), ALL_CHECKS)
  {
    Accepted(signatures);
    PlainApplies(World(), Limits(), Ledger(), Tx(), signatures);
  }

  /**
   * Alice's key and a HASH_X preimage both sign for her, and her key signs for
   * Bob. Her signature alone is accepted; so is it with the preimage appended,
   * which then satisfies her own check and leaves her signature to Bob's.
   */
  lemma PaddingAccepted()
    ensures Applies(World(), Limits(), Ledger(), EnvelopeV1(Tx(), [AliceSigns()]), ALL_CHECKS)
    ensures Applies(World(), Limits(), Ledger(), WithSignature(EnvelopeV1(Tx(), [AliceSigns()]), Preimage()),
                    ALL_CHECKS)
  {
    BothCover();
    assert [AliceSigns()] + [Preimage()] == [AliceSigns(), Preimage()];
    CoveredApplies([AliceSigns()]);
    CoveredApplies([AliceSigns(), Preimage()]);
  }
}
