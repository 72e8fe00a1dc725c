/** src/fake-rpc.ts: submissions, the friendbot, simulations, and the ledger that closes behind each. */
module Rpc {
  import opened Sequences
  import opened Xdr
  import opened Signatures
  import opened Accounts
  import opened Host
  import opened Fees
  import opened Environment
  import opened FootprintOps
  import opened Validation
  import opened Transactions
  import opened TransactionLaws

  /** What getTransaction answers from. */
  datatype SubmittedTx = SubmittedTx(envelope: Envelope, outcome: TxOutcome, ledger: u32, createdAt: u64)

  /** One applied transaction, a fee bump by its inner one, the ledger it applied in, and who paid what for it. */
  datatype AppliedTx = AppliedTx(tx: Transaction, ledgerSeq: u32, timestamp: u64, payer: PublicKey, fee: int)

  /** The adapter's state, with the history of what it applied beside it. */
  datatype RpcState = RpcState(env: EnvState, submitted: map<Bytes, SubmittedTx>, history: seq<AppliedTx>) {

    /** What getTransaction answers for a hash: its result, or NOT_FOUND. */
    function Answer(hash: Bytes): Option<SubmittedTx> { if hash in submitted then Some(submitted[hash]) else None }
  }

  /** ledger.sendTransaction: every check on. */
  const ALL_CHECKS := ValidationOptions(true, true, true, true)

  /** REJECTED_AT_SUBMIT. */
  predicate RejectedAtSubmit(code: Code) {
    match code
    case TxNoAccount | TxBadSeq | TxBadAuth | TxBadAuthExtra | TxTooEarly | TxTooLate | TxBadMinSeqAgeOrGap
       | TxMissingOperation | TxMalformed | TxSorobanInvalid | TxInsufficientFee | TxInsufficientBalance => true
    case TxSuccess | TxFailed | TxFeeBumpInnerSuccess | TxFeeBumpInnerFailed => false
  }

  function InnerTx(env: Envelope): Transaction
    requires !env.EnvelopeV0?
  {
    if env.EnvelopeV1? then env.tx else env.inner
  }

  /** The hash a submission is known by; a v0 envelope is refused before it matters. */
  function EnvelopeHash(o: Oracles, env: Envelope): Bytes {
    match env
    case EnvelopeV0 => []
    case EnvelopeV1(tx, _) => o.txHash(tx)
    case EnvelopeFeeBump(feeSource, fee, inner, innerSignatures, _) => o.bumpHash(feeSource, fee, inner,
                                                                                  innerSignatures)
  }

  const FRIENDBOT_BALANCE: int := 10_000 * 10_000_000

  function FundedAccount(id: PublicKey): Account {
    Account(id, FRIENDBOT_BALANCE, 0, 0, None, 0, [], Thresholds(1, 0, 0, 0), [], ExtV0)
  }

  datatype Action =
    | SendTransaction(envelope: Envelope)
    | SimulateTransaction(tx: Transaction)
    | Advance(n: u32)
    | Friendbot(id: PublicKey)

  /** Whether sendTransaction answers PENDING rather than ERROR. */
  predicate Pending(outcome: TxOutcome) { !outcome.rejected && !RejectedAtSubmit(outcome.code) }

  ghost function Received(o: Oracles, s: Settings, st: RpcState, envelope: Envelope): RpcState {
    var (after, outcome) := Submitted(o, s, st.env, envelope, ALL_CHECKS);
    if !Pending(outcome) || envelope.EnvelopeV0? then st.(env := after)
    else
      RpcState(Advanced(after, 1),
               st.submitted[EnvelopeHash(o, envelope) :=
                            SubmittedTx(envelope, outcome, after.ledgerSeq, after.timestamp)],
               st.history + [AppliedTx(InnerTx(envelope), after.ledgerSeq, after.timestamp, PayerOf(envelope),
                                       outcome.feeCharged)])
  }

  /** PENDING is answered exactly for what applies. */
  lemma PendingIfApplied(o: Oracles, s: Settings, e: EnvState, envelope: Envelope)
    ensures Pending(Submitted(o, s, e, envelope, ALL_CHECKS).1) <==> Applies(o, s, e, envelope, ALL_CHECKS)
  {
    RejectedOrApplied(o, s, e, envelope, ALL_CHECKS);
  }

  /** A submission that applies is recorded and its ledger closes; the ledger is the committed one. */
  lemma ReceivedIs(o: Oracles, s: Settings, st: RpcState, envelope: Envelope)
    requires Applies(o, s, st.env, envelope, ALL_CHECKS)
    ensures var after, outcome := Committed(o, s, st.env, SubmissionOf(envelope, ALL_CHECKS)).0,
        Submitted(o, s, st.env, envelope, ALL_CHECKS).1;
            Received(o, s, st, envelope)
            == RpcState(Advanced(after, 1),
                        st.submitted[EnvelopeHash(o, envelope) :=
                                     SubmittedTx(envelope, outcome, after.ledgerSeq, after.timestamp)],
                        st.history + [AppliedTx(InnerTx(envelope), after.ledgerSeq, after.timestamp, PayerOf(envelope),
                                                outcome.feeCharged)])
  {
    RejectedOrApplied(o, s, st.env, envelope, ALL_CHECKS);
  }

  ghost function Handled(o: Oracles, s: Settings, st: RpcState, a: Action): RpcState {
    match a
    case SendTransaction(envelope) => Received(o, s, st, envelope)
    case SimulateTransaction(tx) =>
      if tx.operations != [] && tx.operations[0].body.InvokeHostFunction?
      then st.(env := Step(o, s, st.env, Simulate)) else st
    case Advance(n) => st.(env := Advanced(st.env, n))
    case Friendbot(id) =>
      if AccountKey(id) in st.env.store then st
      else st.(env := st.env.(store := StoreAccount(st.env.store, st.env.ledgerSeq, FundedAccount(id))))
  }

  class InProcessRpc {
    const ledger: SorobanEnv
    var submitted: map<Bytes, SubmittedTx>
    ghost var history: seq<AppliedTx>

    ghost function State(): RpcState
      reads this, ledger
    {
      RpcState(ledger.State(), submitted, history)
    }

    constructor (ledger: SorobanEnv)
      ensures this.ledger == ledger && State() == RpcState(ledger.State(), map[], [])
    {
      this.ledger, submitted, history := ledger, map[], [];
    }

    /** The latest ledger a client sees is the one before the open one. */
    function LastClosed(): int
      reads this, ledger
    {
      ledger.ledgerSeq - 1
    }

    /** PENDING closes the ledger the envelope applied in; ERROR leaves everything as it was. */
    method Send(envelope: Envelope) returns (pending: bool, latestLedger: int)
      requires HostAssumptions(ledger.o) && WellKeyed(ledger.store)
      modifies this, ledger
      ensures State() == Received(ledger.o, ledger.s, old(State()), envelope)
      ensures latestLedger == old(ledger.ledgerSeq) - 1
      ensures pending == Pending(Submitted(ledger.o, ledger.s, old(ledger.State()), envelope, ALL_CHECKS).1)
    {
      latestLedger := LastClosed();
      var outcome := ApplyTransaction(ledger, envelope, ALL_CHECKS);
      if !Pending(outcome) { return false, latestLedger; }
      submitted := submitted[EnvelopeHash(ledger.o, envelope) :=
                             SubmittedTx(envelope, outcome, ledger.ledgerSeq, ledger.timestamp)];
      history := history + [AppliedTx(InnerTx(envelope), ledger.ledgerSeq, ledger.timestamp, PayerOf(envelope),
                                      outcome.feeCharged)];
      ledger.AdvanceLedgers(1);
      pending := true;
    }

    function GetTransaction(hash: Bytes): (r: Option<SubmittedTx>)
      reads this, ledger
      ensures r == State().Answer(hash)
    {
      if hash in submitted then Some(submitted[hash]) else None
    }

    /** A funding request: answered with a new account, or refused if there is one already. */
    method Fund(id: PublicKey) returns (created: bool)
      modifies ledger
      ensures State() == Handled(ledger.o, ledger.s, old(State()), Friendbot(id))
      ensures created <==> AccountKey(id) !in old(ledger.store)
    {
      if AccountKey(id) in ledger.store { return false; }
      var _ := ledger.PutEntry(LedgerEntry(ledger.ledgerSeq, AccountData(FundedAccount(id))), None);
      created := true;
    }

    /** The same as the u32 a simulation is handed; with the open ledger 0 it wraps. */
    function SimulatedIn(): u32
      reads this, ledger
    {
      Wrap32(LastClosed())
    }

    /** minResourceFee of a footprint operation's preflight. */
    function MinResourceFee(body: OperationBody, p: Preflight): Option<int>
      requires p.Preflight?
      reads this, ledger
    {
      PreflightResourceFee(ledger.o, ledger.s.fees, body, p.resources, [], 0, p.rentChanges, SimulatedIn())
    }

    /** A restoration preflights in the last closed ledger. */
    method SimulateRestore(tx: Transaction) returns (p: Preflight)
      requires tx.operations != [] && tx.operations[0].body.RestoreFootprint?
      ensures SimulatedIn() == Wrap32(ledger.ledgerSeq - 1)
      ensures FootprintOf(tx) == if tx.ext.Some? then tx.ext.value.resources.readWrite else []
      ensures RestorePreflights(ledger.o, ledger.s, ledger.store, FootprintOf(tx), SimulatedIn(), p)
    {
      p := RestoreResources(ledger.o, ledger.s, ledger.store, FootprintOf(tx), SimulatedIn());
    }

    /** And so does an extension. */
    method SimulateExtend(tx: Transaction) returns (p: Preflight)
      requires tx.operations != [] && tx.operations[0].body.ExtendFootprintTtl?
      ensures SimulatedIn() == Wrap32(ledger.ledgerSeq - 1)
      ensures FootprintOf(tx) == if tx.ext.Some? then tx.ext.value.resources.readOnly else []
      ensures ExtendPreflights(ledger.o, ledger.store, FootprintOf(tx), tx.operations[0].body.extendTo, SimulatedIn(),
                               p)
    {
      p := ExtendTtlResources(ledger.o, ledger.store, FootprintOf(tx), tx.operations[0].body.extendTo, SimulatedIn());
    }
  }

  /** The keys a footprint simulation looks at: read-write ones to restore, read-only ones to extend. */
  function FootprintOf(tx: Transaction): seq<LedgerKey>
    requires tx.operations != []
  {
    if tx.ext.None? then []
    else if tx.operations[0].body.ExtendFootprintTtl? then tx.ext.value.resources.readOnly
    else tx.ext.value.resources.readWrite
  }
}
