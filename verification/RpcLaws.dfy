/** Whole runs of submissions, simulations, ledger closes and friendbot calls. */
module RpcLaws {
  import opened Sequences
  import opened Xdr
  import opened Signatures
  import opened Accounts
  import opened Host
  import opened Fees
  import opened Environment
  import opened EnvironmentLaws
  import opened Validation
  import opened Transactions
  import opened TransactionLaws
  import opened Acceptance
  import opened Rpc

  // ---- what one commit does to every account -----------------------------------------

  /** Everything but the account's own submissions leaves its sequence number and stamp. */
  ghost predicate KeepsSequence(store: Store, store': Store, id: PublicKey) {
    match LoadAccount(store, id)
    case Some(a) =>
      LoadAccount(store', id).Some?
      && LoadAccount(store', id).value.seqNum == a.seqNum && LastMoved(LoadAccount(store', id).value) == LastMoved(a)
    case None =>
      LoadAccount(store', id).Some? ==> LastMoved(LoadAccount(store', id).value) == SequenceStamp(0, 0)
  }

  /** A commit moves its source's sequence number to the transaction's, stamps it, and moves no other. */
  ghost predicate MovesOnly(e: EnvState, store': Store, id: PublicKey, tx: Transaction) {
    if id == tx.source.id then
      LoadAccount(store', id).Some?
      && LoadAccount(store', id).value.seqNum == tx.seqNum
      && LastMoved(LoadAccount(store', id).value) == SequenceStamp(e.ledgerSeq, e.timestamp)
    else KeepsSequence(e.store, store', id)
  }

  lemma DebitKeepsSequence(store: Store, payer: PublicKey, amount: int, ledgerSeq: u32, id: PublicKey)
    requires WellKeyed(store)
    ensures WellKeyed(Debit(store, payer, amount, ledgerSeq))
        && KeepsSequence(store, Debit(store, payer, amount, ledgerSeq), id)
  {
    if LoadAccount(store, payer).Some? { DebitedAccount(store, payer, amount, ledgerSeq); }
  }

  lemma BumpMovesOnly(e: EnvState, tx: Transaction, id: PublicKey)
    requires WellKeyed(e.store) && LoadAccount(e.store, tx.source.id).Some?
    ensures var store := BumpSequence(e.store, tx.source.id, tx.seqNum, e.ledgerSeq, e.timestamp);
            WellKeyed(store) && MovesOnly(e, store, id, tx)
  {
    BumpedAccount(e.store, tx.source.id, tx.seqNum, e.ledgerSeq, e.timestamp);
  }

  lemma MovesOnlyThenKeeps(e: EnvState, store: Store, store': Store, id: PublicKey, tx: Transaction)
    requires MovesOnly(e, store, id, tx) && KeepsSequence(store, store', id)
    ensures MovesOnly(e, store', id, tx)
  {}

  lemma IdentityKeepsSequence(store: Store, store': Store, id: PublicKey)
    requires KeepsIdentity(store, store', id)
    ensures KeepsSequence(store, store', id)
  {}

  lemma ChargedMovesOnly(o: Oracles, s: Settings, e: EnvState, sub: Submission, id: PublicKey)
    requires WellKeyed(e.store) && LoadAccount(e.store, SourceId(sub)).Some? && sub.options.sequenceCheck
    ensures WellKeyed(Charged(o, s, e, sub).store) && MovesOnly(e, Charged(o, s, e, sub).store, id, sub.tx)
  {
    BumpMovesOnly(e, sub.tx, id);
    if sub.charge.Some? {
      var bumped := BumpSequence(e.store, SourceId(sub), sub.tx.seqNum, e.ledgerSeq, e.timestamp);
      DebitKeepsSequence(bumped, sub.charge.value.payer, sub.charge.value.upfront, e.ledgerSeq, id);
      MovesOnlyThenKeeps(e, bumped, Charged(o, s, e, sub).store, id, sub.tx);
    }
  }

  lemma SettledKeepsSequence(o: Oracles, s: Settings, e: EnvState, sub: Submission, outcome: TxOutcome,
                             consumed: SorobanFee, id: PublicKey)
    requires WellKeyed(e.store) && sub.tx.operations != [] && sub.tx.ext.Some?
    ensures var after := Settled(o, s, e, sub, outcome, consumed).0;
            && after == e.(store := after.store) && WellKeyed(after.store) && KeepsSequence(e.store, after.store, id)
  {
    if sub.charge.Some? {
      var refund := sub.tx.ext.value.resourceFee - NonRefundable(o, s, sub) - consumed.refundable;
      DebitKeepsSequence(e.store, sub.charge.value.payer, -refund, e.ledgerSeq, id);
    }
  }

  lemma CommitMovesOnly(o: Oracles, s: Settings, e: EnvState, sub: Submission, id: PublicKey)
    requires HostAssumptions(o) && WellKeyed(e.store) && PassesChecks(o, s, e, sub) && sub.options.sequenceCheck
    ensures var after := Committed(o, s, e, sub).0;
            && after == e.(store := after.store, moduleCache := after.moduleCache)
            && WellKeyed(after.store) && MovesOnly(e, after.store, id, sub.tx)
  {
    ChargedMovesOnly(o, s, e, sub, id);
    var charged := Charged(o, s, e, sub);
    var opExists, cap := LoadAccount(e.store, OpSourceId(sub)).Some?, RefundableCap(o, s, sub);
    OperationKeepsAccounts(o, s, charged, sub, opExists, cap);
    var (ran, outcome, consumed) := RunOperation(o, s, charged, sub, opExists, cap);
    IdentityKeepsSequence(charged.store, ran.store, id);
    MovesOnlyThenKeeps(e, charged.store, ran.store, id, sub.tx);
    SettledKeepsSequence(o, s, ran, sub, outcome, consumed, id);
    MovesOnlyThenKeeps(e, ran.store, Settled(o, s, ran, sub, outcome, consumed).0.store, id, sub.tx);
  }

  // ---- the invariant ---------------------------------------------------------------------

  /** No account's sequence moved in the future. */
  ghost predicate StampInPast(e: EnvState, id: PublicKey) {
    LoadAccount(e.store, id).Some? ==>
      var last := LastMoved(LoadAccount(e.store, id).value);
      last.seqLedger <= e.ledgerSeq && last.seqTime <= e.timestamp
  }

  /** The source remembers the application: its sequence number and stamp are not before it. */
  ghost predicate Remembered(store: Store, ap: AppliedTx) {
    LoadAccount(store, ap.tx.source.id).Some? &&
    var a := LoadAccount(store, ap.tx.source.id).value;
    && ap.tx.seqNum <= a.seqNum
    && ap.ledgerSeq <= LastMoved(a).seqLedger && ap.timestamp <= LastMoved(a).seqTime
  }

  /** For each source, the sequence numbers applied strictly increase. */
  ghost predicate Increasing(history: seq<AppliedTx>) {
    forall i, j :: 0 <= i < j < |history| && history[i].tx.source.id == history[j].tx.source.id
      ==> history[i].tx.seqNum < history[j].tx.seqNum
  }

  /** A stored result is of an envelope whose transaction is in the history. */
  ghost predicate Recorded(o: Oracles, history: seq<AppliedTx>, h: Bytes, r: SubmittedTx) {
    && !r.envelope.EnvelopeV0? && EnvelopeHash(o, r.envelope) == h
    && exists ap :: ap in history && ap.tx == InnerTx(r.envelope)
  }

  ghost predicate Inv(o: Oracles, st: RpcState) {
    && WellKeyed(st.env.store)
    && (forall id :: StampInPast(st.env, id))
    && (forall ap :: ap in st.history ==> Remembered(st.env.store, ap))
    && Increasing(st.history)
    && (forall h :: h in st.submitted ==> Recorded(o, st.history, h, st.submitted[h]))
  }

  lemma StampStaysInPast(e: EnvState, e': EnvState, tx: Transaction, id: PublicKey)
    requires StampInPast(e, id) && MovesOnly(e, e'.store, id, tx)
    requires e.ledgerSeq <= e'.ledgerSeq && e.timestamp <= e'.timestamp
    ensures StampInPast(e', id)
  {}

  /** An accepted transaction's sequence number is past its account's. */
  lemma AcceptedIsNewer(o: Oracles, s: Settings, e: EnvState, sub: Submission)
    requires PassesChecks(o, s, e, sub) && sub.options.sequenceCheck
    ensures LoadAccount(e.store, SourceId(sub)).Some?
        && LoadAccount(e.store, SourceId(sub)).value.seqNum < sub.tx.seqNum
  {}

  lemma RememberedAfterCommit(e: EnvState, store': Store, tx: Transaction, ap: AppliedTx)
    requires Remembered(e.store, ap) && MovesOnly(e, store', ap.tx.source.id, tx)
    requires StampInPast(e, ap.tx.source.id)
    requires LoadAccount(e.store, tx.source.id).Some? && LoadAccount(e.store, tx.source.id).value.seqNum < tx.seqNum
    ensures Remembered(store', ap)
    ensures ap.tx.source.id == tx.source.id ==> ap.tx.seqNum < tx.seqNum
  {}

  /** What one applied submission does to the adapter: one more of everything, and one source moved. */
  ghost predicate AppliedBy(o: Oracles, st: RpcState, next: RpcState, envelope: Envelope, fee: int) {
    && !envelope.EnvelopeV0?
    && next.history == st.history + [AppliedTx(InnerTx(envelope), st.env.ledgerSeq, st.env.timestamp,
                                               PayerOf(envelope), fee)]
    && EnvelopeHash(o, envelope) in next.submitted
    && next.submitted[EnvelopeHash(o, envelope)].envelope == envelope
    && next.submitted[EnvelopeHash(o, envelope)].ledger == st.env.ledgerSeq
    && next.submitted == st.submitted[EnvelopeHash(o, envelope) := next.submitted[EnvelopeHash(o, envelope)]]
    && next.env.ledgerSeq == SatAdd32(st.env.ledgerSeq, 1) && st.env.timestamp <= next.env.timestamp
    && WellKeyed(next.env.store)
    && (forall id :: MovesOnly(st.env, next.env.store, id, InnerTx(envelope)))
    && LoadAccount(st.env.store, InnerTx(envelope).source.id).Some?
    && LoadAccount(st.env.store, InnerTx(envelope).source.id).value.seqNum < InnerTx(envelope).seqNum
  }

  /** The fee a submission reports. */
  ghost function FeeOf(o: Oracles, s: Settings, st: RpcState, envelope: Envelope): int {
    Submitted(o, s, st.env, envelope, ALL_CHECKS).1.feeCharged
  }

  /** A submission is refused and changes nothing, or applies exactly once. */
  lemma AppliesOrRefused(o: Oracles, s: Settings, st: RpcState, envelope: Envelope)
    requires HostAssumptions(o) && WellKeyed(st.env.store)
    ensures if Applies(o, s, st.env, envelope, ALL_CHECKS)
            then AppliedBy(o, st, Received(o, s, st, envelope), envelope, FeeOf(o, s, st, envelope))
            else Received(o, s, st, envelope) == st
  {
    if Applies(o, s, st.env, envelope, ALL_CHECKS) {
      ReceivedIs(o, s, st, envelope);
      CommitMovesEach(o, s, st.env, SubmissionOf(envelope, ALL_CHECKS));
      AcceptedIsNewer(o, s, st.env, SubmissionOf(envelope, ALL_CHECKS));
    } else {
      RejectedOrApplied(o, s, st.env, envelope, ALL_CHECKS);
    }
  }

  /**
   * What a client then polls: under its own hash, a submission that applied, with
   * what it was answered and the ledger and time it applied in; and that ledger
   * closes, five seconds on. One that does not apply is not to be found.
   */
  lemma PollAnswers(o: Oracles, s: Settings, st: RpcState, envelope: Envelope)
    requires HostAssumptions(o) && WellKeyed(st.env.store) && !envelope.EnvelopeV0?
    ensures var next, outcome := Received(o, s, st, envelope), Submitted(o, s, st.env, envelope, ALL_CHECKS).1;
            var hash := match envelope
                        case EnvelopeV1(tx, _) => o.txHash(tx)
                        case EnvelopeFeeBump(source, fee, inner, signatures, _) =>
                          o.bumpHash(source, fee, inner, signatures);
            if Applies(o, s, st.env, envelope, ALL_CHECKS) then
              && next.Answer(hash) == Some(SubmittedTx(envelope, outcome, st.env.ledgerSeq, st.env.timestamp))
              && next.env.ledgerSeq == Min(st.env.ledgerSeq + 1, U32_MAX)
              && next.env.timestamp == Min(st.env.timestamp + 5, U64_MAX)
            else next == st
  {
    if Applies(o, s, st.env, envelope, ALL_CHECKS) {
      ReceivedIs(o, s, st, envelope);
      CommitMovesEach(o, s, st.env, SubmissionOf(envelope, ALL_CHECKS));
      ClosedBehind(o, st, Committed(o, s, st.env, SubmissionOf(envelope, ALL_CHECKS)).0, envelope,
                   Submitted(o, s, st.env, envelope, ALL_CHECKS).1);
    } else {
      RejectedOrApplied(o, s, st.env, envelope, ALL_CHECKS);
    }
  }

  /** A result recorded in the ledger it applied in, which then closes. */
  lemma ClosedBehind(o: Oracles, st: RpcState, after: EnvState, envelope: Envelope, outcome: TxOutcome)
    requires after == st.env.(store := after.store, moduleCache := after.moduleCache)
    ensures var r := SubmittedTx(envelope, outcome, after.ledgerSeq, after.timestamp);
            && r == SubmittedTx(envelope, outcome, st.env.ledgerSeq, st.env.timestamp)
            && Advanced(after, 1).ledgerSeq == Min(st.env.ledgerSeq + 1, U32_MAX)
            && Advanced(after, 1).timestamp == Min(st.env.timestamp + 5, U64_MAX)
  {}

  /** A funded account's entry is 92 bytes, and 144 once its sequence number has moved. */
  lemma FundedAccountSizes(id: PublicKey, to: int, ledgerSeq: u32, timestamp: u64)
    ensures EntrySize(LedgerEntry(ledgerSeq, AccountData(FundedAccount(id)))) == 92
    ensures EntrySize(LedgerEntry(ledgerSeq, AccountData(Bumped(FundedAccount(id), to, ledgerSeq, timestamp)))) == 144
  {
    var a := FundedAccount(id);
    PromotionSize(a);
    PromotionsAgree(a, to, ledgerSeq, timestamp);
    assert NoSponsors(0) == [];
  }

  /** Whatever applies does so within its time and ledger bounds, with a number that fits, and old enough. */
  lemma AppliesInTime(o: Oracles, s: Settings, e: EnvState, envelope: Envelope)
    requires Applies(o, s, e, envelope, ALL_CHECKS)
    ensures LoadAccount(e.store, InnerTx(envelope).source.id).Some?
    ensures var tx, source := InnerTx(envelope), LoadAccount(e.store, InnerTx(envelope).source.id).value;
            && !Early(e.ledgerSeq, e.timestamp, tx) && !Late(e.ledgerSeq, e.timestamp, tx)
            && SequenceFits(tx, source.seqNum)
            && OldEnough(e.ledgerSeq, e.timestamp, tx, LastStamp(source))
  {
    AcceptedSequence(o, s, e, SubmissionOf(envelope, ALL_CHECKS));
    AcceptedInTime(o, s, e, SubmissionOf(envelope, ALL_CHECKS));
  }

  /** What the friendbot creates: 10 000 XLM, number 0, and the account's own key as its one signer; never twice. */
  lemma FriendbotCreates(o: Oracles, s: Settings, st: RpcState, id: PublicKey)
    ensures var next := Handled(o, s, st, Friendbot(id));
            if AccountKey(id) in st.env.store then next == st
            else
              && LoadAccount(next.env.store, id)
                 == Some(Account(id, 100_000_000_000, 0, 0, None, 0, [], Thresholds(1, 0, 0, 0), [], ExtV0))
              && Signatories(LoadAccount(next.env.store, id).value) == [Signer(Ed25519(id), 1)]
              && next == st.(env := st.env.(store := next.env.store))
              && forall key :: key != AccountKey(id) ==> SameAt(st.env.store, next.env.store, key)
  {}

  lemma CommitMovesEach(o: Oracles, s: Settings, e: EnvState, sub: Submission)
    requires HostAssumptions(o) && WellKeyed(e.store) && PassesChecks(o, s, e, sub) && sub.options.sequenceCheck
    ensures var after := Committed(o, s, e, sub).0;
            && after == e.(store := after.store, moduleCache := after.moduleCache)
            && WellKeyed(after.store) && forall id :: MovesOnly(e, after.store, id, sub.tx)
  {
    var after := Committed(o, s, e, sub).0;
    CommitMovesOnly(o, s, e, sub, ZEROS32);
    forall id ensures MovesOnly(e, after.store, id, sub.tx) { CommitMovesOnly(o, s, e, sub, id); }
  }

  lemma AppliedKeepsInv(o: Oracles, st: RpcState, next: RpcState, envelope: Envelope, fee: int)
    requires Inv(o, st) && AppliedBy(o, st, next, envelope, fee)
    ensures Inv(o, next)
  {
    var tx := InnerTx(envelope);
    forall id ensures StampInPast(next.env, id) {
      StampStaysInPast(st.env, next.env, tx, id);
    }
    forall ap | ap in st.history
      ensures Remembered(next.env.store, ap) && (ap.tx.source.id == tx.source.id ==> ap.tx.seqNum < tx.seqNum)
    {
      RememberedAfterCommit(st.env, next.env.store, tx, ap);
    }
    assert MovesOnly(st.env, next.env.store, tx.source.id, tx);
    HistoryGrows(o, st, next, envelope, fee);
  }

  /** The rest of the invariant only needs the history to have grown by this transaction. */
  lemma HistoryGrows(o: Oracles, st: RpcState, next: RpcState, envelope: Envelope, fee: int)
    requires Inv(o, st) && !envelope.EnvelopeV0?
    requires next.history == st.history + [AppliedTx(InnerTx(envelope), st.env.ledgerSeq, st.env.timestamp,
                                                     PayerOf(envelope), fee)]
    requires EnvelopeHash(o, envelope) in next.submitted
        && next.submitted[EnvelopeHash(o, envelope)].envelope == envelope
    requires next.submitted == st.submitted[EnvelopeHash(o, envelope) := next.submitted[EnvelopeHash(o, envelope)]]
    requires forall ap :: ap in st.history && ap.tx.source.id == InnerTx(envelope).source.id ==>
               ap.tx.seqNum < InnerTx(envelope).seqNum
    ensures Increasing(next.history)
    ensures forall h :: h in next.submitted ==> Recorded(o, next.history, h, next.submitted[h])
  {
    var last := AppliedTx(InnerTx(envelope), st.env.ledgerSeq, st.env.timestamp, PayerOf(envelope), fee);
    forall i, j | 0 <= i < j < |next.history| && next.history[i].tx.source.id == next.history[j].tx.source.id
      ensures next.history[i].tx.seqNum < next.history[j].tx.seqNum
    {
      if j == |st.history| { assert st.history[i] in st.history; }
    }
    forall h | h in next.submitted ensures Recorded(o, next.history, h, next.submitted[h]) {
      if h == EnvelopeHash(o, envelope) {
        assert last in next.history;
      } else {
        assert Recorded(o, st.history, h, st.submitted[h]);
        var ap :| ap in st.history && ap.tx == InnerTx(st.submitted[h].envelope);
        assert ap in next.history;
      }
    }
  }

  lemma FriendbotKeepsInv(o: Oracles, s: Settings, st: RpcState, id: PublicKey)
    requires Inv(o, st) && AccountKey(id) !in st.env.store
    ensures Inv(o, Handled(o, s, st, Friendbot(id)))
  {
    var next := Handled(o, s, st, Friendbot(id));
    forall other: PublicKey
      ensures StampInPast(next.env, other)
      ensures other != id ==> LoadAccount(next.env.store, other) == LoadAccount(st.env.store, other)
    {
      assert StampInPast(st.env, other);
    }
    forall ap | ap in st.history ensures Remembered(next.env.store, ap) { assert Remembered(st.env.store, ap); }
  }

  lemma AdvanceKeepsInv(o: Oracles, st: RpcState, e: EnvState)
    requires Inv(o, st) && e.store == st.env.store && st.env.ledgerSeq <= e.ledgerSeq && st.env.timestamp <= e.timestamp
    ensures Inv(o, st.(env := e))
  {
    forall id ensures StampInPast(e, id) { assert StampInPast(st.env, id); }
  }

  lemma HandledKeepsInv(o: Oracles, s: Settings, st: RpcState, a: Action)
    requires HostAssumptions(o) && Inv(o, st)
    ensures Inv(o, Handled(o, s, st, a))
  {
    match a
    case SendTransaction(envelope) =>
      AppliesOrRefused(o, s, st, envelope);
      if Applies(o, s, st.env, envelope, ALL_CHECKS) {
        AppliedKeepsInv(o, st, Received(o, s, st, envelope), envelope, FeeOf(o, s, st, envelope));
      }
    case SimulateTransaction(tx) => AdvanceKeepsInv(o, st, Handled(o, s, st, a).env);
    case Advance(n) => AdvanceKeepsInv(o, st, Handled(o, s, st, a).env);
    case Friendbot(id) => if AccountKey(id) !in st.env.store { FriendbotKeepsInv(o, s, st, id); }
  }

  // ---- runs --------------------------------------------------------------------------------

  ghost function Run(o: Oracles, s: Settings, st: RpcState, actions: seq<Action>): RpcState
    decreases |actions|
  {
    if actions == [] then st else Run(o, s, Handled(o, s, st, actions[0]), actions[1..])
  }

  lemma {:induction false} RunKeepsInv(o: Oracles, s: Settings, st: RpcState, actions: seq<Action>)
    requires HostAssumptions(o) && Inv(o, st)
    ensures Inv(o, Run(o, s, st, actions))
    decreases |actions|
  {
    if actions == [] {
    } else {
      HandledKeepsInv(o, s, st, actions[0]);
      RunKeepsInv(o, s, Handled(o, s, st, actions[0]), actions[1..]);
    }
  }

  /**
   * Replay safety: from any ledger whose stamps are not in the future, however
   * it is used, the sequence numbers applied for each source strictly increase,
   * so no transaction, plain or inside a fee bump, is ever applied twice.
   */
  lemma NothingAppliesTwice(o: Oracles, s: Settings, e: EnvState, actions: seq<Action>, i: nat, j: nat)
    requires HostAssumptions(o) && WellKeyed(e.store) && forall id :: StampInPast(e, id)
    requires i < j < |Run(o, s, RpcState(e, map[], []), actions).history|
    ensures var history := Run(o, s, RpcState(e, map[], []), actions).history;
            && Increasing(history)
            && history[i].tx != history[j].tx
  {
    RunKeepsInv(o, s, RpcState(e, map[], []), actions);
  }

  /** A transaction that applied is refused ever after, on its own or inside any fee bump. */
  lemma ReplayRefused(o: Oracles, s: Settings, st: RpcState, ap: AppliedTx, envelope: Envelope)
    requires Inv(o, st) && ap in st.history && !envelope.EnvelopeV0? && InnerTx(envelope) == ap.tx
    ensures !Applies(o, s, st.env, envelope, ALL_CHECKS)
  {
    assert Remembered(st.env.store, ap);
    if Applies(o, s, st.env, envelope, ALL_CHECKS) {
      AcceptedIsNewer(o, s, st.env, SubmissionOf(envelope, ALL_CHECKS));
    }
  }

  /** Envelopes of one hash are of one transaction. */
  ghost predicate CollisionFree(o: Oracles) {
    forall a: Envelope, b: Envelope :: !a.EnvelopeV0? && !b.EnvelopeV0? && EnvelopeHash(o, a) == EnvelopeHash(o, b)
      ==> InnerTx(a) == InnerTx(b)
  }

  /** A stored hash is no envelope's that could still apply. */
  lemma StoredHashRefused(o: Oracles, s: Settings, st: RpcState, envelope: Envelope, h: Bytes)
    requires CollisionFree(o) && Inv(o, st) && h in st.submitted
    ensures Applies(o, s, st.env, envelope, ALL_CHECKS) ==> EnvelopeHash(o, envelope) != h
  {
    assert Recorded(o, st.history, h, st.submitted[h]);
    var ap :| ap in st.history && ap.tx == InnerTx(st.submitted[h].envelope);
    if !envelope.EnvelopeV0? && InnerTx(envelope) == ap.tx { ReplayRefused(o, s, st, ap, envelope); }
  }

  lemma AppliedKeepsResult(o: Oracles, st: RpcState, next: RpcState, envelope: Envelope, fee: int, h: Bytes)
    requires AppliedBy(o, st, next, envelope, fee) && EnvelopeHash(o, envelope) != h
    ensures next.Answer(h) == st.Answer(h)
  {}

  lemma ReceivedKeepsResult(o: Oracles, s: Settings, st: RpcState, envelope: Envelope, h: Bytes)
    requires HostAssumptions(o) && CollisionFree(o) && Inv(o, st) && st.Answer(h).Some?
    ensures Received(o, s, st, envelope).Answer(h) == st.Answer(h)
  {
    AppliesOrRefused(o, s, st, envelope);
    if Applies(o, s, st.env, envelope, ALL_CHECKS) {
      StoredHashRefused(o, s, st, envelope, h);
      AppliedKeepsResult(o, st, Received(o, s, st, envelope), envelope, FeeOf(o, s, st, envelope), h);
    }
  }

  lemma HandledKeepsResult(o: Oracles, s: Settings, st: RpcState, a: Action, h: Bytes)
    requires HostAssumptions(o) && CollisionFree(o) && Inv(o, st) && st.Answer(h).Some?
    ensures Handled(o, s, st, a).Answer(h) == st.Answer(h)
  {
    if a.SendTransaction? { ReceivedKeepsResult(o, s, st, a.envelope, h); }
  }

  /** Once getTransaction answers a hash with a result, it answers with that one for good. */
  lemma {:induction false} ResultsAreFinal(o: Oracles, s: Settings, st: RpcState, actions: seq<Action>, h: Bytes)
    requires HostAssumptions(o) && CollisionFree(o) && Inv(o, st) && st.Answer(h).Some?
    ensures Run(o, s, st, actions).Answer(h) == st.Answer(h)
    decreases |actions|
  {
    if actions == [] {
    } else {
      HandledKeepsResult(o, s, st, actions[0], h);
      HandledKeepsInv(o, s, st, actions[0]);
      ResultsAreFinal(o, s, Handled(o, s, st, actions[0]), actions[1..], h);
    }
  }

  // ---- ledger numbering --------------------------------------------------------------------

  /** A ledger that has closed: before the open one, unless the numbers have run out. */
  predicate Past(ledger: u32, ledgerSeq: u32) { ledger < ledgerSeq || ledgerSeq == U32_MAX }

  /** Every stored result is of a closed ledger, and each ledger closed behind one application. */
  ghost predicate Closed(st: RpcState) {
    && (forall h :: h in st.submitted ==> Past(st.submitted[h].ledger, st.env.ledgerSeq))
    && (forall ap :: ap in st.history ==> Past(ap.ledgerSeq, st.env.ledgerSeq))
    && (forall i, j :: 0 <= i < j < |st.history| ==> Past(st.history[i].ledgerSeq, st.history[j].ledgerSeq))
  }

  lemma AppliedKeepsClosed(o: Oracles, st: RpcState, next: RpcState, envelope: Envelope, fee: int)
    requires Closed(st) && AppliedBy(o, st, next, envelope, fee)
    ensures Closed(next)
    ensures next.submitted[EnvelopeHash(o, envelope)].ledger == st.env.ledgerSeq
    ensures st.env.ledgerSeq < U32_MAX ==> next.env.ledgerSeq - 1 == st.env.ledgerSeq
  {
    forall i, j | 0 <= i < j < |next.history| ensures Past(next.history[i].ledgerSeq, next.history[j].ledgerSeq) {
      assert next.history[i] == st.history[i] && st.history[i] in st.history;
    }
  }

  lemma HandledKeepsClosed(o: Oracles, s: Settings, st: RpcState, a: Action)
    requires HostAssumptions(o) && WellKeyed(st.env.store) && Closed(st)
    ensures Closed(Handled(o, s, st, a))
  {
    if a.SendTransaction? {
      AppliesOrRefused(o, s, st, a.envelope);
      if Applies(o, s, st.env, a.envelope, ALL_CHECKS) {
        AppliedKeepsClosed(o, st, Received(o, s, st, a.envelope), a.envelope, FeeOf(o, s, st, a.envelope));
      }
    }
  }

  /**
   * The ledger getTransaction reports is never past the one getLatestLedger
   * reports, and no two transactions apply in one ledger.
   */
  lemma {:induction false} RunKeepsClosed(o: Oracles, s: Settings, st: RpcState, actions: seq<Action>)
    requires HostAssumptions(o) && Inv(o, st) && Closed(st)
    ensures Closed(Run(o, s, st, actions))
    decreases |actions|
  {
    if actions == [] {
    } else {
      HandledKeepsInv(o, s, st, actions[0]);
      HandledKeepsClosed(o, s, st, actions[0]);
      RunKeepsClosed(o, s, Handled(o, s, st, actions[0]), actions[1..]);
    }
  }

  // ---- whose doing a sequence number is ------------------------------------------------------

  /** The sequence number an account that had `start` ends with after these applications. */
  function SequenceAfter(start: int, applied: seq<AppliedTx>, id: PublicKey): int {
    if applied == [] then start
    else
      var last := applied[|applied| - 1];
      if last.tx.source.id == id then last.tx.seqNum else SequenceAfter(start, applied[..|applied| - 1], id)
  }

  lemma {:induction false} SequenceAfterAppend(start: int, a: seq<AppliedTx>, b: seq<AppliedTx>, id: PublicKey)
    ensures SequenceAfter(start, a + b, id) == SequenceAfter(SequenceAfter(start, a, id), b, id)
  {
    if b == [] {
      assert a + b == a;
    } else {
      assert (a + b)[..|a + b| - 1] == a + b[..|b| - 1];
      SequenceAfterAppend(start, a, b[..|b| - 1], id);
    }
  }

  lemma SequenceChains(start: int, h0: seq<AppliedTx>, h1: seq<AppliedTx>, h2: seq<AppliedTx>, id: PublicKey)
    requires h0 <= h1 <= h2
    ensures SequenceAfter(start, h2[|h0|..], id) == SequenceAfter(SequenceAfter(start, h1[|h0|..], id), h2[|h1|..], id)
  {
    SequenceAfterAppend(start, h1[|h0|..], h2[|h1|..], id);
    assert h2[|h0|..] == h1[|h0|..] + h2[|h1|..];
  }

  /** The account exists, and its sequence number is what `applied` made of `start`. */
  ghost predicate SequenceIs(store: Store, id: PublicKey, start: int, applied: seq<AppliedTx>) {
    LoadAccount(store, id).Some? && LoadAccount(store, id).value.seqNum == SequenceAfter(start, applied, id)
  }

  lemma HandledSequence(o: Oracles, s: Settings, st: RpcState, a: Action, id: PublicKey)
    requires HostAssumptions(o) && Inv(o, st) && LoadAccount(st.env.store, id).Some?
    ensures var next := Handled(o, s, st, a);
            && st.history <= next.history
            && SequenceIs(next.env.store, id, LoadAccount(st.env.store, id).value.seqNum, next.history[|st.history|..])
  {
    if a.SendTransaction? {
      AppliesOrRefused(o, s, st, a.envelope);
      if Applies(o, s, st.env, a.envelope, ALL_CHECKS) {
        AppliedSequence(o, st, Received(o, s, st, a.envelope), a.envelope, FeeOf(o, s, st, a.envelope), id);
      }
    }
  }

  lemma AppliedSequence(o: Oracles, st: RpcState, next: RpcState, envelope: Envelope, fee: int, id: PublicKey)
    requires AppliedBy(o, st, next, envelope, fee) && LoadAccount(st.env.store, id).Some?
    ensures st.history <= next.history
    ensures SequenceIs(next.env.store, id, LoadAccount(st.env.store, id).value.seqNum, next.history[|st.history|..])
  {
    var ap := AppliedTx(InnerTx(envelope), st.env.ledgerSeq, st.env.timestamp, PayerOf(envelope), fee);
    assert next.history[|st.history|..] == [ap] && [ap][..0] == [];
    assert MovesOnly(st.env, next.env.store, id, InnerTx(envelope));
  }

  /**
   * However the ledger is used, an account is never lost, and its sequence
   * number is the last one applied for it: nothing else ever moves it.
   */
  lemma {:induction false} SequenceFollowsHistory(o: Oracles, s: Settings, st: RpcState, actions: seq<Action>,
                                                  id: PublicKey)
    requires HostAssumptions(o) && Inv(o, st) && LoadAccount(st.env.store, id).Some?
    ensures var after := Run(o, s, st, actions);
            && st.history <= after.history
            && SequenceIs(after.env.store, id, LoadAccount(st.env.store, id).value.seqNum,
                          after.history[|st.history|..])
    decreases |actions|
  {
    if actions == [] {
      assert st.history[|st.history|..] == [];
    } else {
      var start, next := LoadAccount(st.env.store, id).value.seqNum, Handled(o, s, st, actions[0]);
      HandledKeepsInv(o, s, st, actions[0]);
      HandledSequence(o, s, st, actions[0], id);
      SequenceFollowsHistory(o, s, next, actions[1..], id);
      SequenceChains(start, st.history, next.history, Run(o, s, st, actions).history, id);
    }
  }

  // ---- where the money goes -------------------------------------------------------------------

  /** What an account paid for these applications. */
  function FeesPaid(applied: seq<AppliedTx>, id: PublicKey): int {
    if applied == [] then 0
    else FeesPaid(applied[..|applied| - 1], id) + if applied[|applied| - 1].payer == id then applied[|applied| - 1].fee
        else 0
  }

  lemma {:induction false} FeesPaidAppend(a: seq<AppliedTx>, b: seq<AppliedTx>, id: PublicKey)
    ensures FeesPaid(a + b, id) == FeesPaid(a, id) + FeesPaid(b, id)
  {
    if b == [] {
      assert a + b == a;
    } else {
      assert (a + b)[..|a + b| - 1] == a + b[..|b| - 1];
      FeesPaidAppend(a, b[..|b| - 1], id);
    }
  }

  /** What an action brings an account beside the fees: an operation's effect, or the friendbot's funding. */
  ghost function Inflow(o: Oracles, s: Settings, st: RpcState, a: Action, id: PublicKey): int {
    match a
    case SendTransaction(envelope) =>
      if Applies(o, s, st.env, envelope, ALL_CHECKS)
      then OperationEffect(o, s, st.env, SubmissionOf(envelope, ALL_CHECKS), id) else 0
    case Friendbot(funded) => if funded == id && AccountKey(id) !in st.env.store then FRIENDBOT_BALANCE else 0
    case _ => 0
  }

  ghost function Inflows(o: Oracles, s: Settings, st: RpcState, actions: seq<Action>, id: PublicKey): int
    decreases |actions|
  {
    if actions == [] then 0
    else Inflow(o, s, st, actions[0], id) + Inflows(o, s, Handled(o, s, st, actions[0]), actions[1..], id)
  }

  /** The history only grows, and the balance moves by the fees in what it grew by and by `inflow`. */
  ghost predicate Accounted(st: RpcState, next: RpcState, id: PublicKey, inflow: int) {
    && st.history <= next.history
    && Balance(next.env.store, id) == Balance(st.env.store, id) - FeesPaid(next.history[|st.history|..], id) + inflow
  }

  lemma ReceivedBalance(o: Oracles, s: Settings, st: RpcState, envelope: Envelope, id: PublicKey)
    requires HostAssumptions(o) && FeeAssumptions(o) && WellKeyed(st.env.store)
    ensures Accounted(st, Received(o, s, st, envelope), id, Inflow(o, s, st, SendTransaction(envelope), id))
  {
    AppliesOrRefused(o, s, st, envelope);
    if Applies(o, s, st.env, envelope, ALL_CHECKS) {
      ReceivedIs(o, s, st, envelope);
      RejectedOrApplied(o, s, st.env, envelope, ALL_CHECKS);
      BalanceMoves(o, s, st.env, envelope, ALL_CHECKS, id);
      AppliedFees(o, st, Received(o, s, st, envelope), envelope, FeeOf(o, s, st, envelope), id);
    } else {
      NothingAdded(st.history);
    }
  }

  lemma NothingAdded(history: seq<AppliedTx>)
    ensures history[|history|..] == []
  {}

  lemma HandledBalance(o: Oracles, s: Settings, st: RpcState, a: Action, id: PublicKey)
    requires HostAssumptions(o) && FeeAssumptions(o) && WellKeyed(st.env.store)
    ensures Accounted(st, Handled(o, s, st, a), id, Inflow(o, s, st, a, id))
  {
    NothingAdded(st.history);
    if a.SendTransaction? { ReceivedBalance(o, s, st, a.envelope, id); }
  }

  lemma AppliedFees(o: Oracles, st: RpcState, next: RpcState, envelope: Envelope, fee: int, id: PublicKey)
    requires AppliedBy(o, st, next, envelope, fee)
    ensures st.history <= next.history
    ensures FeesPaid(next.history[|st.history|..], id) == if PayerOf(envelope) == id then fee else 0
  {
    var ap := AppliedTx(InnerTx(envelope), st.env.ledgerSeq, st.env.timestamp, PayerOf(envelope), fee);
    assert next.history[|st.history|..] == [ap] && [ap][..0] == [];
  }

  /**
   * Conservation over whole runs, for every account: its balance falls by
   * exactly the reported fees of the applications it paid for, and moves
   * otherwise only by what operations did to it and by the friendbot's funding.
   */
  lemma {:induction false} BalanceFollowsHistory(o: Oracles, s: Settings, st: RpcState, actions: seq<Action>,
                                                 id: PublicKey)
    requires HostAssumptions(o) && FeeAssumptions(o) && Inv(o, st)
    ensures Accounted(st, Run(o, s, st, actions), id, Inflows(o, s, st, actions, id))
    decreases |actions|
  {
    if actions == [] {
      NothingAdded(st.history);
    } else {
      var next := Handled(o, s, st, actions[0]);
      HandledBalance(o, s, st, actions[0], id);
      HandledKeepsInv(o, s, st, actions[0]);
      BalanceFollowsHistory(o, s, next, actions[1..], id);
      FeesChain(st.history, next.history, Run(o, s, st, actions).history, id);
    }
  }

  /** The action lets no invocation write to the account. */
  predicate Quiet(a: Action, id: PublicKey) {
    a.SendTransaction? && !a.envelope.EnvelopeV0? ==> CannotWrite(InnerTx(a.envelope), id)
  }

  /** An account that exists and that no invocation may write gets nothing, whoever else does what in between. */
  lemma {:induction false} QuietInflows(o: Oracles, s: Settings, st: RpcState, actions: seq<Action>, id: PublicKey)
    requires HostAssumptions(o) && Inv(o, st)
    requires LoadAccount(st.env.store, id).Some? && forall a :: a in actions ==> Quiet(a, id)
    ensures Inflows(o, s, st, actions, id) == 0
    decreases |actions|
  {
    if actions == [] {
    } else {
      QuietInflow(o, s, st, actions[0], id);
      HandledKeepsInv(o, s, st, actions[0]);
      HandledSequence(o, s, st, actions[0], id);
      QuietInflows(o, s, Handled(o, s, st, actions[0]), actions[1..], id);
    }
  }

  lemma QuietInflow(o: Oracles, s: Settings, st: RpcState, a: Action, id: PublicKey)
    requires HostAssumptions(o) && LoadAccount(st.env.store, id).Some? && Quiet(a, id)
    ensures Inflow(o, s, st, a, id) == 0
  {
    if a.SendTransaction? && Applies(o, s, st.env, a.envelope, ALL_CHECKS) {
      EffectIsTheInvocations(o, s, st.env, SubmissionOf(a.envelope, ALL_CHECKS), id);
    }
  }

  lemma FeesChain(h0: seq<AppliedTx>, h1: seq<AppliedTx>, h2: seq<AppliedTx>, id: PublicKey)
    requires h0 <= h1 <= h2
    ensures FeesPaid(h2[|h0|..], id) == FeesPaid(h1[|h0|..], id) + FeesPaid(h2[|h1|..], id)
  {
    FeesPaidAppend(h1[|h0|..], h2[|h1|..], id);
    assert h2[|h0|..] == h1[|h0|..] + h2[|h1|..];
  }

  // ---- sequence age ----------------------------------------------------------------------

  /** Zero bounds never refuse an account. */
  lemma ZeroBoundsNeverReject(o: Oracles, st: RpcState, tx: Transaction, id: PublicKey)
    requires Inv(o, st) && LoadAccount(st.env.store, id).Some? && MinSeqAge(tx) == 0 && MinSeqLedgerGap(tx) == 0
    ensures !TooEarlyForAccount(st.env.ledgerSeq, st.env.timestamp, tx, LoadAccount(st.env.store, id).value)
  {
    assert StampInPast(st.env, id);
  }

  /** An accepted gap and age hold against everything the source ever applied. */
  lemma AcceptedAgeIsReal(o: Oracles, s: Settings, st: RpcState, envelope: Envelope, ap: AppliedTx)
    requires Inv(o, st) && Applies(o, s, st.env, envelope, ALL_CHECKS)
    requires ap in st.history && ap.tx.source.id == InnerTx(envelope).source.id
    ensures st.env.ledgerSeq - ap.ledgerSeq >= MinSeqLedgerGap(InnerTx(envelope))
    ensures st.env.timestamp - ap.timestamp >= MinSeqAge(InnerTx(envelope))
    ensures ap.tx.seqNum < InnerTx(envelope).seqNum
  {
    var sub := SubmissionOf(envelope, ALL_CHECKS);
    AcceptedIsNewer(o, s, st.env, sub);
    AcceptedIsOldEnough(o, s, st.env, sub);
    assert Remembered(st.env.store, ap);
  }

  lemma AcceptedIsOldEnough(o: Oracles, s: Settings, e: EnvState, sub: Submission)
    requires PassesChecks(o, s, e, sub) && sub.options.timebounds
    ensures LoadAccount(e.store, SourceId(sub)).Some?
    ensures !TooEarlyForAccount(e.ledgerSeq, e.timestamp, sub.tx, LoadAccount(e.store, SourceId(sub)).value)
  {}

  lemma HandledMovesClockForward(o: Oracles, s: Settings, st: RpcState, a: Action)
    requires HostAssumptions(o) && Inv(o, st)
    ensures st.env.ledgerSeq <= Handled(o, s, st, a).env.ledgerSeq
        && st.env.timestamp <= Handled(o, s, st, a).env.timestamp
  {
    if a.SendTransaction? { AppliesOrRefused(o, s, st, a.envelope); }
  }

  /** Once too late, too late for good. */
  lemma {:induction false} TooLateForGood(o: Oracles, s: Settings, st: RpcState, actions: seq<Action>, tx: Transaction)
    requires HostAssumptions(o) && Inv(o, st)
    requires BoundsProblem(st.env.ledgerSeq, st.env.timestamp, tx) == Some(TxTooLate)
    ensures var e := Run(o, s, st, actions).env; BoundsProblem(e.ledgerSeq, e.timestamp, tx) == Some(TxTooLate)
    decreases |actions|
  {
    if actions == [] {
    } else {
      var next := Handled(o, s, st, actions[0]);
      HandledMovesClockForward(o, s, st, actions[0]);
      HandledKeepsInv(o, s, st, actions[0]);
      TooLateStaysTooLate(st.env.ledgerSeq, st.env.timestamp, next.env.ledgerSeq, next.env.timestamp, tx);
      TooLateForGood(o, s, next, actions[1..], tx);
    }
  }
}
