/** src/classic.ts: what a submission is refused for, test by test. */
module Validation {
  import opened Sequences
  import opened Xdr
  import opened Accounts
  import opened Host
  import opened Fees

  datatype Code =
    | TxSuccess | TxFailed | TxNoAccount | TxBadSeq | TxBadAuth | TxBadAuthExtra | TxTooEarly | TxTooLate
    | TxBadMinSeqAgeOrGap | TxMissingOperation | TxMalformed | TxSorobanInvalid | TxInsufficientFee
    | TxInsufficientBalance | TxFeeBumpInnerSuccess | TxFeeBumpInnerFailed

  datatype FootprintResult =
    | ExtendSuccess | ExtendMalformed | ExtendResourceLimitExceeded | ExtendInsufficientRefundableFee
    | RestoreSuccess | RestoreMalformed | RestoreResourceLimitExceeded | RestoreInsufficientRefundableFee

  // ---- preconditions -------------------------------------------------------------

  function ExtraSigners(tx: Transaction): seq<SignerKey> {
    if tx.cond.PrecondV2? then tx.cond.v2.extraSigners else []
  }

  /** Two identical extraSigners, or a signed payload that is empty. */
  predicate ExtraSignersMalformed(tx: Transaction) {
    var extra := ExtraSigners(tx);
    (|extra| == 2 && extra[0] == extra[1]) || exists k :: k in extra && k.SignedPayload? && k.payload == []
  }

  function TimeBoundsOf(tx: Transaction): Option<TimeBounds> {
    match tx.cond
    case PrecondNone => None
    case PrecondTime(tb) => Some(tb)
    case PrecondV2(v2) => v2.timeBounds
  }

  function LedgerBoundsOf(tx: Transaction): Option<LedgerBounds> {
    if tx.cond.PrecondV2? then tx.cond.v2.ledgerBounds else None
  }

  /** isTooEarly then isTooLate, each time bounds first; zero means no bound. */
  function BoundsProblem(ledgerSeq: u32, timestamp: u64, tx: Transaction): Option<Code> {
    var tb, lb := TimeBoundsOf(tx), LedgerBoundsOf(tx);
    if tb.Some? && tb.value.minTime != 0 && tb.value.minTime > timestamp then Some(TxTooEarly)
    else if lb.Some? && lb.value.minLedger > ledgerSeq then Some(TxTooEarly)
    else if tb.Some? && tb.value.maxTime != 0 && tb.value.maxTime < timestamp then Some(TxTooLate)
    else if lb.Some? && lb.value.maxLedger != 0 && lb.value.maxLedger <= ledgerSeq then Some(TxTooLate)
    else None
  }

  /** isBadSeq: the strict successor, or the range a present minSeqNum allows. */
  predicate BadSequence(tx: Transaction, currentSeq: int) {
    if tx.cond.PrecondV2? && tx.cond.v2.minSeqNum.Some?
    then currentSeq < tx.cond.v2.minSeqNum.value || currentSeq >= tx.seqNum
    else tx.seqNum != currentSeq + 1
  }

  function MinSeqAge(tx: Transaction): u64 { if tx.cond.PrecondV2? then tx.cond.v2.minSeqAge else 0 }
  function MinSeqLedgerGap(tx: Transaction): u32 { if tx.cond.PrecondV2? then tx.cond.v2.minSeqLedgerGap else 0 }

  /** isTooEarlyForAccount, against where the account's sequence last moved. */
  predicate TooEarlyForAccount(ledgerSeq: u32, timestamp: u64, tx: Transaction, a: Account) {
    var last := LastMoved(a);
    || MinSeqAge(tx) > timestamp || timestamp - MinSeqAge(tx) < last.seqTime
    || MinSeqLedgerGap(tx) > ledgerSeq || ledgerSeq - MinSeqLedgerGap(tx) < last.seqLedger
  }

  /** An envelope too late by its bounds stays so as the clock moves on. */
  lemma TooLateStaysTooLate(ledgerSeq: u32, timestamp: u64, ledgerSeq': u32, timestamp': u64, tx: Transaction)
    requires ledgerSeq <= ledgerSeq' && timestamp <= timestamp'
    requires BoundsProblem(ledgerSeq, timestamp, tx) == Some(TxTooLate)
    ensures BoundsProblem(ledgerSeq', timestamp', tx) == Some(TxTooLate)
  {}

  // ---- the declared resources -------------------------------------------------------

  predicate IsAlphaNumeric(b: bv8) { (0x61 <= b <= 0x7a) || (0x41 <= b <= 0x5a) || (0x30 <= b <= 0x39) }

  /** `n` letters and digits, then zeros only. */
  predicate ZeroPadded(code: Bytes, n: nat) {
    n <= |code| && (forall i :: 0 <= i < n ==> IsAlphaNumeric(code[i]))
        && (forall i :: n <= i < |code| ==> code[i] == 0)
  }

  predicate AssetCodeValid(code: Bytes, least: nat) {
    exists n :: least <= n <= |code| && ZeroPadded(code, n)
  }

  predicate TrustLineAssetValid(a: TrustLineAsset) {
    match a
    case Native => true
    case PoolShare(_) => true
    case Alphanum4(code, _) => AssetCodeValid(code, 1)
    case Alphanum12(code, _) => AssetCodeValid(code, 5)
  }

  predicate IsIssuerOf(id: PublicKey, a: TrustLineAsset) {
    (a.Alphanum4? && a.issuer4 == id) || (a.Alphanum12? && a.issuer12 == id)
  }

  predicate KeyProblem(s: FeeSettings, key: LedgerKey) {
    || key.UnsupportedKey?
    || (key.TrustLineKey? && (!TrustLineAssetValid(key.asset) || key.asset.Native? || IsIssuerOf(key.id, key.asset)))
    || KeySize(key) > s.maxContractDataKeySizeBytes
  }

  /** getNumDiskReadEntries as src/classic.ts counts it: over the two lists joined. */
  function DiskReadEntries(data: SorobanData, isRestore: bool): nat {
    if isRestore then |data.resources.readWrite|
    else |Filter(ClassicKey(), FootprintKeys(data.resources))| + |ArchivedIndexes(data)|
  }

  /** Strictly increasing indexes of persistent read-write entries. */
  ghost predicate ArchivedOk(archived: seq<u32>, readWrite: seq<LedgerKey>) {
    && (forall i, j :: 0 <= i < j < |archived| ==> archived[i] < archived[j])
    && (forall i :: 0 <= i < |archived| ==> archived[i] < |readWrite| && IsPersistentKey(readWrite[archived[i]]))
  }

  /** The `last` loop: it compares neighbours only. */
  method CheckArchived(archived: seq<u32>, readWrite: seq<LedgerKey>) returns (ok: bool)
    ensures ok <==> ArchivedOk(archived, readWrite)
  {
    var last: Option<u32> := None;
    for k := 0 to |archived|
      invariant ArchivedOk(archived[..k], readWrite)
      invariant last == if k == 0 then None else Some(archived[k - 1])
    {
      var index := archived[k];
      if last.Some? && index <= last.value { return false; }
      last := Some(index);
      if index >= |readWrite| { return false; }
      if !IsPersistentKey(readWrite[index]) { return false; }
      assert forall i :: 0 <= i < k ==> archived[..k + 1][i] == archived[..k][i];
      assert forall i :: 0 <= i < k ==> archived[..k][i] <= archived[..k][k - 1] < index;
    }
    assert archived[..|archived|] == archived;
    ok := true;
  }

  /** sorobanResourcesProblem finds nothing. */
  ghost predicate ResourcesOk(s: FeeSettings, data: SorobanData, txSize: nat, isRestore: bool) {
    var r := data.resources;
    && r.instructions <= s.txMaxInstructions
    && r.diskReadBytes <= s.txMaxDiskReadBytes
    && r.writeBytes <= s.txMaxWriteBytes
    && |r.readOnly| + |r.readWrite| <= s.txMaxFootprintEntries
    && DiskReadEntries(data, isRestore) <= s.txMaxDiskReadEntries
    && |r.readWrite| <= s.txMaxWriteLedgerEntries
    && (forall key :: key in FootprintKeys(r) ==> !KeyProblem(s, key))
    && txSize <= s.txMaxSizeBytes
    && ArchivedOk(ArchivedIndexes(data), r.readWrite)
  }

  method CheckResources(s: FeeSettings, data: SorobanData, txSize: nat, isRestore: bool) returns (ok: bool)
    ensures ok <==> ResourcesOk(s, data, txSize, isRestore)
  {
    var r := data.resources;
    if r.instructions > s.txMaxInstructions || r.diskReadBytes > s.txMaxDiskReadBytes
        || r.writeBytes > s.txMaxWriteBytes {
      return false;
    }
    if |r.readOnly| + |r.readWrite| > s.txMaxFootprintEntries { return false; }
    if DiskReadEntries(data, isRestore) > s.txMaxDiskReadEntries { return false; }
    if |r.readWrite| > s.txMaxWriteLedgerEntries { return false; }
    var keys := FootprintKeys(r);
    for k := 0 to |keys|
      invariant forall j :: 0 <= j < k ==> !KeyProblem(s, keys[j])
    {
      if KeyProblem(s, keys[k]) { return false; }
    }
    if txSize > s.txMaxSizeBytes { return false; }
    ok := CheckArchived(ArchivedIndexes(data), r.readWrite);
  }

  lemma {:induction false} ArchivedAreNotClassic(archived: seq<u32>, readWrite: seq<LedgerKey>)
    requires ArchivedOk(archived, readWrite)
    ensures |Filter(ClassicKey(), readWrite)| + |archived| <= |readWrite|
  {
    if archived == [] {
    } else {
      var n, last := |readWrite| - 1, archived[|archived| - 1];
      FilterSnoc(ClassicKey(), readWrite, n);
      assert readWrite[..n + 1] == readWrite;
      if last == n {
        ArchivedAreNotClassic(archived[..|archived| - 1], readWrite[..n]);
      } else {
        ArchivedAreNotClassic(archived, readWrite[..n]);
      }
    }
  }

  /** The two languages count disk reads alike, and accepted resources never count past the footprint. */
  lemma DiskReadsCounted(s: FeeSettings, data: SorobanData, txSize: nat, isRestore: bool)
    ensures DiskReadEntries(data, isRestore) == NumDiskReadEntries(data, isRestore)
    ensures ResourcesOk(s, data, txSize, isRestore)
        ==> DiskReadEntries(data, isRestore) <= |FootprintKeys(data.resources)|
  {
    FilterAppend(ClassicKey(), data.resources.readOnly, data.resources.readWrite);
    if ResourcesOk(s, data, txSize, isRestore) {
      ArchivedAreNotClassic(ArchivedIndexes(data), data.resources.readWrite);
    }
  }

  // ---- the operation's own shape -----------------------------------------------------

  /** XDRProvidesValidFee: judged by the first operation. */
  predicate InvalidXdrFee(tx: Transaction) {
    tx.operations != [] && IsSorobanOp(tx.operations[0]) &&
      (tx.ext.None? || !(0 <= tx.ext.value.resourceFee <= MAX_RESOURCE_FEE))
  }

  /** validateSorobanMemo, for InvokeHostFunction only. */
  predicate MemoOrMuxed(tx: Transaction, op: Operation) {
    op.body.InvokeHostFunction? &&
      (!tx.memo.MemoNone? || tx.source.MuxedId? || (op.source.Some? && op.source.value.MuxedId?))
  }

  function FootprintOpMalformed(s: Settings, op: Operation, r: Resources): Option<FootprintResult> {
    match op.body
    case ExtendFootprintTtl(extendTo) =>
      if r.readWrite != [] || (exists k :: k in r.readOnly && !IsTtlKey(k)) || extendTo > s.maxEntryTtl - 1
      then Some(ExtendMalformed) else None
    case RestoreFootprint =>
      if r.readOnly != [] || (exists k :: k in r.readWrite && !IsPersistentKey(k)) then Some(RestoreMalformed) else None
    case _ => None
  }
}
