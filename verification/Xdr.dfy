/**
 * The ledger's entities as values, with their XDR sizes (RFC 4506, section 4).
 * Host functions, authorization entries, ScAddress and ScVal stay XDR bytes.
 */
module Xdr {
  import opened Sequences

  datatype Option<+T> = None | Some(value: T) {
    function GetOr(default: T): T { if Some? then value else default }
  }

  const U32_MAX: int := 0xFFFF_FFFF
  const U64_MAX: int := 0xFFFF_FFFF_FFFF_FFFF

  type u8 = x: int | 0 <= x <= 0xFF
  type u32 = x: int | 0 <= x <= 0xFFFF_FFFF
  type u64 = x: int | 0 <= x <= 0xFFFF_FFFF_FFFF_FFFF

  type Bytes = seq<bv8>
  type Bytes32 = b: Bytes | |b| == 32 witness seq(32, i => 0)
  type PublicKey = Bytes32

  function Min(a: int, b: int): int { if a < b then a else b }
  function Max(a: int, b: int): int { if a < b then b else a }

  /** u32::saturating_add. */
  function SatAdd32(a: u32, b: u32): (r: u32)
    ensures r == if a + b <= U32_MAX then a + b else U32_MAX
  {
    Min(a + b, U32_MAX)
  }

  /** u32::saturating_sub. */
  function SatSub32(a: u32, b: u32): (r: u32)
    ensures r == if a < b then 0 else a - b
  {
    Max(a - b, 0)
  }

  /** u32::try_from(n).unwrap_or(u32::MAX). */
  function Clamp32(n: nat): u32 { Min(n, U32_MAX) }

  /** What a JavaScript number becomes when wasm-bindgen passes it as a u32. */
  function Wrap32(x: int): (r: u32)
    ensures 0 <= x <= U32_MAX ==> r == x
  {
    x % 0x1_0000_0000
  }

  // ---- signers and accounts ------------------------------------------------

  datatype SignerKey =
    | Ed25519(key: PublicKey)
    | PreAuthTx(preAuthTx: Bytes32)
    | HashX(hashX: Bytes32)
    | SignedPayload(payloadKey: PublicKey, payload: Bytes)

  datatype Signer = Signer(key: SignerKey, weight: u32)

  datatype Thresholds = Thresholds(master: u8, low: u8, medium: u8, high: u8)

  datatype AccountExt = ExtV0 | ExtV1(buying: int, selling: int, ext1: AccountExt1)
  datatype AccountExt1 =
    | Ext1V0
    | Ext1V2(numSponsored: u32, numSponsoring: u32, sponsors: seq<Option<PublicKey>>, ext2: AccountExt2)
  datatype AccountExt2 = Ext2V0 | Ext2V3(stamp: SequenceStamp)
  /** AccountEntryExtensionV3: where the account's sequence number last moved. */
  datatype SequenceStamp = SequenceStamp(seqLedger: u32, seqTime: u64)

  datatype Account = Account(
    id: PublicKey,
    balance: int,
    seqNum: int,
    numSubEntries: u32,
    inflationDest: Option<PublicKey>,
    flags: u32,
    homeDomain: Bytes,
    thresholds: Thresholds,
    signers: seq<Signer>,
    ext: AccountExt)

  // ---- ledger keys and entries ---------------------------------------------

  datatype Durability = Temporary | Persistent

  datatype TrustLineAsset =
    | Native
    | Alphanum4(code4: Bytes, issuer4: PublicKey)
    | Alphanum12(code12: Bytes, issuer12: PublicKey)
    | PoolShare(pool: Bytes32)

  datatype LedgerKey =
    | AccountKey(id: PublicKey)
    | TrustLineKey(id: PublicKey, asset: TrustLineAsset)
    | DataKey(contract: Bytes, key: Bytes, durability: Durability)
    | CodeKey(hash: Bytes32)
    | UnsupportedKey(entryType: nat)

  datatype EntryData =
    | AccountData(account: Account)
    | TrustLineData(id: PublicKey, asset: TrustLineAsset, rest: Bytes)
    | ContractData(contract: Bytes, key: Bytes, durability: Durability, val: Bytes)
    | ContractCode(hash: Bytes32, costInputs: Bytes, code: Bytes)

  datatype LedgerEntry = LedgerEntry(lastModified: u32, data: EntryData)

  datatype Stored = Stored(entry: LedgerEntry, ttl: Option<u32>)
  type Store = map<LedgerKey, Stored>

  function KeyOf(e: LedgerEntry): LedgerKey {
    match e.data
    case AccountData(a) => AccountKey(a.id)
    case TrustLineData(id, asset, _) => TrustLineKey(id, asset)
    case ContractData(contract, key, durability, _) => DataKey(contract, key, durability)
    case ContractCode(hash, _, _) => CodeKey(hash)
  }

  /** Every entry lies under its own key, as putEntry stores it. */
  ghost predicate WellKeyed(store: Store) {
    forall k :: k in store ==> KeyOf(store[k].entry) == k
  }

  /** The keys with a TTL: contract data and contract code. */
  predicate IsTtlKey(k: LedgerKey) { k.DataKey? || k.CodeKey? }

  predicate IsTemporaryKey(k: LedgerKey) { k.DataKey? && k.durability == Temporary }

  predicate IsPersistentKey(k: LedgerKey) { k.CodeKey? || (k.DataKey? && k.durability == Persistent) }

  // ---- transactions --------------------------------------------------------

  datatype Muxed = Plain(id: PublicKey) | MuxedId(id: PublicKey, mux: u64)

  datatype TimeBounds = TimeBounds(minTime: u64, maxTime: u64)
  datatype LedgerBounds = LedgerBounds(minLedger: u32, maxLedger: u32)

  datatype PreconditionsV2 = PreconditionsV2(
    timeBounds: Option<TimeBounds>,
    ledgerBounds: Option<LedgerBounds>,
    minSeqNum: Option<int>,
    minSeqAge: u64,
    minSeqLedgerGap: u32,
    extraSigners: seq<SignerKey>)

  datatype Preconditions = PrecondNone | PrecondTime(timeBounds: TimeBounds) | PrecondV2(v2: PreconditionsV2)

  datatype Memo =
    | MemoNone
    | MemoText(text: Bytes)
    | MemoId(id: u64)
    | MemoHash(hash: Bytes32)
    | MemoReturn(hash: Bytes32)

  datatype OperationBody =
    | InvokeHostFunction(hostFn: Bytes, auth: seq<Bytes>)
    | ExtendFootprintTtl(extendTo: u32)
    | RestoreFootprint
    | ClassicOperation(body: Bytes)

  datatype Operation = Operation(source: Option<Muxed>, body: OperationBody)

  datatype Resources = Resources(
    readOnly: seq<LedgerKey>,
    readWrite: seq<LedgerKey>,
    instructions: u32,
    diskReadBytes: u32,
    writeBytes: u32)

  datatype SorobanData = SorobanData(resources: Resources, resourceFee: int, archived: Option<seq<u32>>)

  datatype Transaction = Transaction(
    source: Muxed,
    fee: u32,
    seqNum: int,
    cond: Preconditions,
    memo: Memo,
    operations: seq<Operation>,
    ext: Option<SorobanData>)

  datatype DecoratedSignature = DecoratedSignature(hint: Bytes, signature: Bytes)

  datatype Envelope =
    | EnvelopeV0
    | EnvelopeV1(tx: Transaction, signatures: seq<DecoratedSignature>)
    | EnvelopeFeeBump(
        feeSource: Muxed,
        fee: int,
        inner: Transaction,
        innerSignatures: seq<DecoratedSignature>,
        signatures: seq<DecoratedSignature>)

  predicate IsSorobanOp(op: Operation) { !op.body.ClassicOperation? }

  function ArchivedIndexes(data: SorobanData): seq<u32> {
    if data.archived.Some? then data.archived.value else []
  }

  // ---- XDR sizes -----------------------------------------------------------

  /** Variable-length opaque data: its length word and the padded bytes. */
  function VarOpaque(n: nat): nat { 4 + Padded(n) }

  function Padded(n: nat): (r: nat)
    ensures n <= r < n + 4 && r % 4 == 0
  {
    (n + 3) / 4 * 4
  }

  function SignerKeySize(k: SignerKey): nat {
    if k.SignedPayload? then 36 + VarOpaque(|k.payload|) else 36
  }

  function SignerSize(): Signer -> nat { (s: Signer) => SignerKeySize(s.key) + 4 }

  function OptionalKeySize(id: Option<PublicKey>): nat { if id.Some? then 40 else 4 }

  function SponsorSize(): Option<PublicKey> -> nat { (id: Option<PublicKey>) => OptionalKeySize(id) }

  function AccountSize(a: Account): nat {
    36 + 8 + 8 + 4 + OptionalKeySize(a.inflationDest) + 4 + VarOpaque(|a.homeDomain|) + 4
    + 4 + Sum(SignerSize(), a.signers) + ExtSize(a.ext)
  }

  function ExtSize(e: AccountExt): nat { if e.ExtV0? then 4 else 4 + 16 + Ext1Size(e.ext1) }

  function Ext1Size(e: AccountExt1): nat {
    if e.Ext1V0? then 4 else 4 + 8 + 4 + Sum(SponsorSize(), e.sponsors) + Ext2Size(e.ext2)
  }

  function Ext2Size(e: AccountExt2): nat { if e.Ext2V0? then 4 else 4 + 16 }

  function AssetSize(a: TrustLineAsset): nat {
    match a
    case Native => 4
    case Alphanum4(_, _) => 44
    case Alphanum12(_, _) => 52
    case PoolShare(_) => 36
  }

  function KeySize(k: LedgerKey): nat {
    match k
    case AccountKey(_) => 40
    case TrustLineKey(_, asset) => 40 + AssetSize(asset)
    case DataKey(contract, key, _) => 8 + |contract| + |key|
    case CodeKey(_) => 36
    case UnsupportedKey(_) => 4
  }

  function KeySizes(): LedgerKey -> nat { (k: LedgerKey) => KeySize(k) }

  function EntrySize(e: LedgerEntry): nat {
    12 + match e.data
    case AccountData(a) => AccountSize(a)
    case TrustLineData(_, asset, rest) => 36 + AssetSize(asset) + |rest|
    case ContractData(contract, key, _, val) => 8 + |contract| + |key| + |val|
    case ContractCode(_, costInputs, code) => 36 + |costInputs| + VarOpaque(|code|)
  }

  function MuxedSize(m: Muxed): nat { if m.MuxedId? then 44 else 36 }

  function PreconditionsSize(c: Preconditions): nat {
    match c
    case PrecondNone => 4
    case PrecondTime(_) => 20
    case PrecondV2(v2) =>
      4
      + (if v2.timeBounds.Some? then 20 else 4)
      + (if v2.ledgerBounds.Some? then 12 else 4)
      + (if v2.minSeqNum.Some? then 12 else 4)
      + 8 + 4 + 4 + Sum(SignerKeySizes(), v2.extraSigners)
  }

  function SignerKeySizes(): SignerKey -> nat { (k: SignerKey) => SignerKeySize(k) }

  function MemoSize(m: Memo): nat {
    match m
    case MemoNone => 4
    case MemoText(text) => 4 + VarOpaque(|text|)
    case MemoId(_) => 12
    case MemoHash(_) => 36
    case MemoReturn(_) => 36
  }

  function ByteCount(): Bytes -> nat { (b: Bytes) => |b| }

  function BodySize(b: OperationBody): nat {
    match b
    case InvokeHostFunction(hostFn, auth) => 4 + |hostFn| + 4 + Sum(ByteCount(), auth)
    case ExtendFootprintTtl(_) => 12
    case RestoreFootprint => 8
    case ClassicOperation(body) => 4 + |body|
  }

  function OperationSize(op: Operation): nat {
    (if op.source.Some? then 4 + MuxedSize(op.source.value) else 4) + BodySize(op.body)
  }

  function OperationSizes(): Operation -> nat { (op: Operation) => OperationSize(op) }

  function FootprintSize(r: Resources): nat {
    4 + Sum(KeySizes(), r.readOnly) + 4 + Sum(KeySizes(), r.readWrite)
  }

  function SorobanDataSize(d: SorobanData): nat {
    4 + (if d.archived.Some? then 4 + 4 * |d.archived.value| else 0) + FootprintSize(d.resources) + 12 + 8
  }

  function TransactionSize(tx: Transaction): nat {
    MuxedSize(tx.source) + 4 + 8 + PreconditionsSize(tx.cond) + MemoSize(tx.memo)
    + 4 + Sum(OperationSizes(), tx.operations)
    + 4 + (if tx.ext.Some? then SorobanDataSize(tx.ext.value) else 0)
  }

  function SignatureSizes(): DecoratedSignature -> nat {
    (s: DecoratedSignature) => 4 + VarOpaque(|s.signature|)
  }

  /** A TransactionV1Envelope: what TransactionEnvelope holds after its type word. */
  function V1Size(tx: Transaction, signatures: seq<DecoratedSignature>): nat {
    TransactionSize(tx) + 4 + Sum(SignatureSizes(), signatures)
  }

  /** The TransactionEnvelope a submission carries. */
  function EnvelopeV1Size(tx: Transaction, signatures: seq<DecoratedSignature>): nat {
    4 + V1Size(tx, signatures)
  }

  /** The limits XDR itself puts on a v1 envelope. */
  ghost predicate WithinXdrLimits(tx: Transaction, signatures: seq<DecoratedSignature>) {
    && |signatures| <= 20
    && (forall s :: s in signatures ==> |s.signature| <= 64)
    && (tx.memo.MemoText? ==> |tx.memo.text| <= 28)
    && (tx.cond.PrecondV2? ==>
          && |tx.cond.v2.extraSigners| <= 2
          && forall k :: k in tx.cond.v2.extraSigners ==> k.SignedPayload? ==> |k.payload| <= 64)
  }
}
