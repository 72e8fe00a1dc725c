/**
 * What the engine calls but does not contain: the cryptography, the Soroban
 * host, its fee formulas and its Wasm parser, as functions with stated assumptions.
 */
module Host {
  import opened Xdr
  import opened Signatures
  import opened Accounts

  /** NetworkFeeSettings: the limits by name, the rates as one opaque value. */
  datatype FeeSettings = FeeSettings(
    txMaxInstructions: int,
    txMemoryLimit: u32,
    txMaxDiskReadEntries: nat,
    txMaxDiskReadBytes: nat,
    txMaxWriteLedgerEntries: nat,
    txMaxWriteBytes: nat,
    txMaxFootprintEntries: nat,
    txMaxContractEventsSizeBytes: u32,
    txMaxSizeBytes: nat,
    maxContractSizeBytes: u32,
    maxContractDataKeySizeBytes: u32,
    maxContractDataEntrySizeBytes: u32,
    rates: seq<int>)

  /** State-archival TTLs are at least 1: setArchivalSettings refuses 0. */
  type ttl32 = x: int | 1 <= x <= 0xFFFF_FFFF witness 1

  datatype Settings = Settings(
    fees: FeeSettings,
    minPersistentTtl: ttl32,
    maxEntryTtl: ttl32,
    enforceDeclaredResources: bool,
    enforceDeclaredBytes: bool)
  {
    predicate ChecksDeclaredBytes() { enforceDeclaredResources && enforceDeclaredBytes }
  }

  datatype TransactionResources = TransactionResources(
    instructions: u32,
    diskReadEntries: nat,
    writeEntries: nat,
    diskReadBytes: u32,
    writeBytes: u32,
    eventsSize: u32,
    transactionSize: u32)

  datatype ResourceFee = ResourceFee(nonRefundable: int, refundable: int)

  datatype RentChange = RentChange(
    isPersistent: bool,
    isCode: bool,
    oldSize: u32,
    newSize: u32,
    oldLiveUntil: u32,
    newLiveUntil: u32)

  datatype TtlMeta = TtlMeta(liveUntil: u32, rentSize: u32)

  /** One item of the list the host zips against the footprint. */
  datatype HostItem = HostItem(entry: Option<LedgerEntry>, ttl: Option<TtlMeta>)

  datatype Module = Module(id: nat)
  type ModuleCache = map<Bytes32, Module>

  datatype HostInput = HostInput(
    hostFn: Bytes,
    resources: Resources,
    restored: seq<nat>,
    source: PublicKey,
    auth: seq<Bytes>,
    instructionLimit: int,
    ledgerSeq: u32,
    timestamp: u64,
    items: seq<HostItem>,
    cache: ModuleCache)

  datatype LedgerChange = LedgerChange(
    key: LedgerKey,
    readOnly: bool,
    newValue: Option<LedgerEntry>,
    newLiveUntil: Option<u32>)

  /** `value` is the invocation's result, None when it trapped; an error has no changes at all. */
  datatype HostOutcome =
    | HostError(cpu: nat, mem: nat)
    | HostDone(value: Option<Bytes>, changes: seq<LedgerChange>, events: seq<Bytes>, cpu: nat, mem: nat)

  datatype Oracles = Oracles(
    crypto: Crypto,
    txHash: Transaction -> Bytes,
    bumpHash: (Muxed, int, Transaction, seq<DecoratedSignature>) -> Bytes,
    resourceFee: (FeeSettings, TransactionResources) -> ResourceFee,
    rentFee: (FeeSettings, seq<RentChange>, u32) -> int,
    rentSize: LedgerEntry -> u32,
    extractRent: seq<LedgerChange> -> seq<RentChange>,
    parse: Bytes -> Option<Module>,
    keyLe: (LedgerKey, LedgerKey) -> bool,
    invoke: HostInput -> HostOutcome)

  ghost predicate NoMoreThan(a: TransactionResources, b: TransactionResources) {
    && a.instructions <= b.instructions && a.diskReadEntries <= b.diskReadEntries
    && a.writeEntries <= b.writeEntries && a.diskReadBytes <= b.diskReadBytes
    && a.writeBytes <= b.writeBytes && a.eventsSize <= b.eventsSize
    && a.transactionSize <= b.transactionSize
  }

  /** Fees are not negative and grow with every resource; the refundable half prices the events alone. */
  ghost predicate FeeAssumptions(o: Oracles) {
    && (forall s, a, b :: NoMoreThan(a, b) ==>
          o.resourceFee(s, a).nonRefundable <= o.resourceFee(s, b).nonRefundable
          && o.resourceFee(s, a).refundable <= o.resourceFee(s, b).refundable)
    && (forall s, a: TransactionResources, b: TransactionResources :: a.eventsSize == b.eventsSize ==>
          o.resourceFee(s, a).refundable == o.resourceFee(s, b).refundable)
    && (forall s, a :: o.resourceFee(s, a).refundable >= 0 && o.resourceFee(s, a).nonRefundable >= 0)
    && (forall s, changes, seq32 :: o.rentFee(s, changes, seq32) >= 0)
  }

  function FootprintKeys(r: Resources): seq<LedgerKey> { r.readOnly + r.readWrite }

  /** The entry handed over for `key`: the item at its first position. */
  function Supplied(keys: seq<LedgerKey>, items: seq<HostItem>, key: LedgerKey): Option<LedgerEntry> {
    if keys == [] || items == [] then None
    else if keys[0] == key then items[0].entry
    else Supplied(keys[1..], items[1..], key)
  }

  /** The host never removes an account, leaves its identity alone, and stamps none it creates. */
  ghost predicate KeepsAccount(input: HostInput, ch: LedgerChange) {
    match Supplied(FootprintKeys(input.resources), input.items, ch.key)
    case Some(e) =>
      e.data.AccountData? ==>
        ch.newValue.Some? && ch.newValue.value.data.AccountData?
        && SameIdentity(e.data.account, ch.newValue.value.data.account)
    case None =>
      ch.newValue.Some? && ch.newValue.value.data.AccountData? ==>
        StampOf(ch.newValue.value.data.account).None?
  }

  /** A change names a footprint key, carries that key's entry, and a read-only one carries none. */
  ghost predicate StaysInFootprint(input: HostInput, ch: LedgerChange) {
    && (ch.readOnly ==> ch.key in input.resources.readOnly && ch.newValue.None?)
    && (!ch.readOnly ==> ch.key in input.resources.readWrite)
    && (ch.newValue.Some? ==> KeyOf(ch.newValue.value) == ch.key)
  }

  ghost predicate HostAssumptions(o: Oracles) {
    forall input, ch :: o.invoke(input).HostDone? && ch in o.invoke(input).changes ==>
      StaysInFootprint(input, ch) && (ch.key.AccountKey? && !ch.readOnly ==> KeepsAccount(input, ch))
  }
}
