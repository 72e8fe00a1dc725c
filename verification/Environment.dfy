/**
 * crates/host-wasm/src/lib.rs: the enforcing ledger. `send` loads a positional
 * list for the host, prepares the module cache and merges what the host changed.
 */
module Environment {
  import opened Sequences
  import opened Xdr
  import opened Accounts
  import opened Host
  import opened Fees

  datatype LedgerSnapshot = LedgerSnapshot(store: Store, ledgerSeq: u32, timestamp: u64, prngCounter: u64)

  /** Everything a SorobanEnv changes. */
  datatype EnvState = EnvState(
    store: Store,
    ledgerSeq: u32,
    timestamp: u64,
    prngCounter: u64,
    snapshots: seq<LedgerSnapshot>,
    moduleCache: Option<ModuleCache>)

  predicate Expired(ttl: Option<u32>, ledgerSeq: u32) { ttl.Some? && ttl.value < ledgerSeq }

  /** validate_contract_ledger_entry refuses the entry. */
  predicate Oversize(s: FeeSettings, key: LedgerKey, size: nat) {
    (key.CodeKey? && s.maxContractSizeBytes < size) || (key.DataKey? && s.maxContractDataEntrySizeBytes < size)
  }

  // ---- loading the footprint ---------------------------------------------------

  datatype SendRequest = SendRequest(
    hostFn: Bytes,
    source: PublicKey,
    resources: Resources,
    auth: seq<Bytes>,
    restored: seq<nat>,
    maxRefundable: Option<int>)

  function RestoredKeys(r: Resources, restored: seq<nat>): set<LedgerKey> {
    set i | i in restored && i < |r.readWrite| :: r.readWrite[i]
  }

  /** One call's view of the ledger while its footprint loads. */
  datatype Loading = Loading(o: Oracles, s: Settings, store: Store, ledgerSeq: u32, restored: set<LedgerKey>) {

    /** The TTL a restored entry is handed over with. */
    function RestoredLiveUntil(): u32 { SatSub32(SatAdd32(ledgerSeq, s.minPersistentTtl), 1) }

    /** Stored, and not a temporary entry past its TTL. */
    predicate Present(key: LedgerKey) {
      key in store && !(IsTemporaryKey(key) && Expired(store[key].ttl, ledgerSeq))
    }

    predicate Archived(key: LedgerKey)
      requires key in store
    {
      IsTtlKey(key) && key !in restored && Expired(store[key].ttl, ledgerSeq)
    }

    function Item(key: LedgerKey): HostItem {
      if !Present(key) then HostItem(None, None)
      else
        var e := store[key];
        var liveUntil := if key in restored then RestoredLiveUntil() else if e.ttl.Some? then e.ttl.value
            else ledgerSeq;
        HostItem(Some(e.entry), if IsTtlKey(key) then Some(TtlMeta(liveUntil, o.rentSize(e.entry))) else None)
    }

    /** The network's size limit stops the load at this key. */
    predicate TooLarge(key: LedgerKey) {
      Present(key) && !Archived(key) && Oversize(s.fees, key, EntrySize(store[key].entry))
    }

    /** Classic and restored entries are disk reads; live Soroban state is in memory. */
    function DiskBytes(): LedgerKey -> nat {
      (key: LedgerKey) =>
        if s.ChecksDeclaredBytes() && Present(key) && (!IsTtlKey(key) || key in restored)
        then Clamp32(EntrySize(store[key].entry)) else 0
    }

    function Items(keys: seq<LedgerKey>): (r: seq<HostItem>)
      ensures |r| == |keys| && forall k :: 0 <= k < |keys| ==> r[k] == Item(keys[k])
    {
      seq(|keys|, k requires 0 <= k < |keys| => Item(keys[k]))
    }

    ghost predicate AnyTooLarge(keys: seq<LedgerKey>) { exists key :: key in keys && TooLarge(key) }

    /** Loading stops before the host runs: an oversize entry, or more disk bytes than declared. */
    ghost predicate Fails(keys: seq<LedgerKey>, declared: u32) {
      || AnyTooLarge(keys)
      || Min(Sum(DiskBytes(), keys), U32_MAX) > declared
    }

    /** Code the cache must hold for the call, and code the call restores. */
    function LiveCode(): LedgerKey -> bool {
      (key: LedgerKey) => key.CodeKey? && key in store && key !in restored && !Expired(store[key].ttl, ledgerSeq)
    }

    function RestoredCode(): LedgerKey -> bool {
      (key: LedgerKey) => key.CodeKey? && key in store && key in restored
    }

    /** What the load loop holds after `keys`. */
    ghost predicate Loaded(keys: seq<LedgerKey>, items: seq<HostItem>, live: seq<LedgerKey>,
                           restoredCode: seq<LedgerKey>,
                           diskReadBytes: u32, declared: u32) {
      && items == Items(keys)
      && live == Filter(LiveCode(), keys)
      && restoredCode == Filter(RestoredCode(), keys)
      && diskReadBytes == Min(Sum(DiskBytes(), keys), U32_MAX) <= declared
      && !AnyTooLarge(keys)
    }

    lemma LoadedNext(keys: seq<LedgerKey>, k: nat, items: seq<HostItem>, live: seq<LedgerKey>,
                     restoredCode: seq<LedgerKey>,
                     diskReadBytes: u32, declared: u32)
      requires k < |keys| && Loaded(keys[..k], items, live, restoredCode, diskReadBytes, declared)
      requires !TooLarge(keys[k])
      requires SatAdd32(diskReadBytes, Clamp32(DiskBytes()(keys[k]))) <= declared
      ensures Loaded(keys[..k + 1], items + [Item(keys[k])],
                     live + if LiveCode()(keys[k]) then [keys[k]] else [],
                     restoredCode + if RestoredCode()(keys[k]) then [keys[k]] else [],
                     SatAdd32(diskReadBytes, Clamp32(DiskBytes()(keys[k]))), declared)
    {
      assert keys[..k + 1] == keys[..k] + [keys[k]];
      SumSnoc(DiskBytes(), keys, k);
      FilterSnoc(LiveCode(), keys, k);
      FilterSnoc(RestoredCode(), keys, k);
      assert Items(keys[..k + 1]) == Items(keys[..k]) + [Item(keys[k])];
    }

    lemma FailsAt(keys: seq<LedgerKey>, k: nat, declared: u32)
      requires k < |keys|
      requires TooLarge(keys[k])
            || SatAdd32(Min(Sum(DiskBytes(), keys[..k]), U32_MAX), Clamp32(DiskBytes()(keys[k]))) > declared
      ensures Fails(keys, declared)
    {
      SumSnoc(DiskBytes(), keys, k);
      SumPrefix(DiskBytes(), keys, k + 1);
    }

    /** One key of the load loop. */
    method LoadKey(key: LedgerKey, before: u32, declared: u32)
      returns (ok: bool, item: HostItem, diskReadBytes: u32, live: bool, restoredCode: bool)
      requires before <= declared
      ensures ok <==> !TooLarge(key) && SatAdd32(before, Clamp32(DiskBytes()(key))) <= declared
      ensures ok ==> item == Item(key) && diskReadBytes == SatAdd32(before, Clamp32(DiskBytes()(key)))
      ensures ok ==> live == LiveCode()(key) && restoredCode == RestoredCode()(key)
    {
      ok, item, diskReadBytes, live, restoredCode := true, HostItem(None, None), before, false, false;
      if key !in store { return; }
      var e := store[key];
      if IsTemporaryKey(key) && Expired(e.ttl, ledgerSeq) { return; }
      if key.CodeKey? {
        if key in restored {
          restoredCode := true;
        } else if !Expired(e.ttl, ledgerSeq) {
          live := true;
        }
      }
      var size := EntrySize(e.entry);
      if !Archived(key) && Oversize(s.fees, key, size) {
        ok := false;
        return;
      }
      if s.ChecksDeclaredBytes() && (!IsTtlKey(key) || key in restored) {
        diskReadBytes := SatAdd32(diskReadBytes, Clamp32(size));
        if declared < diskReadBytes {
          ok := false;
          return;
        }
      }
      var ttl := None;
      if IsTtlKey(key) {
        var liveUntil := ledgerSeq;
        if key in restored {
          liveUntil := RestoredLiveUntil();
        } else if e.ttl.Some? {
          liveUntil := e.ttl.value;
        }
        ttl := Some(TtlMeta(liveUntil, o.rentSize(e.entry)));
      }
      item := HostItem(Some(e.entry), ttl);
    }

    /** The load loop of `send`. */
    method Load(keys: seq<LedgerKey>, declared: u32)
      returns (ok: bool, items: seq<HostItem>, live: seq<LedgerKey>, restoredCode: seq<LedgerKey>)
      ensures ok <==> !Fails(keys, declared)
      ensures ok ==> items == Items(keys)
      ensures ok ==> live == Filter(LiveCode(), keys) && restoredCode == Filter(RestoredCode(), keys)
    {
      items, live, restoredCode := [], [], [];
      var diskReadBytes: u32 := 0;
      for k := 0 to |keys|
        invariant Loaded(keys[..k], items, live, restoredCode, diskReadBytes, declared)
      {
        var fits, item, after, isLive, isRestored := LoadKey(keys[k], diskReadBytes, declared);
        if !fits {
          FailsAt(keys, k, declared);
          return false, [], [], [];
        }
        LoadedNext(keys, k, items, live, restoredCode, diskReadBytes, declared);
        items, diskReadBytes := items + [item], after;
        live := live + if isLive then [keys[k]] else [];
        restoredCode := restoredCode + if isRestored then [keys[k]] else [];
      }
      assert keys[..|keys|] == keys;
      ok := true;
    }
  }

  // ---- the module cache ----------------------------------------------------------

  /** parse_and_cache_module_simple, for code the cache does not hold yet: it keys by the code's own hash. */
  function AddModule(o: Oracles, cache: ModuleCache, hash: Bytes32, e: LedgerEntry): ModuleCache {
    if hash in cache || !e.data.ContractCode? then cache
    else
      match o.parse(e.data.code)
      case None => cache
      case Some(m) => cache[o.crypto.sha256(e.data.code) := m]
  }

  function AddModules(o: Oracles, store: Store, cache: ModuleCache, live: seq<LedgerKey>): ModuleCache
    requires forall k :: k in live ==> k.CodeKey? && k in store
  {
    if live == [] then cache
    else
      var last := live[|live| - 1];
      AddModule(o, AddModules(o, store, cache, live[..|live| - 1]), last.hash, store[last].entry)
  }

  function Hashes(keys: seq<LedgerKey>): set<Bytes32> { set k | k in keys && k.CodeKey? :: k.hash }

  function PreparedCache(o: Oracles, store: Store, cache: Option<ModuleCache>, live: seq<LedgerKey>,
                         restoredCode: seq<LedgerKey>): ModuleCache
    requires forall k :: k in live ==> k.CodeKey? && k in store
  {
    AddModules(o, store, if cache.Some? then cache.value else map[], live) - Hashes(restoredCode)
  }

  // ---- after the host ------------------------------------------------------------

  datatype InvokeResult = Trapped | ResourceLimitExceeded | InsufficientRefundableFee

  /** failed_call: past the declared instructions or the network's memory, or trapped. */
  function FailedCall(s: Settings, r: Resources, cpu: nat, mem: nat): InvokeResult {
    if r.instructions < cpu || s.fees.txMemoryLimit < mem then ResourceLimitExceeded else Trapped
  }

  predicate Written(ch: LedgerChange) { !ch.readOnly && ch.newValue.Some? }

  function WrittenBytes(s: Settings): LedgerChange -> nat {
    (ch: LedgerChange) => if Written(ch) && s.ChecksDeclaredBytes() then Clamp32(EntrySize(ch.newValue.value)) else 0
  }

  predicate WrittenTooLarge(s: Settings, ch: LedgerChange) {
    Written(ch) && Oversize(s.fees, ch.key, EntrySize(ch.newValue.value))
  }

  ghost predicate WriteFails(s: Settings, changes: seq<LedgerChange>, declared: u32) {
    || (exists ch :: ch in changes && WrittenTooLarge(s, ch))
    || Min(Sum(WrittenBytes(s), changes), U32_MAX) > declared
  }

  method CheckWrittenEntries(s: Settings, changes: seq<LedgerChange>, declared: u32) returns (ok: bool)
    ensures ok <==> !WriteFails(s, changes, declared)
  {
    var writeBytes: u32 := 0;
    for k := 0 to |changes|
      invariant writeBytes == Min(Sum(WrittenBytes(s), changes[..k]), U32_MAX) <= declared
      invariant forall j :: 0 <= j < k ==> !WrittenTooLarge(s, changes[j])
    {
      var ch := changes[k];
      SumSnoc(WrittenBytes(s), changes, k);
      SumPrefix(WrittenBytes(s), changes, k + 1);
      if ch.readOnly || ch.newValue.None? { continue; }
      if Oversize(s.fees, ch.key, EntrySize(ch.newValue.value)) {
        assert WrittenTooLarge(s, changes[k]);
        return false;
      }
      if s.ChecksDeclaredBytes() {
        writeBytes := SatAdd32(writeBytes, Clamp32(EntrySize(ch.newValue.value)));
        if declared < writeBytes { return false; }
      }
    }
    assert changes[..|changes|] == changes;
    ok := true;
  }

  datatype FeeVerdict = Accepted(rent: int, eventsSize: u32, consumed: int) | Refused(why: InvokeResult)

  function EventBytes(): Bytes -> nat { (b: Bytes) => Clamp32(|b|) }

  /** collectEvents and consumeRefundableResources for a call the host completed. */
  function ConsumedFee(o: Oracles, s: Settings, changes: seq<LedgerChange>, events: seq<Bytes>, value: Bytes,
                    maxRefundable: Option<int>, ledgerSeq: u32): FeeVerdict
  {
    var size := Min(Sum(EventBytes(), events) + Clamp32(|value|), U32_MAX);
    if s.fees.txMaxContractEventsSizeBytes < size then Refused(ResourceLimitExceeded)
    else
      var rent := o.rentFee(s.fees, o.extractRent(changes), ledgerSeq);
      var total := SatAdd64(rent, EventsFee(o, s.fees, size));
      if maxRefundable.Some? && (maxRefundable.value < rent || maxRefundable.value < total)
      then Refused(InsufficientRefundableFee)
      else Accepted(rent, size, total)
  }

  method ConsumeRefundable(o: Oracles, s: Settings, changes: seq<LedgerChange>, events: seq<Bytes>, value: Bytes,
                           maxRefundable: Option<int>, ledgerSeq: u32) returns (v: FeeVerdict)
    ensures v == ConsumedFee(o, s, changes, events, value, maxRefundable, ledgerSeq)
  {
    var maxEvents := s.fees.txMaxContractEventsSizeBytes;
    var size: u32 := 0;
    for k := 0 to |events|
      invariant size == Min(Sum(EventBytes(), events[..k]), U32_MAX) <= maxEvents
    {
      SumSnoc(EventBytes(), events, k);
      SumPrefix(EventBytes(), events, k + 1);
      size := SatAdd32(size, Clamp32(|events[k]|));
      if maxEvents < size { return Refused(ResourceLimitExceeded); }
    }
    assert events[..|events|] == events;
    size := SatAdd32(size, Clamp32(|value|));
    if maxEvents < size { return Refused(ResourceLimitExceeded); }
    var rent := o.rentFee(s.fees, o.extractRent(changes), ledgerSeq);
    var eventsFee := EventsFee(o, s.fees, size);
    if maxRefundable.Some? {
      if maxRefundable.value < rent { return Refused(InsufficientRefundableFee); }
      if maxRefundable.value < SatAdd64(rent, eventsFee) { return Refused(InsufficientRefundableFee); }
    }
    v := Accepted(rent, size, SatAdd64(rent, eventsFee));
  }

  /** The store while the host's changes merge into it, and what is reported of them. */
  datatype Merged = Merged(store: Store, changed: seq<LedgerKey>, removed: seq<LedgerKey>, ttlChanged: seq<LedgerKey>)

  function MergeOne(m: Merged, ch: LedgerChange): Merged {
    match ch.newValue
    case Some(entry) => m.(store := m.store[ch.key := Stored(entry, ch.newLiveUntil)], changed := m.changed + [ch.key])
    case None =>
      if !ch.readOnly then m.(store := m.store - {ch.key}, removed := m.removed + [ch.key])
      else if ch.newLiveUntil.None? || ch.key !in m.store then m
      else
        var slot := m.store[ch.key];
        m.(store := m.store[ch.key := slot.(ttl := ch.newLiveUntil)],
           ttlChanged := m.ttlChanged + if slot.ttl != ch.newLiveUntil then [ch.key] else [])
  }

  function Merge(store: Store, changes: seq<LedgerChange>): Merged {
    if changes == [] then Merged(store, [], [], [])
    else MergeOne(Merge(store, changes[..|changes| - 1]), changes[|changes| - 1])
  }

  // ---- send ----------------------------------------------------------------------

  datatype SendResult = SendResult(
    ok: bool,
    changedKeys: seq<LedgerKey>,
    removedKeys: seq<LedgerKey>,
    ttlChangedKeys: seq<LedgerKey>,
    failure: Option<InvokeResult>,
    rentFee: int,
    eventsSize: u32,
    refundableConsumed: int)

  function FailedSend(why: InvokeResult): SendResult { SendResult(false, [], [], [], Some(why), 0, 0, 0) }

  function InstructionLimit(s: Settings, declared: u32): int {
    var cpu := Max(0, s.fees.txMaxInstructions);
    if s.enforceDeclaredResources then Min(declared, cpu) else cpu
  }

  function LoadingOf(o: Oracles, s: Settings, e: EnvState, req: SendRequest): Loading {
    Loading(o, s, e.store, e.ledgerSeq, RestoredKeys(req.resources, req.restored))
  }

  function CacheFor(o: Oracles, s: Settings, e: EnvState, req: SendRequest): ModuleCache {
    var ld, keys := LoadingOf(o, s, e, req), FootprintKeys(req.resources);
    PreparedCache(o, e.store, e.moduleCache, Filter(ld.LiveCode(), keys), Filter(ld.RestoredCode(), keys))
  }

  function HostInputOf(o: Oracles, s: Settings, e: EnvState, req: SendRequest): HostInput {
    HostInput(req.hostFn, req.resources, req.restored, req.source, req.auth,
              InstructionLimit(s, req.resources.instructions),
              e.ledgerSeq, e.timestamp, LoadingOf(o, s, e, req).Items(FootprintKeys(req.resources)),
              CacheFor(o, s, e, req))
  }

  /** What `send` leaves and answers. */
  ghost function Sent(o: Oracles, s: Settings, e: EnvState, req: SendRequest): (EnvState, SendResult) {
    if LoadingOf(o, s, e, req).Fails(FootprintKeys(req.resources), req.resources.diskReadBytes)
    then (e, FailedSend(ResourceLimitExceeded))
    else
      AfterHost(o, s, e.(moduleCache := Some(CacheFor(o, s, e, req))), req, o.invoke(HostInputOf(o, s, e, req)))
  }

  ghost function AfterHost(o: Oracles, s: Settings, e: EnvState, req: SendRequest,
                           outcome: HostOutcome): (EnvState, SendResult)
  {
    if outcome.HostError? || outcome.value.None?
        then (e, FailedSend(FailedCall(s, req.resources, outcome.cpu, outcome.mem)))
    else if WriteFails(s, outcome.changes, req.resources.writeBytes) then (e, FailedSend(ResourceLimitExceeded))
    else
      match ConsumedFee(o, s, outcome.changes, outcome.events, outcome.value.value, req.maxRefundable, e.ledgerSeq)
      case Refused(why) => (e, FailedSend(why))
      case Accepted(rent, size, consumed) =>
        var m := Merge(e.store, outcome.changes);
        (e.(store := m.store), SendResult(true, m.changed, m.removed, m.ttlChanged, None, rent, size, consumed))
  }

  // ---- everything else that moves the environment --------------------------------

  datatype EnvAction =
    | PutEntry(entry: LedgerEntry, ttl: Option<u32>)
    | RemoveEntry(key: LedgerKey)
    | AdvanceLedgers(n: u32)
    | SetTimestamp(t: u64)
    | TakeSnapshot
    | RestoreSnapshot(id: nat)
    | ResetPrng
    | Simulate
    | Send(req: SendRequest)

  /** Five seconds a ledger, saturating. */
  function Advanced(e: EnvState, n: u32): EnvState {
    e.(ledgerSeq := SatAdd32(e.ledgerSeq, n), timestamp := Min(e.timestamp + 5 * n, U64_MAX))
  }

  ghost function Step(o: Oracles, s: Settings, e: EnvState, a: EnvAction): EnvState {
    match a
    case PutEntry(entry, ttl) => e.(store := e.store[KeyOf(entry) := Stored(entry, ttl)])
    case RemoveEntry(key) => e.(store := e.store - {key})
    case AdvanceLedgers(n) => Advanced(e, n)
    case SetTimestamp(t) => e.(timestamp := t)
    case TakeSnapshot => e.(snapshots :=
                            e.snapshots + [LedgerSnapshot(e.store, e.ledgerSeq, e.timestamp, e.prngCounter)])
    case RestoreSnapshot(id) =>
      if id < |e.snapshots| then
        var snap := e.snapshots[id];
        e.(store := snap.store, ledgerSeq := snap.ledgerSeq, timestamp := snap.timestamp, prngCounter :=
           snap.prngCounter)
      else e
    case ResetPrng => e.(prngCounter := 0)
    case Simulate => e.(prngCounter := if e.prngCounter == U64_MAX then 0 else e.prngCounter + 1)
    case Send(req) => Sent(o, s, e, req).0
  }

  class SorobanEnv {
    const o: Oracles
    const s: Settings
    var store: Store
    var ledgerSeq: u32
    var timestamp: u64
    var prngCounter: u64
    var snapshots: seq<LedgerSnapshot>
    var moduleCache: Option<ModuleCache>

    function State(): EnvState
      reads this
    {
      EnvState(store, ledgerSeq, timestamp, prngCounter, snapshots, moduleCache)
    }

    constructor (o: Oracles, s: Settings, ledgerSeq: u32)
      ensures this.o == o && this.s == s
      ensures State() == EnvState(map[], ledgerSeq, 1_700_000_000, 0, [], None)
    {
      this.o, this.s, this.ledgerSeq := o, s, ledgerSeq;
      store, timestamp, prngCounter, snapshots, moduleCache := map[], 1_700_000_000, 0, [], None;
    }

    method PutEntry(entry: LedgerEntry, ttl: Option<u32>) returns (key: LedgerKey)
      modifies this
      ensures State() == Step(o, s, old(State()), EnvAction.PutEntry(entry, ttl)) && key == KeyOf(entry)
      ensures store == old(store)[key := Stored(entry, ttl)]
    {
      key := KeyOf(entry);
      store := store[KeyOf(entry) := Stored(entry, ttl)];
    }

    method RemoveEntry(key: LedgerKey) returns (existed: bool)
      modifies this
      ensures State() == Step(o, s, old(State()), EnvAction.RemoveEntry(key)) && existed == (key in old(store))
      ensures key !in store && forall k :: k != key ==> (k in store <==> k in old(store))
      ensures forall k :: k in store ==> store[k] == old(store)[k]
    {
      existed := key in store;
      store := store - {key};
    }

    method AdvanceLedgers(n: u32)
      modifies this
      ensures State() == Advanced(old(State()), n)
      ensures ledgerSeq == (if old(ledgerSeq) + n <= U32_MAX then old(ledgerSeq) + n else U32_MAX)
      ensures timestamp == (if old(timestamp) + 5 * n <= U64_MAX then old(timestamp) + 5 * n else U64_MAX)
    {
      ledgerSeq := SatAdd32(ledgerSeq, n);
      timestamp := Min(timestamp + 5 * n, U64_MAX);
    }

    method SetTimestamp(t: u64)
      modifies this
      ensures State() == Step(o, s, old(State()), EnvAction.SetTimestamp(t)) && timestamp == t
    {
      timestamp := t;
    }

    method Snapshot() returns (id: nat)
      modifies this
      ensures State() == Step(o, s, old(State()), TakeSnapshot) && id == |old(snapshots)|
      ensures snapshots == old(snapshots) + [LedgerSnapshot(store, ledgerSeq, timestamp, prngCounter)]
    {
      snapshots := snapshots + [LedgerSnapshot(store, ledgerSeq, timestamp, prngCounter)];
      id := |snapshots| - 1;
    }

    method Restore(id: nat) returns (ok: bool)
      modifies this
      ensures State() == Step(o, s, old(State()), RestoreSnapshot(id)) && ok == (id < |old(snapshots)|)
      ensures ok ==> LedgerSnapshot(store, ledgerSeq, timestamp, prngCounter) == old(snapshots)[id]
    {
      if id >= |snapshots| { return false; }
      var snap := snapshots[id];
      store, ledgerSeq, timestamp, prngCounter := snap.store, snap.ledgerSeq, snap.timestamp, snap.prngCounter;
      ok := true;
    }

    method NextPrngSeed() returns (n: u64)
      modifies this
      ensures State() == Step(o, s, old(State()), Simulate) && n == old(prngCounter)
      ensures prngCounter == (old(prngCounter) + 1) % 0x1_0000_0000_0000_0000
    {
      n := prngCounter;
      prngCounter := if n == U64_MAX then 0 else n + 1;
    }

    method PrepareModuleCache(live: seq<LedgerKey>, restoredCode: seq<LedgerKey>) returns (cache: ModuleCache)
      requires forall k :: k in live ==> k.CodeKey? && k in store
      requires forall k :: k in restoredCode ==> k.CodeKey?
      modifies this`moduleCache
      ensures cache == PreparedCache(o, store, old(moduleCache), live, restoredCode) && moduleCache == Some(cache)
    {
      cache := if moduleCache.Some? then moduleCache.value else map[];
      ghost var before := cache;
      for k := 0 to |live|
        invariant cache == AddModules(o, store, before, live[..k])
      {
        assert live[..k + 1][..k] == live[..k];
        var e := store[live[k]].entry;
        if live[k].hash in cache { continue; }
        if e.data.ContractCode? {
          var parsed := o.parse(e.data.code);
          if parsed.Some? { cache := cache[o.crypto.sha256(e.data.code) := parsed.value]; }
        }
      }
      assert live[..|live|] == live;
      ghost var added := cache;
      for k := 0 to |restoredCode|
        invariant cache == added - Hashes(restoredCode[..k])
      {
        assert Hashes(restoredCode[..k + 1]) == Hashes(restoredCode[..k]) + {restoredCode[k].hash};
        cache := cache - {restoredCode[k].hash};
      }
      assert restoredCode[..|restoredCode|] == restoredCode;
      moduleCache := Some(cache);
    }

    method MergeChanges(changes: seq<LedgerChange>)
      returns (changed: seq<LedgerKey>, removed: seq<LedgerKey>, ttlChanged: seq<LedgerKey>)
      modifies this`store
      ensures Merged(store, changed, removed, ttlChanged) == Merge(old(store), changes)
    {
      changed, removed, ttlChanged := [], [], [];
      for k := 0 to |changes|
        invariant Merged(store, changed, removed, ttlChanged) == Merge(old(store), changes[..k])
      {
        assert changes[..k + 1][..k] == changes[..k];
        var ch := changes[k];
        if ch.newValue.Some? {
          store := store[ch.key := Stored(ch.newValue.value, ch.newLiveUntil)];
          changed := changed + [ch.key];
        } else if !ch.readOnly {
          store := store - {ch.key};
          removed := removed + [ch.key];
        } else if ch.newLiveUntil.Some? && ch.key in store {
          if store[ch.key].ttl != ch.newLiveUntil { ttlChanged := ttlChanged + [ch.key]; }
          store := store[ch.key := store[ch.key].(ttl := ch.newLiveUntil)];
        }
      }
      assert changes[..|changes|] == changes;
    }

    method Send(req: SendRequest) returns (r: SendResult)
      modifies this
      ensures (State(), r) == Sent(o, s, old(State()), req)
    {
      var ld, keys := Loading(o, s, store, ledgerSeq, RestoredKeys(req.resources, req.restored)),
          FootprintKeys(req.resources);
      var ok, items, live, restoredCode := ld.Load(keys, req.resources.diskReadBytes);
      if !ok { return FailedSend(ResourceLimitExceeded); }
      var cache := PrepareModuleCache(live, restoredCode);
      var outcome := o.invoke(HostInput(req.hostFn, req.resources, req.restored, req.source, req.auth,
                                        InstructionLimit(s, req.resources.instructions), ledgerSeq, timestamp, items,
                                        cache));
      if outcome.HostError? || outcome.value.None? {
        return FailedSend(FailedCall(s, req.resources, outcome.cpu, outcome.mem));
      }
      var fits := CheckWrittenEntries(s, outcome.changes, req.resources.writeBytes);
      if !fits { return FailedSend(ResourceLimitExceeded); }
      var v := ConsumeRefundable(o, s, outcome.changes, outcome.events, outcome.value.value, req.maxRefundable,
                                 ledgerSeq);
      if v.Refused? { return FailedSend(v.why); }
      var changed, removed, ttlChanged := MergeChanges(outcome.changes);
      r := SendResult(true, changed, removed, ttlChanged, None, v.rent, v.eventsSize, v.consumed);
    }
  }
}
