/** What the enforcing ledger guarantees: of one `send`, and over whole histories. */
module EnvironmentLaws {
  import opened Sequences
  import opened Xdr
  import opened Accounts
  import opened Host
  import opened Fees
  import opened Environment

  /** A present entry whose TTL is before this ledger. */
  predicate PastAt(store: Store, key: LedgerKey, ledgerSeq: int) {
    key in store && store[key].ttl.Some? && store[key].ttl.value < ledgerSeq
  }

  /** Code past the network's contract size, or data past its entry size; nothing else has a limit. */
  predicate OverSizeLimit(s: Settings, key: LedgerKey, size: nat) {
    match key
    case CodeKey(_) => size > s.fees.maxContractSizeBytes
    case DataKey(_, _, _) => size > s.fees.maxContractDataEntrySizeBytes
    case _ => false
  }

  // ---- the list handed to the host -------------------------------------------------

  /**
   * One item per footprint key in order; none for an absent key or an expired
   * temporary one; TTL metadata on present data and code keys only; and a TTL
   * below the current ledger only on an archived entry that is not being restored.
   */
  lemma LoadedListIsAligned(ld: Loading, r: Resources, k: nat)
    requires k < |FootprintKeys(r)| && ld.ledgerSeq < U32_MAX
    ensures var keys, items := FootprintKeys(r), ld.Items(FootprintKeys(r));
            var key, item := keys[k], items[k];
            && |items| == |r.readOnly| + |r.readWrite|
            && key == (if k < |r.readOnly| then r.readOnly[k] else r.readWrite[k - |r.readOnly|])
            && (item.entry.None? <==> key !in ld.store || (IsTemporaryKey(key) && PastAt(ld.store, key, ld.ledgerSeq)))
            && (item.entry.Some? ==> item.entry.value == ld.store[key].entry)
            && (item.ttl.Some? <==> item.entry.Some? && (key.DataKey? || key.CodeKey?))
            && (item.ttl.Some? ==>
                  (item.ttl.value.liveUntil < ld.ledgerSeq <==>
                     IsPersistentKey(key) && key !in ld.restored && PastAt(ld.store, key, ld.ledgerSeq)))
  {}

  /** A call that declares what its simulation returned may use at least what the simulation used. */
  lemma SimulatedInstructionsSuffice(s: Settings, raw: u32, leeway: u32)
    requires raw <= s.fees.txMaxInstructions
    ensures InstructionLimit(s, AdjustInstructions(raw, leeway)) >= raw
    ensures AdjustInstructions(raw, leeway) <= s.fees.txMaxInstructions && s.enforceDeclaredResources
            ==> InstructionLimit(s, AdjustInstructions(raw, leeway)) == AdjustInstructions(raw, leeway)
  {}

  // ---- merging ---------------------------------------------------------------------

  ghost predicate SameAt(a: Store, b: Store, key: LedgerKey) {
    (key in a <==> key in b) && (key in a ==> a[key] == b[key])
  }

  ghost predicate SameEntryAt(a: Store, b: Store, key: LedgerKey) {
    (key in a <==> key in b) && (key in a ==> a[key].entry == b[key].entry)
  }

  /** A key the report does not name keeps its entry and its TTL. */
  lemma {:induction false} UnreportedKeyUnchanged(store: Store, changes: seq<LedgerChange>, key: LedgerKey)
    ensures var m := Merge(store, changes);
            key !in m.changed && key !in m.removed && key !in m.ttlChanged ==> SameAt(store, m.store, key)
  {
    if changes == [] {
    } else {
      UnreportedKeyUnchanged(store, changes[..|changes| - 1], key);
    }
  }

  lemma {:induction false} UntouchedKeyUnchanged(store: Store, changes: seq<LedgerChange>, key: LedgerKey)
    requires forall ch :: ch in changes ==> ch.key != key
    ensures SameAt(store, Merge(store, changes).store, key)
  {
    if changes == [] {
    } else {
      UntouchedKeyUnchanged(store, changes[..|changes| - 1], key);
    }
  }

  lemma {:induction false} ReadOnlyKeyKeepsEntry(store: Store, changes: seq<LedgerChange>, key: LedgerKey)
    requires forall ch :: ch in changes && ch.key == key ==> ch.readOnly && ch.newValue.None?
    ensures SameEntryAt(store, Merge(store, changes).store, key)
  {
    if changes == [] {
    } else {
      ReadOnlyKeyKeepsEntry(store, changes[..|changes| - 1], key);
    }
  }

  /** Reported as changed iff some change carries a value for it, as removed iff a read-write one carries none. */
  lemma {:induction false} ReportedKeys(store: Store, changes: seq<LedgerChange>, key: LedgerKey)
    ensures var m := Merge(store, changes);
            && (key in m.changed <==> exists ch :: ch in changes && ch.key == key && ch.newValue.Some?)
            && (key in m.removed <==> exists ch :: ch in changes && ch.key == key && ch.newValue.None? && !ch.readOnly)
            && (key in m.ttlChanged ==> exists ch :: ch in changes && ch.key == key && ch.newValue.None? && ch.readOnly)
  {
    if changes == [] {
    } else {
      var init, last := changes[..|changes| - 1], changes[|changes| - 1];
      ReportedKeys(store, init, key);
      assert forall ch :: ch in changes <==> ch in init || ch == last;
    }
  }

  /** The changes a successful send merges. */
  ghost function MergedChanges(o: Oracles, s: Settings, e: EnvState, req: SendRequest): seq<LedgerChange> {
    var outcome := o.invoke(HostInputOf(o, s, e, req));
    if outcome.HostDone? then outcome.changes else []
  }

  ghost function SentStore(o: Oracles, s: Settings, e: EnvState, req: SendRequest): Store {
    Sent(o, s, e, req).0.store
  }

  /** A send fails and leaves the store, or succeeds and merges all of the host's changes. */
  lemma SendMergesAllOrNothing(o: Oracles, s: Settings, e: EnvState, req: SendRequest)
    ensures var (e', r) := Sent(o, s, e, req);
            && e' == e.(store := e'.store, moduleCache := e'.moduleCache)
            && (r.ok <==> r.failure.None?)
            && Merged(e'.store, r.changedKeys, r.removedKeys, r.ttlChangedKeys)
               == if r.ok then Merge(e.store, MergedChanges(o, s, e, req)) else Merged(e.store, [], [], [])
  {
    AfterHostMerges(o, s, e.(moduleCache := Some(CacheFor(o, s, e, req))), req, o.invoke(HostInputOf(o, s, e, req)));
  }

  lemma AfterHostMerges(o: Oracles, s: Settings, e: EnvState, req: SendRequest, outcome: HostOutcome)
    ensures var (e', r) := AfterHost(o, s, e, req, outcome);
            && e' == e.(store := e'.store)
            && (r.ok <==> r.failure.None?) && (r.ok ==> outcome.HostDone?)
            && Merged(e'.store, r.changedKeys, r.removedKeys, r.ttlChangedKeys)
               == if r.ok then Merge(e.store, outcome.changes) else Merged(e.store, [], [], [])
  {}

  /** And a key the report leaves out keeps its entry and its TTL, either way. */
  lemma SendReportIsComplete(o: Oracles, s: Settings, e: EnvState, req: SendRequest, key: LedgerKey)
    ensures var (e', r) := Sent(o, s, e, req);
            key !in r.changedKeys + r.removedKeys + r.ttlChangedKeys ==> SameAt(e.store, e'.store, key)
  {
    SendMergesAllOrNothing(o, s, e, req);
    UnreportedKeyUnchanged(e.store, MergedChanges(o, s, e, req), key);
  }

  lemma MergedStayInFootprint(o: Oracles, s: Settings, e: EnvState, req: SendRequest, ch: LedgerChange)
    requires HostAssumptions(o) && ch in MergedChanges(o, s, e, req)
    ensures StaysInFootprint(HostInputOf(o, s, e, req), ch)
    ensures ch.key.AccountKey? && !ch.readOnly ==> KeepsAccount(HostInputOf(o, s, e, req), ch)
  {}

  /** Keys outside the footprint are untouched; read-only keys keep their entries; the report names footprint keys. */
  lemma SendStaysInFootprint(o: Oracles, s: Settings, e: EnvState, req: SendRequest, key: LedgerKey)
    requires HostAssumptions(o)
    ensures key !in FootprintKeys(req.resources) ==> SameAt(e.store, SentStore(o, s, e, req), key)
    ensures key !in req.resources.readWrite ==> SameEntryAt(e.store, SentStore(o, s, e, req), key)
    ensures var r := Sent(o, s, e, req).1;
            && (key in r.changedKeys || key in r.removedKeys ==> key in req.resources.readWrite)
            && (key in r.ttlChangedKeys ==> key in req.resources.readOnly)
  {
    var changes := MergedChanges(o, s, e, req);
    forall ch | ch in changes && ch.key == key
      ensures if ch.readOnly then key in req.resources.readOnly && ch.newValue.None? else key in req.resources.readWrite
    {
      MergedStayInFootprint(o, s, e, req, ch);
    }
    SendMergesAllOrNothing(o, s, e, req);
    if key !in FootprintKeys(req.resources) { UntouchedKeyUnchanged(e.store, changes, key); }
    if key !in req.resources.readWrite { ReadOnlyKeyKeepsEntry(e.store, changes, key); }
    ReportedKeys(e.store, changes, key);
  }

  // ---- accounts --------------------------------------------------------------------

  lemma {:induction false} SuppliedItem(ld: Loading, keys: seq<LedgerKey>, key: LedgerKey)
    requires key in keys
    ensures Supplied(keys, ld.Items(keys), key) == ld.Item(key).entry
  {
    if keys[0] != key {
      assert ld.Items(keys)[1..] == ld.Items(keys[1..]);
      SuppliedItem(ld, keys[1..], key);
    }
  }

  /** Each change the host makes to this account is one the assumptions allow. */
  ghost predicate AllowedAccountChange(store: Store, id: PublicKey, ch: LedgerChange) {
    ch.key == AccountKey(id) ==>
      && (ch.newValue.Some? ==> KeyOf(ch.newValue.value) == ch.key)
      && (ch.readOnly ==> ch.newValue.None?)
      && (!ch.readOnly && LoadAccount(store, id).Some? ==>
            ch.newValue.Some? && ch.newValue.value.data.AccountData?
            && SameIdentity(LoadAccount(store, id).value, ch.newValue.value.data.account))
      && (LoadAccount(store, id).None? && ch.newValue.Some? && ch.newValue.value.data.AccountData? ==>
            StampOf(ch.newValue.value.data.account).None?)
  }

  /** What a step that is no sequence bump of `id` may do to it. */
  ghost predicate KeepsIdentity(store: Store, store': Store, id: PublicKey) {
    match LoadAccount(store, id)
    case Some(a) => LoadAccount(store', id).Some? && SameIdentity(a, LoadAccount(store', id).value)
    case None => LoadAccount(store', id).Some? ==> StampOf(LoadAccount(store', id).value).None?
  }

  lemma {:induction false} MergeKeepsIdentity(store: Store, changes: seq<LedgerChange>, id: PublicKey)
    requires forall ch :: ch in changes ==> AllowedAccountChange(store, id, ch)
    ensures KeepsIdentity(store, Merge(store, changes).store, id)
  {
    if changes == [] {
    } else {
      var init, last := changes[..|changes| - 1], changes[|changes| - 1];
      assert last in changes && forall ch :: ch in init ==> ch in changes;
      MergeKeepsIdentity(store, init, id);
      assert AllowedAccountChange(store, id, last);
    }
  }

  lemma {:induction false} MergeWellKeyed(store: Store, changes: seq<LedgerChange>)
    requires WellKeyed(store)
    requires forall ch :: ch in changes && ch.newValue.Some? ==> KeyOf(ch.newValue.value) == ch.key
    ensures WellKeyed(Merge(store, changes).store)
  {
    if changes == [] {
    } else {
      MergeWellKeyed(store, changes[..|changes| - 1]);
    }
  }

  lemma MergedChangeAllowed(o: Oracles, s: Settings, e: EnvState, req: SendRequest, id: PublicKey, ch: LedgerChange)
    requires HostAssumptions(o) && WellKeyed(e.store) && ch in MergedChanges(o, s, e, req)
    ensures AllowedAccountChange(e.store, id, ch)
    ensures ch.newValue.Some? ==> KeyOf(ch.newValue.value) == ch.key
  {
    MergedStayInFootprint(o, s, e, req, ch);
    if ch.key == AccountKey(id) && !ch.readOnly {
      SuppliedItem(LoadingOf(o, s, e, req), FootprintKeys(req.resources), ch.key);
    }
  }

  /** A send removes no account, moves no sequence number, and stamps no account. */
  lemma SendKeepsAccounts(o: Oracles, s: Settings, e: EnvState, req: SendRequest)
    requires HostAssumptions(o) && WellKeyed(e.store)
    ensures WellKeyed(SentStore(o, s, e, req))
    ensures forall id :: KeepsIdentity(e.store, SentStore(o, s, e, req), id)
  {
    var changes := MergedChanges(o, s, e, req);
    SendMergesAllOrNothing(o, s, e, req);
    forall ch | ch in changes && ch.newValue.Some? ensures KeyOf(ch.newValue.value) == ch.key {
      MergedStayInFootprint(o, s, e, req, ch);
    }
    MergeWellKeyed(e.store, changes);
    forall id ensures KeepsIdentity(e.store, SentStore(o, s, e, req), id) {
      forall ch | ch in changes ensures AllowedAccountChange(e.store, id, ch) {
        MergedChangeAllowed(o, s, e, req, id, ch);
      }
      MergeKeepsIdentity(e.store, changes, id);
    }
  }

  // ---- the module cache --------------------------------------------------------------

  /** Every cached module is the parse of bytes that hash to its key. */
  ghost predicate CacheSound(o: Oracles, cache: ModuleCache) {
    forall h :: h in cache ==> exists code :: o.crypto.sha256(code) == h && o.parse(code) == Some(cache[h])
  }

  ghost predicate EnvCacheSound(o: Oracles, e: EnvState) {
    e.moduleCache.Some? ==> CacheSound(o, e.moduleCache.value)
  }

  /** Stored code lies under the hash of its bytes. */
  ghost predicate CodeHashesMatch(o: Oracles, store: Store) {
    forall k :: k in store && k.CodeKey? ==>
      store[k].entry.data.ContractCode? && o.crypto.sha256(store[k].entry.data.code) == k.hash
  }

  lemma {:induction false} AddModulesSound(o: Oracles, store: Store, cache: ModuleCache, live: seq<LedgerKey>)
    requires forall k :: k in live ==> k.CodeKey? && k in store
    requires CacheSound(o, cache)
    ensures CacheSound(o, AddModules(o, store, cache, live))
  {
    if live == [] {
    } else {
      AddModulesSound(o, store, cache, live[..|live| - 1]);
    }
  }

  lemma {:induction false} AddModulesComplete(o: Oracles, store: Store, cache: ModuleCache, live: seq<LedgerKey>,
                                              key: LedgerKey)
    requires forall k :: k in live ==> k.CodeKey? && k in store
    requires CodeHashesMatch(o, store) && key in live && o.parse(store[key].entry.data.code).Some?
    ensures key.hash in AddModules(o, store, cache, live)
  {
    if key in live[..|live| - 1] {
      AddModulesComplete(o, store, cache, live[..|live| - 1], key);
    } else {
      assert key == live[|live| - 1];
    }
  }

  /** The cache of a call holds every live footprint code that parses, and no code the call restores. */
  lemma CacheMatchesFootprint(o: Oracles, s: Settings, e: EnvState, req: SendRequest, key: LedgerKey)
    requires EnvCacheSound(o, e) && CodeHashesMatch(o, e.store)
    requires key.CodeKey? && key in FootprintKeys(req.resources) && key in e.store
    ensures var cache, restored := CacheFor(o, s, e, req), RestoredKeys(req.resources, req.restored);
            var code := e.store[key].entry.data.code;
            && CacheSound(o, cache)
            && (key in restored ==> key.hash !in cache)
            && (key !in restored && !Expired(e.store[key].ttl, e.ledgerSeq) && o.parse(code).Some? ==>
                  key.hash in cache
                  && ((forall bytes :: o.crypto.sha256(bytes) == key.hash ==> bytes == code)
                      ==> Some(cache[key.hash]) == o.parse(code)))
  {
    var ld, keys := LoadingOf(o, s, e, req), FootprintKeys(req.resources);
    var live, restoredCode := Filter(ld.LiveCode(), keys), Filter(ld.RestoredCode(), keys);
    var before: ModuleCache := if e.moduleCache.Some? then e.moduleCache.value else map[];
    AddModulesSound(o, e.store, before, live);
    var cache := CacheFor(o, s, e, req);
    forall h | h in cache ensures exists code :: o.crypto.sha256(code) == h && o.parse(code) == Some(cache[h]) {
      assert cache[h] == AddModules(o, e.store, before, live)[h];
    }
    if key in ld.restored {
      assert key in restoredCode;
    } else if !Expired(e.store[key].ttl, e.ledgerSeq) && o.parse(e.store[key].entry.data.code).Some? {
      assert key in live;
      AddModulesComplete(o, e.store, before, live, key);
      forall k | k in restoredCode ensures k.hash != key.hash { assert ld.RestoredCode()(k); }
    }
  }

  // ---- histories ------------------------------------------------------------------------

  ghost function Run(o: Oracles, s: Settings, e: EnvState, actions: seq<EnvAction>): EnvState
    decreases |actions|
  {
    if actions == [] then e else Run(o, s, Step(o, s, e, actions[0]), actions[1..])
  }

  lemma SendCacheSound(o: Oracles, s: Settings, e: EnvState, req: SendRequest)
    requires EnvCacheSound(o, e)
    ensures EnvCacheSound(o, Sent(o, s, e, req).0)
  {
    var ld, keys := LoadingOf(o, s, e, req), FootprintKeys(req.resources);
    var live := Filter(ld.LiveCode(), keys);
    var before: ModuleCache := if e.moduleCache.Some? then e.moduleCache.value else map[];
    AddModulesSound(o, e.store, before, live);
    var cache := CacheFor(o, s, e, req);
    forall h | h in cache ensures exists code :: o.crypto.sha256(code) == h && o.parse(code) == Some(cache[h]) {
      assert cache[h] == AddModules(o, e.store, before, live)[h];
    }
    assert CacheSound(o, cache);
  }

  /** Whatever the history, rollbacks included, the cache is never wrong about a module. */
  lemma {:induction false} RunCacheSound(o: Oracles, s: Settings, e: EnvState, actions: seq<EnvAction>)
    requires EnvCacheSound(o, e)
    ensures EnvCacheSound(o, Run(o, s, e, actions))
    decreases |actions|
  {
    if actions == [] {
    } else {
      if actions[0].Send? { SendCacheSound(o, s, e, actions[0].req); }
      RunCacheSound(o, s, Step(o, s, e, actions[0]), actions[1..]);
    }
  }

  lemma StepKeepsSnapshots(o: Oracles, s: Settings, e: EnvState, a: EnvAction)
    ensures e.snapshots <= Step(o, s, e, a).snapshots
  {
    if a.Send? { SendMergesAllOrNothing(o, s, e, a.req); }
  }

  lemma {:induction false} RunKeepsSnapshots(o: Oracles, s: Settings, e: EnvState, actions: seq<EnvAction>)
    ensures e.snapshots <= Run(o, s, e, actions).snapshots
    decreases |actions|
  {
    if actions == [] {
    } else {
      StepKeepsSnapshots(o, s, e, actions[0]);
      RunKeepsSnapshots(o, s, Step(o, s, e, actions[0]), actions[1..]);
    }
  }

  /** restore gives back exactly what snapshot saved, whatever happened since, as often as it is called. */
  lemma RestoreIsExact(o: Oracles, s: Settings, e: EnvState, actions: seq<EnvAction>)
    ensures var after := Run(o, s, Step(o, s, e, TakeSnapshot), actions);
            var restored := Step(o, s, after, RestoreSnapshot(|e.snapshots|));
            && (restored.store, restored.ledgerSeq, restored.timestamp, restored.prngCounter)
               == (e.store, e.ledgerSeq, e.timestamp, e.prngCounter)
            && restored.moduleCache == after.moduleCache
            && restored.snapshots == after.snapshots
  {
    RunKeepsSnapshots(o, s, Step(o, s, e, TakeSnapshot), actions);
  }
}
