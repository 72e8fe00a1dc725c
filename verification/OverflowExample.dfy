/** Near the last ledger number, one entry each: an extension that archives, and a restoration that does not restore. */
module OverflowExample {
  import opened Sequences
  import opened Xdr
  import opened Host
  import opened Environment
  import opened EnvironmentLaws
  import opened FootprintOps
  import opened FootprintLaws

  function Limits(): Settings {
    Settings(FeeSettings(1000, 1000, 10, 1000, 10, 1000, 10, 1000, 1000, 1000, 1000, 1000, []), 120_960, 3_110_400,
             true, true)
  }

  function Entry(): LedgerKey { DataKey([], [], Persistent) }

  function StoreWith(ttl: u32): Store {
    map[Entry() := Stored(LedgerEntry(1, ContractData([], [], Persistent, [])), Some(ttl))]
  }

  lemma OneKey(p: LedgerKey -> bool, key: LedgerKey)
    ensures Filter(p, [key]) == if p(key) then [key] else []
  {
    assert [key][1..] == [];
  }

  lemma OneSize(f: LedgerKey -> nat, key: LedgerKey)
    ensures Sum(f, [key]) == f(key)
  {
    assert [key][1..] == [];
  }

  lemma OneSorted(le: (LedgerKey, LedgerKey) -> bool, key: LedgerKey)
    ensures Sorted(le, [key]) == [key]
  {
    assert [key][1..] == [] && Sorted(le, []) == [];
  }

  /** Simulated alone in the last closed ledger it is returned, and applied in this one it gets this TTL. */
  ghost predicate ExtendsTo(o: Oracles, s: Settings, store: Store, ledgerSeq: u32, extendTo: u32, key: LedgerKey,
                            ttl: u32)
    requires 1 <= ledgerSeq
  {
    var r := ExtendResourcesOf(o, store, [key], extendTo, ledgerSeq - 1);
    var (after, applied) := ExtendApplied(o, s, store, ledgerSeq, extendTo, r, None);
    && !ExtendFails(store, [key], ledgerSeq - 1) && r.readOnly == [key]
    && applied.Moved? && TtlMovedTo(store, after, key, ttl)
  }

  /** With no refundable fee to fall short of, the one key moves. */
  lemma OneMoved(o: Oracles, s: Settings, store: Store, ledgerSeq: u32, key: LedgerKey, ttl: u32, after: Store,
                 applied: Applied)
    requires ExtendEffectIs(o, s, store, ledgerSeq, [key], ttl, None, after, applied) && !MoveTooLarge(s, store, key)
    ensures applied.Moved? && TtlMovedTo(store, after, key, ttl)
  {
    assert key in [key];
    OverSizeMeans(s, store, [key]);
  }

  /** So it goes for a live entry with room. */
  lemma OneKeyExtended(o: Oracles, s: Settings, store: Store, ledgerSeq: u32, extendTo: u32, key: LedgerKey)
    requires 1 <= ledgerSeq && IsPersistentKey(key) && !MoveTooLarge(s, store, key)
    requires LiveAt(store, key, ledgerSeq) && store[key].ttl.value < SatAdd32(ledgerSeq - 1, extendTo)
    ensures ExtendsTo(o, s, store, ledgerSeq, extendTo, key, ExtendedTtl(ledgerSeq, extendTo))
  {
    OneKey(Extendable(store, extendTo, ledgerSeq - 1), key);
    OneSorted(o.keyLe, key);
    OneKey(Living(store, ledgerSeq), key);
    ExtendSimulatedThenApplied(o, s, store, store, [key], extendTo, ledgerSeq, None);
    var r := ExtendResourcesOf(o, store, [key], extendTo, ledgerSeq - 1);
    var (after, applied) := ExtendApplied(o, s, store, ledgerSeq, extendTo, r, None);
    OneMoved(o, s, store, ledgerSeq, key, ExtendedTtl(ledgerSeq, extendTo), after, applied);
  }

  lemma LastingEntry(s: Settings, store: Store, ledgerSeq: u32, extendTo: u32)
    requires s == Limits() && store == StoreWith(4_294_967_200) && ledgerSeq == 4_294_967_100 && extendTo == 1000
    ensures IsPersistentKey(Entry()) && !MoveTooLarge(s, store, Entry()) && LiveAt(store, Entry(), ledgerSeq)
    ensures store[Entry()].ttl.value < SatAdd32(ledgerSeq - 1, extendTo)
    ensures ExtendedTtl(ledgerSeq, extendTo) == 804
  {}

  /**
   * In ledger 4 294 967 100, extending by 1000 an entry that lives to 4 294 967 200:
   * the simulation returns it, the operation succeeds and leaves TTL 804.
   */
  lemma ExtensionArchives(o: Oracles, s: Settings, store: Store, ledgerSeq: u32, extendTo: u32)
    requires s == Limits() && store == StoreWith(4_294_967_200) && ledgerSeq == 4_294_967_100 && extendTo == 1000
    ensures LiveAt(store, Entry(), ledgerSeq) && ExtendsTo(o, s, store, ledgerSeq, extendTo, Entry(), 804)
        && 804 < ledgerSeq
  {
    LastingEntry(s, store, ledgerSeq, extendTo);
    OneKeyExtended(o, s, store, ledgerSeq, extendTo, Entry());
  }

  ghost predicate RestoresTo(o: Oracles, s: Settings, store: Store, ledgerSeq: u32, key: LedgerKey, ttl: u32)
    requires 1 <= ledgerSeq
  {
    var r := RestoreResourcesOf(o, store, [key], ledgerSeq - 1);
    var (after, applied) := RestoreApplied(o, s, store, ledgerSeq, r, None);
    && !RestoreFails(s, store, [key], ledgerSeq - 1) && r.readWrite == [key]
    && applied.Moved? && TtlMovedTo(store, after, key, ttl)
  }

  /** And so for an archived one. */
  lemma OneKeyRestored(o: Oracles, s: Settings, store: Store, ledgerSeq: u32, key: LedgerKey)
    requires 1 <= ledgerSeq && RestoreTarget(s, ledgerSeq - 1) <= U32_MAX
    requires IsPersistentKey(key) && !MoveTooLarge(s, store, key) && PastAt(store, key, ledgerSeq - 1)
    requires EntrySizes(store)(key) <= U32_MAX
    ensures RestoresTo(o, s, store, ledgerSeq, key, RestoredTtl(s, ledgerSeq))
  {
    OneKey(Restorable(store, ledgerSeq - 1), key);
    OneSorted(o.keyLe, key);
    OneSize(EntrySizes(store), key);
    RestoreSimulatedThenApplied(o, s, store, store, [key], ledgerSeq, None);
  }

  /**
   * With minPersistentTTL 120 960, in the ledger where the sum is 2^32: the
   * simulation accepts, the operation succeeds and leaves the entry at TTL 0.
   */
  lemma RestorationDoesNotRestore(o: Oracles, s: Settings, store: Store, ledgerSeq: u32)
    requires s == Limits() && store == StoreWith(1) && ledgerSeq == 4_294_846_337
    ensures RestoresTo(o, s, store, ledgerSeq, Entry(), 0) && !LiveAt(store, Entry(), ledgerSeq - 1)
  {
    OneKeyRestored(o, s, store, ledgerSeq, Entry());
  }
}
