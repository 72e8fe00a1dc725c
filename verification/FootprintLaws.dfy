/** What a footprint operation's preflight promises about applying its answer one ledger later. */
module FootprintLaws {
  import opened Sequences
  import opened Xdr
  import opened Host
  import opened Environment
  import opened EnvironmentLaws
  import opened FootprintOps

  /** The contract entries are the same; the accounts may have moved. */
  ghost predicate SameContractEntries(a: Store, b: Store) {
    forall k :: IsTtlKey(k) ==> SameAt(a, b, k)
  }

  /** A live entry: present, with a TTL not past. */
  ghost predicate LiveAt(store: Store, key: LedgerKey, ledgerSeq: u32) {
    key in store && store[key].ttl.Some? && store[key].ttl.value >= ledgerSeq
  }

  /** The entry keeps its bytes and gets exactly this TTL. */
  ghost predicate TtlMovedTo(before: Store, after: Store, key: LedgerKey, ttl: u32) {
    key in before && key in after && after[key] == before[key].(ttl := Some(ttl))
  }

  // ---- what a move costs -----------------------------------------------------------------

  /** What a move's rent counts from: its TTL, its TTL unless that is 0, or nothing, back from the archive. */
  datatype Basis = FromTtl | FromNonzeroTtl | FromArchive

  function KnownUntil(b: Basis, ttl: Option<u32>): Option<u32> {
    match b
    case FromTtl => ttl
    case FromNonzeroTtl => if ttl == Some(0) then None else ttl
    case FromArchive => None
  }

  /** One move as it is priced: only temporary data is not persistent, and an entry from the archive had no size. */
  ghost predicate IsPricedAs(o: Oracles, store: Store, key: LedgerKey, b: Basis, ttl: u32, ch: RentChange) {
    && key in store
    && (!ch.isPersistent <==> key.DataKey? && key.durability == Temporary)
    && (ch.isCode <==> key.CodeKey?)
    && ch.newSize == o.rentSize(store[key].entry) && ch.newLiveUntil == ttl
    && match KnownUntil(b, store[key].ttl)
       case Some(until) => ch.oldSize == ch.newSize && ch.oldLiveUntil == until
       case None => ch.oldSize == 0 && ch.oldLiveUntil == 0
  }

  /** The moves of these keys, one by one. */
  ghost predicate ArePricedAs(o: Oracles, store: Store, keys: seq<LedgerKey>, b: Basis, ttl: u32,
                              changes: seq<RentChange>) {
    |changes| == |keys| && forall k :: 0 <= k < |keys| ==> IsPricedAs(o, store, keys[k], b, ttl, changes[k])
  }

  /** There is one list that prices these moves. */
  lemma PricedOnce(o: Oracles, store: Store, keys: seq<LedgerKey>, b: Basis, ttl: u32, c: seq<RentChange>,
                   d: seq<RentChange>)
    requires ArePricedAs(o, store, keys, b, ttl, c) && ArePricedAs(o, store, keys, b, ttl, d)
    ensures c == d
  {
    forall k | 0 <= k < |keys| ensures c[k] == d[k] {
      assert IsPricedAs(o, store, keys[k], b, ttl, c[k]) && IsPricedAs(o, store, keys[k], b, ttl, d[k]);
    }
  }

  function PricedMove(o: Oracles, key: LedgerKey, e: Stored, b: Basis, ttl: u32): RentChange {
    var known, size := KnownUntil(b, e.ttl), o.rentSize(e.entry);
    RentChange(!(key.DataKey? && key.durability == Temporary), key.CodeKey?, if known.Some? then size else 0, size,
               known.GetOr(0), ttl)
  }

  function PricedMoves(o: Oracles, store: Store, keys: seq<LedgerKey>, b: Basis, ttl: u32): (r: seq<RentChange>)
    requires forall k :: k in keys ==> k in store
    ensures ArePricedAs(o, store, keys, b, ttl, r)
  {
    seq(|keys|, k requires 0 <= k < |keys| => PricedMove(o, keys[k], store[keys[k]], b, ttl))
  }

  /** The lists the preflights and the operations build are these. */
  lemma {:induction false} MovesPriced(o: Oracles, store: Store, keys: seq<LedgerKey>, before: Stored -> Option<u32>,
                                       b: Basis, ttl: u32)
    requires forall k :: k in keys ==> k in store
    requires forall e: Stored :: before(e) == KnownUntil(b, e.ttl)
    ensures RentChanges(o, store, keys, before, ttl) == PricedMoves(o, store, keys, b, ttl)
  {
    if keys == [] {
    } else {
      MovesPriced(o, store, keys[..|keys| - 1], before, b, ttl);
    }
  }

  /** The rent for moving these keys to `liveUntil`. */
  ghost function RentOf(o: Oracles, s: Settings, store: Store, keys: seq<LedgerKey>, b: Basis, liveUntil: u32,
                        ledgerSeq: u32): int
    requires forall k :: k in keys ==> k in store
  {
    o.rentFee(s.fees, PricedMoves(o, store, keys, b, liveUntil), ledgerSeq)
  }

  ghost predicate AnyOverSize(s: Settings, store: Store, keys: seq<LedgerKey>) {
    exists k :: k in keys && k in store && OverSizeLimit(s, k, EntrySize(store[k].entry))
  }

  lemma OverSizeMeans(s: Settings, store: Store, keys: seq<LedgerKey>)
    ensures AnyMoveTooLarge(s, store, keys) <==> AnyOverSize(s, store, keys)
  {
    forall k ensures MoveTooLarge(s, store, k) <==> k in store && OverSizeLimit(s, k, EntrySize(store[k].entry)) {}
  }

  /** More rent than the refundable fee, where there is one. */
  predicate RentPasses(maxRefundable: Option<int>, rent: int) { maxRefundable.Some? && maxRefundable.value < rent }

  /** Moving TTLs: all of them, or none for want of rent. */
  ghost predicate AllOrNoneMoved(o: Oracles, s: Settings, store: Store, ledgerSeq: u32, keys: seq<LedgerKey>,
                                 b: Basis, ttl: u32, maxRefundable: Option<int>, after: Store, applied: Applied) {
    && (forall k :: k in keys ==> k in store)
    && !applied.OverLimit?
    && (applied.Short? <==> RentPasses(maxRefundable, RentOf(o, s, store, keys, b, ttl, ledgerSeq)))
    && if applied.Moved? then
         applied.changed == keys && after == WithTtl(store, keys, ttl)
         && applied.rent == RentOf(o, s, store, keys, b, ttl, ledgerSeq)
       else after == store
  }

  lemma TtlsMovedEffect(o: Oracles, s: Settings, store: Store, ledgerSeq: u32, keys: seq<LedgerKey>,
                        before: Stored -> Option<u32>, b: Basis, newLiveUntil: nat, maxRefundable: Option<int>)
    requires forall k :: k in keys ==> k in store
    requires forall e: Stored :: before(e) == KnownUntil(b, e.ttl)
    ensures var (after, applied) := TtlsMoved(o, s, store, ledgerSeq, keys, before, newLiveUntil, maxRefundable);
            AllOrNoneMoved(o, s, store, ledgerSeq, keys, b, Wrap32(newLiveUntil), maxRefundable, after, applied)
  {
    MovesPriced(o, store, keys, before, b, Wrap32(newLiveUntil));
  }

  // ---- extending -----------------------------------------------------------------------

  function Living(store: Store, ledgerSeq: u32): LedgerKey -> bool {
    (key: LedgerKey) => key in store && store[key].ttl.Some? && store[key].ttl.value >= ledgerSeq
  }

  function LivingKeys(store: Store, ledgerSeq: u32, keys: seq<LedgerKey>): seq<LedgerKey> {
    Filter(Living(store, ledgerSeq), keys)
  }

  /** The listed keys an extension moves: live, and ending before its target. */
  function ShortLived(store: Store, ledgerSeq: u32, extendTo: u32, keys: seq<LedgerKey>): seq<LedgerKey> {
    Filter(ExtendMoves(store, ledgerSeq, ExtendTarget(ledgerSeq, extendTo)), keys)
  }

  lemma ShortLivedKey(store: Store, ledgerSeq: u32, extendTo: u32, keys: seq<LedgerKey>, key: LedgerKey)
    ensures key in ShortLived(store, ledgerSeq, extendTo, keys) <==>
              key in keys && LiveAt(store, key, ledgerSeq) && PastAt(store, key, ExtendTarget(ledgerSeq, extendTo))
  {
    var p := ExtendMoves(store, ledgerSeq, ExtendTarget(ledgerSeq, extendTo));
    assert key in Filter(p, keys) <==> (key in keys && p(key));
  }

  /** What extending these keys comes to; a failure moves nothing. */
  ghost predicate ExtendEffectIs(o: Oracles, s: Settings, store: Store, ledgerSeq: u32, moves: seq<LedgerKey>, ttl: u32,
                                 maxRefundable: Option<int>, after: Store, applied: Applied) {
    && (forall k :: k in moves ==> k in store)
    && (applied.OverLimit? <==> AnyOverSize(s, store, moves))
    && (applied.Short? <==>
          !applied.OverLimit?
          && RentPasses(maxRefundable, RentOf(o, s, store, moves, FromNonzeroTtl, ttl, ledgerSeq)))
    && if applied.Moved? then
         applied.changed == moves && after == WithTtl(store, moves, ttl)
         && applied.rent == RentOf(o, s, store, moves, FromNonzeroTtl, ttl, ledgerSeq)
       else after == store
  }

  /** An extension moves the listed keys that are live and end too early. */
  lemma ExtendEffect(o: Oracles, s: Settings, store: Store, ledgerSeq: u32, extendTo: u32, r: Resources,
                     maxRefundable: Option<int>)
    ensures var (after, applied) := ExtendApplied(o, s, store, ledgerSeq, extendTo, r, maxRefundable);
            ExtendEffectIs(o, s, store, ledgerSeq, ShortLived(store, ledgerSeq, extendTo, r.readOnly),
                           ExtendedTtl(ledgerSeq, extendTo), maxRefundable, after, applied)
  {
    var moves := ShortLived(store, ledgerSeq, extendTo, r.readOnly);
    forall k | k in moves ensures k in store { ShortLivedKey(store, ledgerSeq, extendTo, r.readOnly, k); }
    OverSizeMeans(s, store, moves);
    if !AnyMoveTooLarge(s, store, moves) {
      TtlsMovedEffect(o, s, store, ledgerSeq, moves, SubmittedTtl(), FromNonzeroTtl, ExtendTarget(ledgerSeq, extendTo),
                      maxRefundable);
    }
  }

  /** An extended TTL is the sum where that fits a u32, and already past where it does not. */
  lemma ExtendedTtlIs(ledgerSeq: u32, extendTo: u32)
    ensures ExtendTarget(ledgerSeq, extendTo) == ledgerSeq + extendTo
    ensures ExtendedTtl(ledgerSeq, extendTo)
         == ledgerSeq + extendTo - if ledgerSeq + extendTo <= U32_MAX then 0 else 0x1_0000_0000
    ensures ExtendTarget(ledgerSeq, extendTo) <= U32_MAX <==> ExtendedTtl(ledgerSeq, extendTo) >= ledgerSeq
  {}

  /**
   * A successful extension keeps the TTL of a live listed key from falling iff
   * ledger + extendTo fits a u32; where it does not, the key is archived at
   * once. It never changes entry bytes, moves no other key, and gives none more
   * than the network's longest TTL unless it already had more.
   */
  lemma ExtendRaisesTtlsIff(o: Oracles, s: Settings, store: Store, ledgerSeq: u32, extendTo: u32, r: Resources,
                            maxRefundable: Option<int>, key: LedgerKey)
    ensures var (after, applied) := ExtendApplied(o, s, store, ledgerSeq, extendTo, r, maxRefundable);
            && SameEntryAt(store, after, key)
            && (!applied.Moved? || key !in r.readOnly || !LiveAt(store, key, ledgerSeq) ==> SameAt(store, after, key))
            && (applied.Moved? && key in r.readOnly && LiveAt(store, key, ledgerSeq) ==>
                  && (ledgerSeq + extendTo <= U32_MAX <==> LiveAt(after, key, store[key].ttl.value))
                  && (ledgerSeq + extendTo <= U32_MAX <==> LiveAt(after, key, ledgerSeq)))
            && (LiveAt(store, key, ledgerSeq) && extendTo <= s.maxEntryTtl - 1 ==>
                  after[key].ttl.value <= Max(store[key].ttl.value, ledgerSeq + s.maxEntryTtl - 1))
  {
    ExtendEffect(o, s, store, ledgerSeq, extendTo, r, maxRefundable);
    ShortLivedKey(store, ledgerSeq, extendTo, r.readOnly, key);
    ExtendedTtlIs(ledgerSeq, extendTo);
  }

  /** An extension preflight refuses a key without a TTL, or a persistent entry that is already past it. */
  lemma ExtendRefusal(store: Store, keys: seq<LedgerKey>, current: u32)
    ensures ExtendFails(store, keys, current) <==>
              exists key :: key in keys
                            && (!(key.DataKey? || key.CodeKey?)
                                || (key in store && store[key].ttl.None?)
                                || (PastAt(store, key, current) && !(key.DataKey? && key.durability == Temporary)))
  {
    forall key
      ensures ExtendRefuses(store, key, current) <==>
                || !(key.DataKey? || key.CodeKey?)
                || (key in store && store[key].ttl.None?)
                || (PastAt(store, key, current) && !(key.DataKey? && key.durability == Temporary))
    {}
  }

  /** What it prices is each key it returns, from its own TTL to the extension's. */
  lemma ExtendPreflightPriced(o: Oracles, store: Store, keys: seq<LedgerKey>, extendTo: u32, current: u32)
    ensures var taken := Filter(Extendable(store, extendTo, current), keys);
            var r := ExtendResourcesOf(o, store, keys, extendTo, current);
            var until := if current + extendTo <= U32_MAX then current + extendTo else U32_MAX;
            && (forall k :: k in taken ==> k in store)
            && multiset(taken) == multiset(r.readOnly)
            && (r.readWrite, r.instructions, r.diskReadBytes, r.writeBytes) == ([], 0, 0, 0)
            && (TotalOrder(o.keyLe) ==> InOrder(o.keyLe, r.readOnly))
            && ArePricedAs(o, store, taken, FromTtl, until,
                           RentChanges(o, store, taken, KnownTtl(), SatAdd32(current, extendTo)))
  {
    var taken, until := Filter(Extendable(store, extendTo, current), keys), SatAdd32(current, extendTo);
    forall k | k in taken ensures k in store { assert Extendable(store, extendTo, current)(k); }
    MovesPriced(o, store, taken, KnownTtl(), FromTtl, until);
    if TotalOrder(o.keyLe) { SortedInOrder(o.keyLe, taken); }
  }

  /** An extension preflight returns exactly the live keys ending before its own, saturating, extension. */
  lemma ExtendPreflightFootprint(o: Oracles, store: Store, keys: seq<LedgerKey>, extendTo: u32, current: u32,
                                 key: LedgerKey)
    requires !ExtendFails(store, keys, current)
    ensures key in ExtendResourcesOf(o, store, keys, extendTo, current).readOnly <==>
              key in keys && LiveAt(store, key, current) && PastAt(store, key, SatAdd32(current, extendTo))
    ensures key in keys && key in store ==> IsTtlKey(key) && (LiveAt(store, key, current) || IsTemporaryKey(key))
  {
    SortedMembers(o.keyLe, Filter(Extendable(store, extendTo, current), keys));
    if key in keys { assert !ExtendRefuses(store, key, current); }
    assert Extendable(store, extendTo, current)(key)
      <==> LiveAt(store, key, current) && PastAt(store, key, SatAdd32(current, extendTo));
  }

  lemma {:induction false} FilterEqual(p: LedgerKey -> bool, q: LedgerKey -> bool, keys: seq<LedgerKey>)
    requires forall k :: k in keys ==> p(k) == q(k)
    ensures Filter(p, keys) == Filter(q, keys)
  {
    if keys == [] {
    } else {
      FilterEqual(p, q, keys[1..]);
    }
  }

  /** One ledger on, the returned keys that still live are the ones an extension moves. */
  lemma ReturnedLiving(o: Oracles, store: Store, later: Store, keys: seq<LedgerKey>, extendTo: u32, ledgerSeq: u32)
    requires 1 <= ledgerSeq && SameContractEntries(store, later) && !ExtendFails(store, keys, ledgerSeq - 1)
    ensures var returned := ExtendResourcesOf(o, store, keys, extendTo, ledgerSeq - 1).readOnly;
            && ShortLived(later, ledgerSeq, extendTo, returned) == LivingKeys(later, ledgerSeq, returned)
            && forall k :: k in returned ==> IsTtlKey(k)
  {
    var returned := ExtendResourcesOf(o, store, keys, extendTo, ledgerSeq - 1).readOnly;
    var p := ExtendMoves(later, ledgerSeq, ExtendTarget(ledgerSeq, extendTo));
    forall k | k in returned ensures IsTtlKey(k) && p(k) == Living(later, ledgerSeq)(k) {
      ReturnedKey(o, store, later, keys, extendTo, ledgerSeq, k);
    }
    FilterEqual(p, Living(later, ledgerSeq), returned);
  }

  lemma ReturnedKey(o: Oracles, store: Store, later: Store, keys: seq<LedgerKey>, extendTo: u32, ledgerSeq: u32,
                    k: LedgerKey)
    requires 1 <= ledgerSeq && SameContractEntries(store, later) && !ExtendFails(store, keys, ledgerSeq - 1)
    requires k in ExtendResourcesOf(o, store, keys, extendTo, ledgerSeq - 1).readOnly
    ensures IsTtlKey(k)
    ensures ExtendMoves(later, ledgerSeq, ExtendTarget(ledgerSeq, extendTo))(k) == Living(later, ledgerSeq)(k)
  {
    ExtendPreflightFootprint(o, store, keys, extendTo, ledgerSeq - 1, k);
    assert SameAt(store, later, k);
  }

  /**
   * An extension simulated in the last closed ledger and applied in the next:
   * success moves exactly the returned keys still live, each to ledger + extendTo
   * if that fits a u32; if it does not, success archives them.
   */
  lemma ExtendSimulatedThenApplied(o: Oracles, s: Settings, store: Store, later: Store, keys: seq<LedgerKey>,
                                   extendTo: u32, ledgerSeq: u32, maxRefundable: Option<int>)
    requires 1 <= ledgerSeq && SameContractEntries(store, later) && !ExtendFails(store, keys, ledgerSeq - 1)
    ensures var r := ExtendResourcesOf(o, store, keys, extendTo, ledgerSeq - 1);
            var (after, applied) := ExtendApplied(o, s, later, ledgerSeq, extendTo, r, maxRefundable);
            var ttl := ExtendedTtl(ledgerSeq, extendTo);
            && ExtendEffectIs(o, s, later, ledgerSeq, LivingKeys(later, ledgerSeq, r.readOnly), ttl, maxRefundable,
                              after, applied)
            && ttl == ledgerSeq + extendTo - (if ledgerSeq + extendTo <= U32_MAX then 0 else 0x1_0000_0000)
            && (ledgerSeq + extendTo <= U32_MAX <==> ttl >= ledgerSeq)
  {
    var r := ExtendResourcesOf(o, store, keys, extendTo, ledgerSeq - 1);
    ReturnedLiving(o, store, later, keys, extendTo, ledgerSeq);
    ExtendEffect(o, s, later, ledgerSeq, extendTo, r, maxRefundable);
    ExtendedTtlIs(ledgerSeq, extendTo);
  }

  // ---- restoring -----------------------------------------------------------------------

  lemma {:induction false} FilterKeepsAll(p: LedgerKey -> bool, keys: seq<LedgerKey>)
    requires forall k :: k in keys ==> p(k)
    ensures Filter(p, keys) == keys
  {
    if keys == [] {
    } else {
      FilterKeepsAll(p, keys[1..]);
    }
  }

  lemma {:induction false} SumFiltered<T(!new)>(f: T -> nat, g: T -> nat, p: T -> bool, s: seq<T>)
    requires forall x :: x in s ==> g(x) == if p(x) then f(x) else 0
    ensures Sum(f, Filter(p, s)) == Sum(g, s)
  {
    if s == [] {
    } else {
      SumFiltered(f, g, p, s[1..]);
      SumAppend(f, if p(s[0]) then [s[0]] else [], Filter(p, s[1..]));
    }
  }

  function PastSizes(store: Store, current: u32): LedgerKey -> nat {
    (k: LedgerKey) => if PastAt(store, k, current) then EntrySize(store[k].entry) else 0
  }

  /**
   * A restoration preflight refuses a TTL past a u32, and a key that is not
   * persistent or has no entry or TTL. Otherwise it returns the keys past their
   * TTL, declares their bytes in all, saturated, and prices each as new.
   */
  lemma RestorePreflight(o: Oracles, s: Settings, store: Store, keys: seq<LedgerKey>, current: u32, key: LedgerKey)
    ensures RestoreFails(s, store, keys, current) <==>
              || current + s.minPersistentTtl - 1 > U32_MAX
              || exists k :: k in keys && (!(k.CodeKey? || (k.DataKey? && k.durability == Persistent))
                                           || k !in store || store[k].ttl.None?)
    ensures var taken, r := Filter(Restorable(store, current), keys), RestoreResourcesOf(o, store, keys, current);
            && (forall k :: k in taken ==> k in store)
            && multiset(taken) == multiset(r.readWrite)
            && (key in r.readWrite <==> key in keys && PastAt(store, key, current))
            && (r.readOnly, r.instructions) == ([], 0)
            && r.diskReadBytes == r.writeBytes == Min(Sum(PastSizes(store, current), keys), U32_MAX)
            && (TotalOrder(o.keyLe) ==> InOrder(o.keyLe, r.readWrite))
            && ArePricedAs(o, store, taken, FromArchive, RestoredUntil(s, current),
                           RentChanges(o, store, taken, ArchivedTtl(), RestoredUntil(s, current)))
    ensures !RestoreFails(s, store, keys, current) ==> RestoredUntil(s, current) == current + s.minPersistentTtl - 1
  {
    forall k ensures RestoreRefuses(store, k) <==>
                       !(k.CodeKey? || (k.DataKey? && k.durability == Persistent)) || k !in store || store[k].ttl.None?
    {}
    var taken := Filter(Restorable(store, current), keys);
    forall k | k in taken ensures k in store { assert Restorable(store, current)(k); }
    MovesPriced(o, store, taken, ArchivedTtl(), FromArchive, RestoredUntil(s, current));
    SortedMembers(o.keyLe, taken);
    SumFiltered(EntrySizes(store), PastSizes(store, current), Restorable(store, current), keys);
    if TotalOrder(o.keyLe) { SortedInOrder(o.keyLe, taken); }
  }

  /** Every returned key is still archived one ledger later, with the same bytes in all. */
  lemma RestoreFootprintStaysArchived(o: Oracles, store: Store, later: Store, keys: seq<LedgerKey>, ledgerSeq: u32)
    requires 1 <= ledgerSeq && SameContractEntries(store, later)
    requires forall key :: key in keys ==> !RestoreRefuses(store, key)
    ensures var restored := Filter(Restorable(store, ledgerSeq - 1), keys);
            var footprint := Sorted(o.keyLe, restored);
            && Filter(Restorable(later, ledgerSeq), footprint) == footprint
            && Sum(EntrySizes(later), footprint) == Sum(EntrySizes(store), restored)
  {
    var restored := Filter(Restorable(store, ledgerSeq - 1), keys);
    var footprint := Sorted(o.keyLe, restored);
    SortedMembers(o.keyLe, restored);
    forall k | k in footprint ensures Restorable(later, ledgerSeq)(k) && EntrySizes(later)(k) == EntrySizes(store)(k) {
      assert k in restored && Restorable(store, ledgerSeq - 1)(k) && !RestoreRefuses(store, k);
      assert SameAt(store, later, k);
    }
    FilterKeepsAll(Restorable(later, ledgerSeq), footprint);
    SumEqual(EntrySizes(later), EntrySizes(store), footprint);
    SumPermutation(EntrySizes(store), footprint, restored);
  }

  /** After an accepted simulation the restored TTL is the sum, or 0 in the one ledger where that is 2^32. */
  lemma RestoredTtlIs(s: Settings, store: Store, keys: seq<LedgerKey>, ledgerSeq: u32)
    requires 1 <= ledgerSeq && !RestoreFails(s, store, keys, ledgerSeq - 1)
    ensures RestoreTarget(s, ledgerSeq) == ledgerSeq + s.minPersistentTtl - 1
    ensures RestoredTtl(s, ledgerSeq) == if RestoreTarget(s, ledgerSeq) <= U32_MAX then RestoreTarget(s, ledgerSeq)
        else 0
    ensures RestoreTarget(s, ledgerSeq) <= U32_MAX <==> RestoredTtl(s, ledgerSeq) >= ledgerSeq
  {}

  /**
   * A restoration simulated in the last closed ledger and applied in the next
   * with the returned footprint and byte counts breaks a declared count only if
   * the total does not fit a u32. Apart from that, only an entry over the size
   * limit or rent past the refundable fee stops it, and then nothing is written.
   * Success gives each key ledger + minPersistentTTL - 1 if that fits a u32; if
   * not, it is charged for and leaves every key archived, with TTL 0.
   */
  lemma RestoreSimulatedThenApplied(o: Oracles, s: Settings, store: Store, later: Store, keys: seq<LedgerKey>,
                                    ledgerSeq: u32, maxRefundable: Option<int>)
    requires 1 <= ledgerSeq && SameContractEntries(store, later)
    requires !RestoreFails(s, store, keys, ledgerSeq - 1)
    ensures var r := RestoreResourcesOf(o, store, keys, ledgerSeq - 1);
            var footprint, ttl := r.readWrite, RestoredTtl(s, ledgerSeq);
            var (after, applied) := RestoreApplied(o, s, later, ledgerSeq, r, maxRefundable);
            && RestoreEffectIs(o, s, later, ledgerSeq, footprint, maxRefundable, after, applied)
            && (var until := ledgerSeq + s.minPersistentTtl - 1;
                && ttl == (if until <= U32_MAX then until else 0)
                && (until <= U32_MAX <==> ttl >= ledgerSeq))
  {
    RestoreFootprintStaysArchived(o, store, later, keys, ledgerSeq);
    var restored := Filter(Restorable(store, ledgerSeq - 1), keys);
    RestoreEffect(o, s, later, ledgerSeq, Sorted(o.keyLe, restored), RestoreBytes(store, restored), maxRefundable);
    RestoredTtlIs(s, store, keys, ledgerSeq);
  }

  /** What restoring a wholly archived footprint, its total declared, comes to. */
  ghost predicate RestoreEffectIs(o: Oracles, s: Settings, store: Store, ledgerSeq: u32, footprint: seq<LedgerKey>,
                                  maxRefundable: Option<int>, after: Store, applied: Applied) {
    && (forall k :: k in footprint ==> k in store)
    && (applied.OverLimit? <==> AnyOverSize(s, store, footprint) || Sum(EntrySizes(store), footprint) > U32_MAX)
    && (applied.Short? <==>
          !applied.OverLimit?
          && RentPasses(maxRefundable,
                        RentOf(o, s, store, footprint, FromArchive, RestoredTtl(s, ledgerSeq), ledgerSeq)))
    && if applied.Moved? then
         applied.changed == footprint && after == WithTtl(store, footprint, RestoredTtl(s, ledgerSeq))
         && applied.rent == RentOf(o, s, store, footprint, FromArchive, RestoredTtl(s, ledgerSeq), ledgerSeq)
       else after == store
  }

  /** The listed keys a restoration moves: present, with a TTL past. */
  function ArchivedKeys(store: Store, ledgerSeq: u32, keys: seq<LedgerKey>): (r: seq<LedgerKey>)
    ensures forall k :: k in r ==> k in keys && PastAt(store, k, ledgerSeq)
  {
    Filter((k: LedgerKey) => PastAt(store, k, ledgerSeq), keys)
  }

  lemma ArchivedAre(store: Store, ledgerSeq: u32, keys: seq<LedgerKey>)
    ensures Filter(Restorable(store, ledgerSeq), keys) == ArchivedKeys(store, ledgerSeq, keys)
  {
    FilterEqual(Restorable(store, ledgerSeq), (k: LedgerKey) => PastAt(store, k, ledgerSeq), keys);
  }

  /** More bytes than either declared count, or an entry over the network's limit. */
  ghost predicate RestoresTooMuch(s: Settings, store: Store, moves: seq<LedgerKey>, r: Resources) {
    || AnyOverSize(s, store, moves)
    || Sum(EntrySizes(store), moves) > r.diskReadBytes || Sum(EntrySizes(store), moves) > r.writeBytes
  }

  /** What a restoration comes to with any footprint and any declared counts. */
  ghost predicate RestorationIs(o: Oracles, s: Settings, store: Store, ledgerSeq: u32, moves: seq<LedgerKey>,
                                r: Resources, maxRefundable: Option<int>, after: Store, applied: Applied) {
    && (forall k :: k in moves ==> k in store)
    && (applied.OverLimit? <==> RestoresTooMuch(s, store, moves, r))
    && (applied.OverLimit? ==> after == store)
    && (!applied.OverLimit? ==>
          AllOrNoneMoved(o, s, store, ledgerSeq, moves, FromArchive, RestoredTtl(s, ledgerSeq), maxRefundable, after,
                         applied))
  }

  /** A restoration moves the listed keys that are archived, all or none. */
  lemma RestorationEffect(o: Oracles, s: Settings, store: Store, ledgerSeq: u32, r: Resources,
                          maxRefundable: Option<int>)
    ensures var (after, applied) := RestoreApplied(o, s, store, ledgerSeq, r, maxRefundable);
            RestorationIs(o, s, store, ledgerSeq, ArchivedKeys(store, ledgerSeq, r.readWrite), r, maxRefundable, after,
                          applied)
  {
    var moves := ArchivedKeys(store, ledgerSeq, r.readWrite);
    ArchivedAre(store, ledgerSeq, r.readWrite);
    OverSizeMeans(s, store, moves);
    if !RestoreOverLimit(s, store, moves, r) {
      TtlsMovedEffect(o, s, store, ledgerSeq, moves, ArchivedTtl(), FromArchive, RestoreTarget(s, ledgerSeq),
                      maxRefundable);
    }
  }

  lemma RestoreEffect(o: Oracles, s: Settings, store: Store, ledgerSeq: u32, footprint: seq<LedgerKey>, bytes: u32,
                      maxRefundable: Option<int>)
    requires Filter(Restorable(store, ledgerSeq), footprint) == footprint
    requires bytes == Min(Sum(EntrySizes(store), footprint), U32_MAX)
    ensures var (after, applied) :=
              RestoreApplied(o, s, store, ledgerSeq, Resources([], footprint, 0, bytes, bytes), maxRefundable);
            RestoreEffectIs(o, s, store, ledgerSeq, footprint, maxRefundable, after, applied)
  {
    ArchivedAre(store, ledgerSeq, footprint);
    RestorationEffect(o, s, store, ledgerSeq, Resources([], footprint, 0, bytes, bytes), maxRefundable);
  }
}
