/**
 * ExtendFootprintTTL and RestoreFootprint: the preflight of
 * crates/host-wasm/src/lib.rs, the application of src/classic.ts, and why the
 * second accepts what the first returns.
 */
module FootprintOps {
  import opened Sequences
  import opened Xdr
  import opened Host
  import opened Fees
  import opened Environment

  // ---- sorting the returned footprint ----------------------------------------------

  function Insert(le: (LedgerKey, LedgerKey) -> bool, k: LedgerKey, s: seq<LedgerKey>): (r: seq<LedgerKey>)
    ensures multiset(r) == multiset(s) + multiset{k}
  {
    if s == [] || le(k, s[0]) then [k] + s
    else
      assert s == [s[0]] + s[1..];
      [s[0]] + Insert(le, k, s[1..])
  }

  function Sorted(le: (LedgerKey, LedgerKey) -> bool, s: seq<LedgerKey>): (r: seq<LedgerKey>)
    ensures multiset(r) == multiset(s)
  {
    if s == [] then []
    else
      assert s == [s[0]] + s[1..];
      Insert(le, s[0], Sorted(le, s[1..]))
  }

  lemma SortedMembers(le: (LedgerKey, LedgerKey) -> bool, s: seq<LedgerKey>)
    ensures forall k :: k in Sorted(le, s) <==> k in s
  {
    assert forall k :: k in Sorted(le, s) <==> k in multiset(Sorted(le, s));
    assert forall k :: k in s <==> k in multiset(s);
  }

  ghost predicate TotalOrder(le: (LedgerKey, LedgerKey) -> bool) {
    && (forall a, b :: le(a, b) || le(b, a))
    && (forall a, b, c :: le(a, b) && le(b, c) ==> le(a, c))
  }

  ghost predicate InOrder(le: (LedgerKey, LedgerKey) -> bool, s: seq<LedgerKey>) {
    forall i, j :: 0 <= i < j < |s| ==> le(s[i], s[j])
  }

  lemma {:induction false} InsertedInOrder(le: (LedgerKey, LedgerKey) -> bool, k: LedgerKey, s: seq<LedgerKey>)
    requires TotalOrder(le) && InOrder(le, s)
    ensures InOrder(le, Insert(le, k, s))
  {
    if s == [] || le(k, s[0]) {
    } else {
      InsertedInOrder(le, k, s[1..]);
      var rest := Insert(le, k, s[1..]);
      forall x | x in rest ensures le(s[0], x) {
        assert x in multiset(rest);
        assert x == k || x in s[1..];
      }
    }
  }

  /** The returned footprint is in key order. */
  lemma {:induction false} SortedInOrder(le: (LedgerKey, LedgerKey) -> bool, s: seq<LedgerKey>)
    requires TotalOrder(le)
    ensures InOrder(le, Sorted(le, s))
  {
    if s == [] {
    } else {
      SortedInOrder(le, s[1..]);
      InsertedInOrder(le, s[0], Sorted(le, s[1..]));
    }
  }

  // ---- rent ------------------------------------------------------------------------

  /** rent_change_without_modification: `before` is None for an entry back from the archive. */
  function RentChangeFor(key: LedgerKey, size: u32, before: Option<u32>, newLiveUntil: u32): RentChange {
    RentChange(!IsTemporaryKey(key), key.CodeKey?, if before.Some? then size else 0, size,
               if before.Some? then before.value else 0, newLiveUntil)
  }

  /** The TTL a preflight, a submitted extension and a restoration each count from. */
  function KnownTtl(): Stored -> Option<u32> { (e: Stored) => e.ttl }
  function SubmittedTtl(): Stored -> Option<u32> { (e: Stored) => if e.ttl == Some(0) then None else e.ttl }
  function ArchivedTtl(): Stored -> Option<u32> { (e: Stored) => None }

  function RentChanges(o: Oracles, store: Store, keys: seq<LedgerKey>, before: Stored -> Option<u32>,
                       newLiveUntil: u32): (r: seq<RentChange>)
    requires forall k :: k in keys ==> k in store
    ensures |r| == |keys|
  {
    if keys == [] then []
    else
      var n := |keys| - 1;
      var e := store[keys[n]];
      RentChanges(o, store, keys[..n], before, newLiveUntil)
      + [RentChangeFor(keys[n], o.rentSize(e.entry), before(e), newLiveUntil)]
  }

  lemma RentChangesSnoc(o: Oracles, store: Store, keys: seq<LedgerKey>, key: LedgerKey, before: Stored -> Option<u32>,
                        newLiveUntil: u32)
    requires key in store && forall k :: k in keys ==> k in store
    ensures RentChanges(o, store, keys + [key], before, newLiveUntil)
         == RentChanges(o, store, keys, before, newLiveUntil)
            + [RentChangeFor(key, o.rentSize(store[key].entry), before(store[key]), newLiveUntil)]
  {
    assert (keys + [key])[..|keys|] == keys;
  }

  /** What a preflight loop holds after `keys`: the ones it took, and their rent changes. */
  ghost predicate Scanned(o: Oracles, store: Store, p: LedgerKey -> bool, keys: seq<LedgerKey>,
                          before: Stored -> Option<u32>,
                          newLiveUntil: u32, taken: seq<LedgerKey>, rentChanges: seq<RentChange>) {
    && taken == Filter(p, keys)
    && (forall k :: k in taken ==> k in store)
    && rentChanges == RentChanges(o, store, taken, before, newLiveUntil)
  }

  lemma ScannedTake(o: Oracles, store: Store, p: LedgerKey -> bool, keys: seq<LedgerKey>, i: nat,
                    before: Stored -> Option<u32>,
                    newLiveUntil: u32, taken: seq<LedgerKey>, rentChanges: seq<RentChange>)
    requires i < |keys| && p(keys[i]) && keys[i] in store
    requires Scanned(o, store, p, keys[..i], before, newLiveUntil, taken, rentChanges)
    ensures var e := store[keys[i]];
            Scanned(o, store, p, keys[..i + 1], before, newLiveUntil, taken + [keys[i]],
                    rentChanges + [RentChangeFor(keys[i], o.rentSize(e.entry), before(e), newLiveUntil)])
  {
    FilterSnoc(p, keys, i);
    RentChangesSnoc(o, store, taken, keys[i], before, newLiveUntil);
  }

  lemma ScannedSkip(o: Oracles, store: Store, p: LedgerKey -> bool, keys: seq<LedgerKey>, i: nat,
                    before: Stored -> Option<u32>,
                    newLiveUntil: u32, taken: seq<LedgerKey>, rentChanges: seq<RentChange>)
    requires i < |keys| && !p(keys[i])
    requires Scanned(o, store, p, keys[..i], before, newLiveUntil, taken, rentChanges)
    ensures Scanned(o, store, p, keys[..i + 1], before, newLiveUntil, taken, rentChanges)
  {
    FilterSnoc(p, keys, i);
  }

  // ---- the preflight -----------------------------------------------------------------

  datatype Preflight = Refusal | Preflight(resources: Resources, rentChanges: seq<RentChange>)

  datatype Verdict = Take | Skip | Refuse

  function EntrySizes(store: Store): LedgerKey -> nat {
    (k: LedgerKey) => if k in store then EntrySize(store[k].entry) else 0
  }

  /** No TTL to extend, or an expired persistent entry. */
  predicate ExtendRefuses(store: Store, key: LedgerKey, current: u32) {
    !IsTtlKey(key) || (key in store && (store[key].ttl.None?
                                        || (!IsTemporaryKey(key) && store[key].ttl.value < current)))
  }

  /** Live, and ending before the extension. */
  function Extendable(store: Store, extendTo: u32, current: u32): LedgerKey -> bool {
    (key: LedgerKey) =>
      key in store && store[key].ttl.Some? && current <= store[key].ttl.value < SatAdd32(current, extendTo)
  }

  /** One key of extend_ttl_resources, its tests in order. */
  function ExtendVerdict(store: Store, key: LedgerKey, extendTo: u32, current: u32): (v: Verdict)
    ensures v.Refuse? <==> ExtendRefuses(store, key, current)
    ensures v.Take? <==> !ExtendRefuses(store, key, current) && Extendable(store, extendTo, current)(key)
  {
    if !IsTtlKey(key) then Refuse
    else if key !in store then Skip
    else if store[key].ttl.None? then Refuse
    else
      var liveUntil := store[key].ttl.value;
      if IsTemporaryKey(key) && liveUntil < current then Skip
      else if SatAdd32(current, extendTo) <= liveUntil then Skip
      else if liveUntil < current then Refuse
      else Take
  }

  ghost predicate ExtendFails(store: Store, keys: seq<LedgerKey>, current: u32) {
    exists key :: key in keys && ExtendRefuses(store, key, current)
  }

  /** What the loop of extend_ttl_resources holds after `i` keys. */
  ghost predicate ExtendSeen(o: Oracles, store: Store, keys: seq<LedgerKey>, i: nat, extendTo: u32, current: u32,
                             extended: seq<LedgerKey>, rentChanges: seq<RentChange>) {
    && i <= |keys|
    && Scanned(o, store, Extendable(store, extendTo, current), keys[..i], KnownTtl(), SatAdd32(current, extendTo),
               extended, rentChanges)
    && forall j :: 0 <= j < i ==> !ExtendRefuses(store, keys[j], current)
  }

  lemma ExtendSeenNext(o: Oracles, store: Store, keys: seq<LedgerKey>, i: nat, extendTo: u32, current: u32,
                       extended: seq<LedgerKey>, rentChanges: seq<RentChange>)
    requires i < |keys| && ExtendSeen(o, store, keys, i, extendTo, current, extended, rentChanges)
    ensures var v, until := ExtendVerdict(store, keys[i], extendTo, current), SatAdd32(current, extendTo);
            && (v.Skip? ==> ExtendSeen(o, store, keys, i + 1, extendTo, current, extended, rentChanges))
            && (v.Take? ==>
                  var e := store[keys[i]];
                  ExtendSeen(o, store, keys, i + 1, extendTo, current, extended + [keys[i]],
                             rentChanges + [RentChangeFor(keys[i], o.rentSize(e.entry), e.ttl, until)]))
  {
    var p, until := Extendable(store, extendTo, current), SatAdd32(current, extendTo);
    match ExtendVerdict(store, keys[i], extendTo, current)
    case Refuse =>
    case Skip => ScannedSkip(o, store, p, keys, i, KnownTtl(), until, extended, rentChanges);
    case Take => ScannedTake(o, store, p, keys, i, KnownTtl(), until, extended, rentChanges);
  }

  /** The resources a successful extension preflight returns. */
  function ExtendResourcesOf(o: Oracles, store: Store, keys: seq<LedgerKey>, extendTo: u32, current: u32): Resources {
    Resources(Sorted(o.keyLe, Filter(Extendable(store, extendTo, current), keys)), [], 0, 0, 0)
  }

  /** What an extension preflight answers. */
  ghost predicate ExtendPreflights(o: Oracles, store: Store, keys: seq<LedgerKey>, extendTo: u32, current: u32,
                                   p: Preflight) {
    && (p.Refusal? <==> ExtendFails(store, keys, current))
    && (p.Preflight? ==>
          var taken := Filter(Extendable(store, extendTo, current), keys);
          && p.resources == ExtendResourcesOf(o, store, keys, extendTo, current)
          && (forall k :: k in taken ==> k in store)
          && p.rentChanges == RentChanges(o, store, taken, KnownTtl(), SatAdd32(current, extendTo)))
  }

  method ExtendTtlResources(o: Oracles, store: Store, keys: seq<LedgerKey>, extendTo: u32, current: u32)
    returns (p: Preflight)
    ensures ExtendPreflights(o, store, keys, extendTo, current, p)
  {
    var newLiveUntil := SatAdd32(current, extendTo);
    var extended: seq<LedgerKey> := [];
    var rentChanges := [];
    for i := 0 to |keys|
      invariant ExtendSeen(o, store, keys, i, extendTo, current, extended, rentChanges)
    {
      ExtendSeenNext(o, store, keys, i, extendTo, current, extended, rentChanges);
      match ExtendVerdict(store, keys[i], extendTo, current)
      case Refuse => return Refusal;
      case Skip =>
      case Take =>
        var e := store[keys[i]];
        extended := extended + [keys[i]];
        rentChanges := rentChanges + [RentChangeFor(keys[i], o.rentSize(e.entry), e.ttl, newLiveUntil)];
    }
    assert keys[..|keys|] == keys;
    p := Preflight(Resources(Sorted(o.keyLe, extended), [], 0, 0, 0), rentChanges);
  }

  /** Not persistent, or missing. */
  predicate RestoreRefuses(store: Store, key: LedgerKey) {
    !IsPersistentKey(key) || key !in store || store[key].ttl.None?
  }

  /** One key of restore_resources. */
  function RestoreVerdict(store: Store, key: LedgerKey, current: u32): (v: Verdict)
    ensures v.Refuse? <==> RestoreRefuses(store, key)
    ensures v.Take? <==> !RestoreRefuses(store, key) && Restorable(store, current)(key)
  {
    if !IsPersistentKey(key) then Refuse
    else if key !in store then Refuse
    else if store[key].ttl.None? then Refuse
    else if store[key].ttl.value >= current then Skip
    else Take
  }

  function Restorable(store: Store, current: u32): LedgerKey -> bool {
    (key: LedgerKey) => key in store && Expired(store[key].ttl, current)
  }

  ghost predicate RestoreFails(s: Settings, store: Store, keys: seq<LedgerKey>, current: u32) {
    || RestoreTarget(s, current) > U32_MAX
    || exists key :: key in keys && RestoreRefuses(store, key)
  }

  function RestoreBytes(store: Store, keys: seq<LedgerKey>): u32 { Min(Sum(EntrySizes(store), keys), U32_MAX) }

  lemma RestoreBytesSnoc(store: Store, keys: seq<LedgerKey>, key: LedgerKey)
    requires key in store
    ensures Sum(EntrySizes(store), keys + [key]) == Sum(EntrySizes(store), keys) + EntrySize(store[key].entry)
    ensures RestoreBytes(store, keys + [key])
        == SatAdd32(RestoreBytes(store, keys), Clamp32(EntrySize(store[key].entry)))
  {
    SumAppend(EntrySizes(store), keys, [key]);
    assert Sum(EntrySizes(store), [key]) == EntrySizes(store)(key) + Sum(EntrySizes(store), []);
  }

  /** What the loop of restore_resources holds after `i` keys. */
  ghost predicate RestoreSeen(o: Oracles, store: Store, keys: seq<LedgerKey>, i: nat, current: u32, liveUntil: u32,
                              restored: seq<LedgerKey>, rentChanges: seq<RentChange>, bytes: u32) {
    && i <= |keys|
    && Scanned(o, store, Restorable(store, current), keys[..i], ArchivedTtl(), liveUntil, restored, rentChanges)
    && bytes == RestoreBytes(store, restored)
    && forall j :: 0 <= j < i ==> !RestoreRefuses(store, keys[j])
  }

  lemma RestoreSeenNext(o: Oracles, store: Store, keys: seq<LedgerKey>, i: nat, current: u32, liveUntil: u32,
                        restored: seq<LedgerKey>, rentChanges: seq<RentChange>, bytes: u32)
    requires i < |keys| && RestoreSeen(o, store, keys, i, current, liveUntil, restored, rentChanges, bytes)
    ensures var v := RestoreVerdict(store, keys[i], current);
            && (v.Skip? ==> RestoreSeen(o, store, keys, i + 1, current, liveUntil, restored, rentChanges, bytes))
            && (v.Take? ==>
                  var e := store[keys[i]].entry;
                  RestoreSeen(o, store, keys, i + 1, current, liveUntil, restored + [keys[i]],
                              rentChanges + [RentChangeFor(keys[i], o.rentSize(e), None, liveUntil)],
                              SatAdd32(bytes, Clamp32(EntrySize(e)))))
  {
    match RestoreVerdict(store, keys[i], current)
    case Refuse =>
    case Skip => ScannedSkip(o, store, Restorable(store, current), keys, i, ArchivedTtl(), liveUntil, restored,
                             rentChanges);
    case Take =>
      ScannedTake(o, store, Restorable(store, current), keys, i, ArchivedTtl(), liveUntil, restored, rentChanges);
      RestoreBytesSnoc(store, restored, keys[i]);
  }

  /** min_live_until_ledger for a persistent entry, where it does not overflow. */
  function RestoredUntil(s: Settings, current: u32): u32 { Min(RestoreTarget(s, current), U32_MAX) }

  /** The resources a successful restoration preflight returns. */
  function RestoreResourcesOf(o: Oracles, store: Store, keys: seq<LedgerKey>, current: u32): Resources {
    var restored := Filter(Restorable(store, current), keys);
    Resources([], Sorted(o.keyLe, restored), 0, RestoreBytes(store, restored), RestoreBytes(store, restored))
  }

  /** What a restoration preflight answers. */
  ghost predicate RestorePreflights(o: Oracles, s: Settings, store: Store, keys: seq<LedgerKey>, current: u32,
                                    p: Preflight) {
    && (p.Refusal? <==> RestoreFails(s, store, keys, current))
    && (p.Preflight? ==>
          var taken := Filter(Restorable(store, current), keys);
          && p.resources == RestoreResourcesOf(o, store, keys, current)
          && (forall k :: k in taken ==> k in store)
          && p.rentChanges == RentChanges(o, store, taken, ArchivedTtl(), RestoredUntil(s, current)))
  }

  method RestoreResources(o: Oracles, s: Settings, store: Store, keys: seq<LedgerKey>, current: u32)
    returns (p: Preflight)
    ensures RestorePreflights(o, s, store, keys, current, p)
  {
    if RestoreTarget(s, current) > U32_MAX { return Refusal; }
    var restoredLiveUntil := RestoredUntil(s, current);
    var restored: seq<LedgerKey> := [];
    var rentChanges := [];
    var bytes: u32 := 0;
    for i := 0 to |keys|
      invariant RestoreSeen(o, store, keys, i, current, restoredLiveUntil, restored, rentChanges, bytes)
    {
      RestoreSeenNext(o, store, keys, i, current, restoredLiveUntil, restored, rentChanges, bytes);
      match RestoreVerdict(store, keys[i], current)
      case Refuse => return Refusal;
      case Skip =>
      case Take =>
        var e := store[keys[i]].entry;
        restored := restored + [keys[i]];
        bytes := SatAdd32(bytes, Clamp32(EntrySize(e)));
        rentChanges := rentChanges + [RentChangeFor(keys[i], o.rentSize(e), None, restoredLiveUntil)];
    }
    assert keys[..|keys|] == keys;
    p := Preflight(Resources([], Sorted(o.keyLe, restored), 0, bytes, bytes), rentChanges);
  }

  // ---- the application -----------------------------------------------------------------

  datatype Applied = Moved(changed: seq<LedgerKey>, rent: int) | Short | OverLimit

  /** The store with these keys' TTLs moved and nothing else. */
  function WithTtl(store: Store, keys: seq<LedgerKey>, ttl: u32): Store {
    map k | k in store :: if k in keys then store[k].(ttl := Some(ttl)) else store[k]
  }

  /** moveTtls: every move or none, by whether their rent fits the refundable fee. */
  function TtlsMoved(o: Oracles, s: Settings, store: Store, ledgerSeq: u32, keys: seq<LedgerKey>,
                     before: Stored -> Option<u32>, newLiveUntil: int, maxRefundable: Option<int>): (Store, Applied)
    requires forall k :: k in keys ==> k in store
  {
    var rent := o.rentFee(s.fees, RentChanges(o, store, keys, before, Wrap32(newLiveUntil)), ledgerSeq);
    if maxRefundable.Some? && maxRefundable.value < rent then (store, Short)
    else (WithTtl(store, keys, Wrap32(newLiveUntil)), Moved(keys, rent))
  }

  method MoveTtls(env: SorobanEnv, keys: seq<LedgerKey>, before: Stored -> Option<u32>, newLiveUntil: int,
                  maxRefundable: Option<int>)
    returns (applied: Applied)
    requires WellKeyed(env.store) && forall k :: k in keys ==> k in env.store
    modifies env
    ensures env.State() == old(env.State()).(store := env.store)
    ensures (env.store, applied)
         == TtlsMoved(env.o, env.s, old(env.store), old(env.ledgerSeq), keys, before, newLiveUntil, maxRefundable)
  {
    var rent := env.o.rentFee(env.s.fees, RentChanges(env.o, env.store, keys, before, Wrap32(newLiveUntil)),
                              env.ledgerSeq);
    if maxRefundable.Some? && maxRefundable.value < rent { return Short; }
    ghost var store := env.store;
    assert store == WithTtl(store, [], Wrap32(newLiveUntil));
    for i := 0 to |keys|
      invariant env.State() == old(env.State()).(store := env.store)
      invariant env.store == WithTtl(store, keys[..i], Wrap32(newLiveUntil))
    {
      assert keys[..i + 1] == keys[..i] + [keys[i]];
      var _ := env.PutEntry(env.store[keys[i]].entry, Some(Wrap32(newLiveUntil)));
    }
    assert keys[..|keys|] == keys;
    applied := Moved(keys, rent);
  }

  /** Where an extension applied in this ledger moves a TTL to. */
  function ExtendTarget(ledgerSeq: u32, extendTo: u32): nat { ledgerSeq + extendTo }

  /** The TTL it gets: the JavaScript sum wraps where a u32 ends. */
  function ExtendedTtl(ledgerSeq: u32, extendTo: u32): u32 { Wrap32(ExtendTarget(ledgerSeq, extendTo)) }

  /** A live entry whose TTL ends before the extension. */
  function ExtendMoves(store: Store, ledgerSeq: u32, newLiveUntil: int): LedgerKey -> bool {
    (key: LedgerKey) => key in store && store[key].ttl.Some? && ledgerSeq <= store[key].ttl.value < newLiveUntil
  }

  predicate MoveTooLarge(s: Settings, store: Store, key: LedgerKey) {
    key in store && Oversize(s.fees, key, EntrySize(store[key].entry))
  }

  ghost predicate AnyMoveTooLarge(s: Settings, store: Store, keys: seq<LedgerKey>) {
    exists k :: k in keys && MoveTooLarge(s, store, k)
  }

  lemma MovedKeyTooLarge(s: Settings, store: Store, p: LedgerKey -> bool, keys: seq<LedgerKey>, key: LedgerKey)
    requires key in keys && p(key) && MoveTooLarge(s, store, key)
    ensures AnyMoveTooLarge(s, store, Filter(p, keys))
  {
    assert key in Filter(p, keys);
  }

  ghost function ExtendApplied(o: Oracles, s: Settings, store: Store, ledgerSeq: u32, extendTo: u32, r: Resources,
                               maxRefundable: Option<int>): (Store, Applied)
  {
    var moves := Filter(ExtendMoves(store, ledgerSeq, ExtendTarget(ledgerSeq, extendTo)), r.readOnly);
    if AnyMoveTooLarge(s, store, moves) then (store, OverLimit)
    else TtlsMoved(o, s, store, ledgerSeq, moves, SubmittedTtl(), ExtendTarget(ledgerSeq, extendTo), maxRefundable)
  }

  /** The loop of applyExtendFootprintTtl: the moves to make, or an entry over the size limit. */
  method CollectExtendMoves(s: Settings, store: Store, ledgerSeq: u32, newLiveUntil: int, keys: seq<LedgerKey>)
    returns (fits: bool, moves: seq<LedgerKey>)
    ensures fits <==> !AnyMoveTooLarge(s, store, Filter(ExtendMoves(store, ledgerSeq, newLiveUntil), keys))
    ensures fits ==> moves == Filter(ExtendMoves(store, ledgerSeq, newLiveUntil), keys)
  {
    moves := [];
    ghost var p := ExtendMoves(store, ledgerSeq, newLiveUntil);
    for i := 0 to |keys|
      invariant moves == Filter(p, keys[..i])
      invariant !AnyMoveTooLarge(s, store, moves)
    {
      FilterSnoc(p, keys, i);
      var key := keys[i];
      if key !in store || store[key].ttl.None? || store[key].ttl.value < ledgerSeq { continue; }
      if store[key].ttl.value >= newLiveUntil { continue; }
      if MoveTooLarge(s, store, key) {
        MovedKeyTooLarge(s, store, p, keys, key);
        return false, [];
      }
      moves := moves + [key];
    }
    assert keys[..|keys|] == keys;
    fits := true;
  }

  method ApplyExtendFootprintTtl(env: SorobanEnv, extendTo: u32, r: Resources, maxRefundable: Option<int>)
    returns (applied: Applied)
    requires WellKeyed(env.store)
    modifies env
    ensures env.State() == old(env.State()).(store := env.store)
    ensures (env.store, applied)
         == ExtendApplied(env.o, env.s, old(env.store), old(env.ledgerSeq), extendTo, r, maxRefundable)
  {
    var newLiveUntil := ExtendTarget(env.ledgerSeq, extendTo);
    var fits, moves := CollectExtendMoves(env.s, env.store, env.ledgerSeq, newLiveUntil, r.readOnly);
    if !fits { return OverLimit; }
    applied := MoveTtls(env, moves, SubmittedTtl(), newLiveUntil, maxRefundable);
  }

  /** More restored bytes than either declared count, or an entry over the size limit. */
  ghost predicate RestoreOverLimit(s: Settings, store: Store, moves: seq<LedgerKey>, r: Resources) {
    || Sum(EntrySizes(store), moves) > r.diskReadBytes
    || AnyMoveTooLarge(s, store, moves)
    || Sum(EntrySizes(store), moves) > r.writeBytes
  }

  /** "Including the current ledger." */
  function RestoreTarget(s: Settings, ledgerSeq: u32): nat { ledgerSeq + s.minPersistentTtl - 1 }

  function RestoredTtl(s: Settings, ledgerSeq: u32): u32 { Wrap32(RestoreTarget(s, ledgerSeq)) }

  ghost function RestoreApplied(o: Oracles, s: Settings, store: Store, ledgerSeq: u32, r: Resources,
                                maxRefundable: Option<int>): (Store, Applied)
  {
    var moves := Filter(Restorable(store, ledgerSeq), r.readWrite);
    if RestoreOverLimit(s, store, moves, r) then (store, OverLimit)
    else TtlsMoved(o, s, store, ledgerSeq, moves, ArchivedTtl(), RestoreTarget(s, ledgerSeq), maxRefundable)
  }

  lemma RestorePrefix(s: Settings, store: Store, ledgerSeq: u32, r: Resources, i: nat)
    requires i <= |r.readWrite|
    requires RestoreOverLimit(s, store, Filter(Restorable(store, ledgerSeq), r.readWrite[..i]), r)
    ensures RestoreOverLimit(s, store, Filter(Restorable(store, ledgerSeq), r.readWrite), r)
  {
    var p := Restorable(store, ledgerSeq);
    assert r.readWrite == r.readWrite[..i] + r.readWrite[i..];
    FilterAppend(p, r.readWrite[..i], r.readWrite[i..]);
    SumAppend(EntrySizes(store), Filter(p, r.readWrite[..i]), Filter(p, r.readWrite[i..]));
  }

  /** What the restore loop holds after `keys`. */
  ghost predicate RestoreScanned(s: Settings, store: Store, ledgerSeq: u32, r: Resources, i: nat,
                                 moves: seq<LedgerKey>, bytes: nat)
  {
    && i <= |r.readWrite|
    && moves == Filter(Restorable(store, ledgerSeq), r.readWrite[..i])
    && bytes == Sum(EntrySizes(store), moves)
    && !RestoreOverLimit(s, store, moves, r)
  }

  lemma RestoreNext(s: Settings, store: Store, ledgerSeq: u32, r: Resources, i: nat, moves: seq<LedgerKey>, bytes: nat)
    requires i < |r.readWrite| && RestoreScanned(s, store, ledgerSeq, r, i, moves, bytes)
    ensures var key := r.readWrite[i];
            if !Restorable(store, ledgerSeq)(key) then RestoreScanned(s, store, ledgerSeq, r, i + 1, moves, bytes)
            else
              var size := EntrySize(store[key].entry);
              if bytes + size > r.diskReadBytes || MoveTooLarge(s, store, key) || bytes + size > r.writeBytes
              then RestoreOverLimit(s, store, Filter(Restorable(store, ledgerSeq), r.readWrite), r)
              else RestoreScanned(s, store, ledgerSeq, r, i + 1, moves + [key], bytes + size)
  {
    var key := r.readWrite[i];
    FilterSnoc(Restorable(store, ledgerSeq), r.readWrite, i);
    if Restorable(store, ledgerSeq)(key) {
      RestoreBytesSnoc(store, moves, key);
      assert key in moves + [key];
      if RestoreOverLimit(s, store, moves + [key], r) { RestorePrefix(s, store, ledgerSeq, r, i + 1); }
    }
  }

  /** The byte-summing loop of applyRestoreFootprint. */
  method CollectRestoreMoves(s: Settings, store: Store, ledgerSeq: u32, r: Resources)
    returns (fits: bool, moves: seq<LedgerKey>)
    ensures fits <==> !RestoreOverLimit(s, store, Filter(Restorable(store, ledgerSeq), r.readWrite), r)
    ensures fits ==> moves == Filter(Restorable(store, ledgerSeq), r.readWrite)
  {
    moves := [];
    var readBytes, writeBytes := 0, 0;
    for i := 0 to |r.readWrite|
      invariant RestoreScanned(s, store, ledgerSeq, r, i, moves, readBytes) && writeBytes == readBytes
    {
      RestoreNext(s, store, ledgerSeq, r, i, moves, readBytes);
      var key := r.readWrite[i];
      if key !in store || store[key].ttl.None? || store[key].ttl.value >= ledgerSeq { continue; }
      var size := EntrySize(store[key].entry);
      readBytes := readBytes + size;
      if r.diskReadBytes < readBytes { return false, []; }
      writeBytes := writeBytes + size;
      if Oversize(s.fees, key, size) { return false, []; }
      if r.writeBytes < writeBytes { return false, []; }
      moves := moves + [key];
    }
    assert r.readWrite[..|r.readWrite|] == r.readWrite;
    fits := true;
  }

  method ApplyRestoreFootprint(env: SorobanEnv, r: Resources, maxRefundable: Option<int>) returns (applied: Applied)
    requires WellKeyed(env.store)
    modifies env
    ensures env.State() == old(env.State()).(store := env.store)
    ensures (env.store, applied) == RestoreApplied(env.o, env.s, old(env.store), old(env.ledgerSeq), r, maxRefundable)
  {
    var fits, moves := CollectRestoreMoves(env.s, env.store, env.ledgerSeq, r);
    if !fits { return OverLimit; }
    applied := MoveTtls(env, moves, ArchivedTtl(), RestoreTarget(env.s, env.ledgerSeq), maxRefundable);
  }
}
