/** What one `send` hands the host, answers and leaves, read off the ledger and the host's own outcome. */
module SendLaws {
  import opened Sequences
  import opened Xdr
  import opened Accounts
  import opened Host
  import opened Fees
  import opened Environment
  import opened EnvironmentLaws

  // ---- what is left under each key -------------------------------------------------

  /** The change decides whether the key is there, and with which bytes. */
  predicate Replaces(ch: LedgerChange, key: LedgerKey) {
    ch.key == key && (ch.newValue.Some? || !ch.readOnly)
  }

  /** The change moves the key's TTL alone, if the key is there. */
  predicate Retimes(ch: LedgerChange, key: LedgerKey) {
    ch.key == key && ch.newValue.None? && ch.readOnly && ch.newLiveUntil.Some?
  }

  predicate Affects(ch: LedgerChange, key: LedgerKey) { Replaces(ch, key) || Retimes(ch, key) }

  ghost predicate LastReplacing(changes: seq<LedgerChange>, key: LedgerKey, j: int) {
    0 <= j < |changes| && Replaces(changes[j], key) && forall k :: j < k < |changes| ==> !Replaces(changes[k], key)
  }

  ghost predicate LastAffecting(changes: seq<LedgerChange>, key: LedgerKey, j: int) {
    0 <= j < |changes| && Affects(changes[j], key) && forall k :: j < k < |changes| ==> !Affects(changes[k], key)
  }

  ghost predicate NeverReplaced(changes: seq<LedgerChange>, key: LedgerKey) {
    forall k :: 0 <= k < |changes| ==> !Replaces(changes[k], key)
  }

  ghost predicate NeverAffected(changes: seq<LedgerChange>, key: LedgerKey) {
    forall k :: 0 <= k < |changes| ==> !Affects(changes[k], key)
  }

  /** The bytes the last change that replaces the key gives it, or those it had. */
  ghost predicate HoldsEntry(store: Store, changes: seq<LedgerChange>, key: LedgerKey, entry: LedgerEntry) {
    || (exists j :: LastReplacing(changes, key, j) && changes[j].newValue == Some(entry))
    || (NeverReplaced(changes, key) && key in store && store[key].entry == entry)
  }

  /** The TTL the last change that affects the key gives it, or the one it had. */
  ghost predicate HoldsTtl(store: Store, changes: seq<LedgerChange>, key: LedgerKey, ttl: Option<u32>) {
    || (exists j :: LastAffecting(changes, key, j) && changes[j].newLiveUntil == ttl)
    || (NeverAffected(changes, key) && key in store && store[key].ttl == ttl)
  }

  /** Removed by the last change that replaces it, or missing all along. */
  ghost predicate Gone(store: Store, changes: seq<LedgerChange>, key: LedgerKey) {
    || (exists j :: LastReplacing(changes, key, j) && changes[j].newValue.None?)
    || (NeverReplaced(changes, key) && key !in store)
  }

  ghost predicate AsLastChanged(store: Store, changes: seq<LedgerChange>, after: Store, key: LedgerKey) {
    if key in after then HoldsEntry(store, changes, key, after[key].entry)
        && HoldsTtl(store, changes, key, after[key].ttl)
    else Gone(store, changes, key)
  }

  /** A change that does not replace a key leaves its last replacement the last. */
  lemma StillLastReplacing(changes: seq<LedgerChange>, key: LedgerKey)
    requires changes != [] && !Replaces(changes[|changes| - 1], key)
    ensures var init := changes[..|changes| - 1];
            && (forall j :: LastReplacing(init, key, j) ==> LastReplacing(changes, key, j) && init[j] == changes[j])
            && (NeverReplaced(init, key) ==> NeverReplaced(changes, key))
  {}

  lemma StillLastAffecting(changes: seq<LedgerChange>, key: LedgerKey)
    requires changes != [] && !Affects(changes[|changes| - 1], key)
    ensures var init := changes[..|changes| - 1];
            && (forall j :: LastAffecting(init, key, j) ==> LastAffecting(changes, key, j) && init[j] == changes[j])
            && (NeverAffected(init, key) ==> NeverAffected(changes, key))
  {}

  /** One more change, seen from the store it is merged into. */
  lemma OneMore(store: Store, changes: seq<LedgerChange>, m: Merged, key: LedgerKey)
    requires changes != [] && AsLastChanged(store, changes[..|changes| - 1], m.store, key)
    ensures AsLastChanged(store, changes, MergeOne(m, changes[|changes| - 1]).store, key)
  {
    var n := |changes| - 1;
    if Replaces(changes[n], key) {
      assert LastReplacing(changes, key, n) && LastAffecting(changes, key, n);
    } else {
      StillLastReplacing(changes, key);
      if Retimes(changes[n], key) {
        assert LastAffecting(changes, key, n);
      } else {
        StillLastAffecting(changes, key);
      }
    }
  }

  lemma {:induction false} MergedAsLastChanged(store: Store, changes: seq<LedgerChange>, key: LedgerKey)
    ensures AsLastChanged(store, changes, Merge(store, changes).store, key)
  {
    if changes == [] {
    } else {
      MergedAsLastChanged(store, changes[..|changes| - 1], key);
      OneMore(store, changes, Merge(store, changes[..|changes| - 1]), key);
    }
  }

  /** After the changes before `i` the key is there, with another TTL than this one gives it. */
  ghost predicate RetimedAt(store: Store, changes: seq<LedgerChange>, key: LedgerKey, i: int) {
    && 0 <= i < |changes| && Retimes(changes[i], key)
    && !Gone(store, changes[..i], key) && !HoldsTtl(store, changes[..i], key, changes[i].newLiveUntil)
  }

  lemma OneTtl(store: Store, changes: seq<LedgerChange>, key: LedgerKey, a: Option<u32>, b: Option<u32>)
    requires HoldsTtl(store, changes, key, a) && HoldsTtl(store, changes, key, b)
    ensures a == b
  {
    if j :| LastAffecting(changes, key, j) && changes[j].newLiveUntil == a {
      assert Affects(changes[j], key);
      var k :| LastAffecting(changes, key, k) && changes[k].newLiveUntil == b;
    }
  }

  lemma GoneOrHeld(store: Store, changes: seq<LedgerChange>, key: LedgerKey, entry: LedgerEntry)
    requires HoldsEntry(store, changes, key, entry)
    ensures !Gone(store, changes, key)
  {
    if j :| LastReplacing(changes, key, j) && changes[j].newValue == Some(entry) { assert Replaces(changes[j], key); }
  }

  /** What the last of these changes adds to the keys reported for their TTL. */
  lemma RetimedLast(store: Store, changes: seq<LedgerChange>, key: LedgerKey)
    requires changes != []
    ensures var n := |changes| - 1;
            var m := Merge(store, changes[..n]);
            RetimedAt(store, changes, key, n)
            <==> Retimes(changes[n], key) && key in m.store && m.store[key].ttl != changes[n].newLiveUntil
  {
    var n := |changes| - 1;
    var m := Merge(store, changes[..n]);
    MergedAsLastChanged(store, changes[..n], key);
    if key in m.store {
      GoneOrHeld(store, changes[..n], key, m.store[key].entry);
      if HoldsTtl(store, changes[..n], key, changes[n].newLiveUntil) {
        OneTtl(store, changes[..n], key, m.store[key].ttl, changes[n].newLiveUntil);
      }
    }
  }

  ghost predicate AnyRetimed(store: Store, changes: seq<LedgerChange>, key: LedgerKey) {
    exists i :: RetimedAt(store, changes, key, i)
  }

  lemma RetimedBefore(store: Store, changes: seq<LedgerChange>, key: LedgerKey, i: int)
    requires 0 <= i < |changes| - 1
    ensures RetimedAt(store, changes, key, i) <==> RetimedAt(store, changes[..|changes| - 1], key, i)
  {
    assert changes[..|changes| - 1][..i] == changes[..i];
  }

  lemma RetimedSplits(store: Store, changes: seq<LedgerChange>, key: LedgerKey)
    requires changes != []
    ensures AnyRetimed(store, changes, key)
       <==> AnyRetimed(store, changes[..|changes| - 1], key) || RetimedAt(store, changes, key, |changes| - 1)
  {
    var n := |changes| - 1;
    if i :| RetimedAt(store, changes, key, i) && i != n { RetimedBefore(store, changes, key, i); }
    if i :| RetimedAt(store, changes[..n], key, i) { RetimedBefore(store, changes, key, i); }
  }

  /** A key is reported for its TTL iff some change moved it. */
  lemma {:induction false} RetimedReported(store: Store, changes: seq<LedgerChange>, key: LedgerKey)
    ensures key in Merge(store, changes).ttlChanged <==> AnyRetimed(store, changes, key)
  {
    if changes == [] {
    } else {
      RetimedReported(store, changes[..|changes| - 1], key);
      RetimedLast(store, changes, key);
      RetimedSplits(store, changes, key);
    }
  }

  /**
   * What a successful send leaves under any key, and what it reports of it: the
   * bytes of the last change that replaced the key, the TTL of the last that
   * affected it; changed or removed iff such a change names it, and its TTL
   * reported iff a change moved it. A failed send leaves and reports nothing.
   */
  lemma SendLeaves(o: Oracles, s: Settings, e: EnvState, req: SendRequest, key: LedgerKey)
    ensures var (after, r) := Sent(o, s, e, req);
            var changes := if r.ok then o.invoke(HostInputOf(o, s, e, req)).changes else [];
            && AsLastChanged(e.store, changes, after.store, key)
            && (key in r.changedKeys <==> exists ch :: ch in changes && ch.key == key && ch.newValue.Some?)
            && (key in r.removedKeys
                <==> exists ch :: ch in changes && ch.key == key && ch.newValue.None? && !ch.readOnly)
            && (key in r.ttlChangedKeys <==> AnyRetimed(e.store, changes, key))
  {
    SendMergesAllOrNothing(o, s, e, req);
    var changes := if Sent(o, s, e, req).1.ok then MergedChanges(o, s, e, req) else [];
    MergedAsLastChanged(e.store, changes, key);
    ReportedKeys(e.store, changes, key);
    RetimedReported(e.store, changes, key);
  }

  /** In particular a value written last is what is stored, with the TTL it came with. */
  lemma LastWriteIsStored(o: Oracles, s: Settings, e: EnvState, req: SendRequest, key: LedgerKey, i: nat)
    requires Sent(o, s, e, req).1.ok
    requires var changes := o.invoke(HostInputOf(o, s, e, req)).changes;
             LastAffecting(changes, key, i) && changes[i].newValue.Some?
    ensures var after, ch := Sent(o, s, e, req).0.store, o.invoke(HostInputOf(o, s, e, req)).changes[i];
            key in after && after[key] == Stored(ch.newValue.value, ch.newLiveUntil)
  {
    SendLeaves(o, s, e, req, key);
    var changes := o.invoke(HostInputOf(o, s, e, req)).changes;
    assert LastReplacing(changes, key, i);
    assert Replaces(changes[i], key) && Affects(changes[i], key);
  }

  // ---- what stops it, and what it costs ----------------------------------------------

  /** Handed to the host: present, and not a temporary entry past its TTL. */
  ghost predicate HandedOver(e: EnvState, key: LedgerKey) {
    key in e.store && !(key.DataKey? && key.durability == Temporary && PastAt(e.store, key, e.ledgerSeq))
  }

  ghost predicate MarkedRestored(req: SendRequest, key: LedgerKey) {
    exists i: nat :: i in req.restored && i < |req.resources.readWrite| && req.resources.readWrite[i] == key
  }

  /** Over the network's size limit; an archived entry that is not restored is not sized. */
  ghost predicate StopsLoad(s: Settings, e: EnvState, req: SendRequest, key: LedgerKey) {
    && HandedOver(e, key) && OverSizeLimit(s, key, EntrySize(e.store[key].entry))
    && (MarkedRestored(req, key) || !PastAt(e.store, key, e.ledgerSeq))
  }

  /** What the footprint costs in disk reads: its classic entries and the restored ones. */
  ghost function ReadSizes(e: EnvState, req: SendRequest): LedgerKey -> nat {
    (key: LedgerKey) =>
      if HandedOver(e, key) && (key.AccountKey? || key.TrustLineKey? || key.UnsupportedKey? || MarkedRestored(req, key))
      then EntrySize(e.store[key].entry) else 0
  }

  ghost predicate StopsBeforeHost(s: Settings, e: EnvState, req: SendRequest) {
    var keys := req.resources.readOnly + req.resources.readWrite;
    || (exists key :: key in keys && StopsLoad(s, e, req, key))
    || (s.enforceDeclaredResources && s.enforceDeclaredBytes
        && Min(Sum(ReadSizes(e, req), keys), U32_MAX) > req.resources.diskReadBytes)
  }

  function NewSizes(): LedgerChange -> nat {
    (ch: LedgerChange) => if !ch.readOnly && ch.newValue.Some? then EntrySize(ch.newValue.value) else 0
  }

  ghost predicate WritesTooMuch(s: Settings, changes: seq<LedgerChange>, declared: u32) {
    || (exists ch :: ch in changes && !ch.readOnly && ch.newValue.Some?
                     && OverSizeLimit(s, ch.key, EntrySize(ch.newValue.value)))
    || (s.enforceDeclaredResources && s.enforceDeclaredBytes && Min(Sum(NewSizes(), changes), U32_MAX) > declared)
  }

  /** Saturating each entry's size and the running total saturates the total. */
  lemma {:induction false} SumClamped<T>(f: T -> nat, g: T -> nat, s: seq<T>)
    requires forall x :: x in s ==> g(x) == Min(f(x), U32_MAX)
    ensures Min(Sum(g, s), U32_MAX) == Min(Sum(f, s), U32_MAX)
  {
    if s == [] {
    } else {
      SumClamped(f, g, s[1..]);
    }
  }

  lemma RestoredMeans(req: SendRequest, key: LedgerKey)
    ensures key in RestoredKeys(req.resources, req.restored) <==> MarkedRestored(req, key)
  {}

  lemma {:induction false} SumZero<T>(f: T -> nat, s: seq<T>)
    requires forall x :: x in s ==> f(x) == 0
    ensures Sum(f, s) == 0
  {
    if s == [] {
    } else {
      SumZero(f, s[1..]);
    }
  }

  lemma LoadStops(o: Oracles, s: Settings, e: EnvState, req: SendRequest)
    ensures LoadingOf(o, s, e, req).Fails(FootprintKeys(req.resources), req.resources.diskReadBytes)
       <==> StopsBeforeHost(s, e, req)
  {
    var ld, keys := LoadingOf(o, s, e, req), req.resources.readOnly + req.resources.readWrite;
    forall key ensures ld.TooLarge(key) <==> StopsLoad(s, e, req, key) { RestoredMeans(req, key); }
    if s.enforceDeclaredResources && s.enforceDeclaredBytes {
      forall key | key in keys ensures ld.DiskBytes()(key) == Min(ReadSizes(e, req)(key), U32_MAX) {
        RestoredMeans(req, key);
      }
      SumClamped(ReadSizes(e, req), ld.DiskBytes(), keys);
    } else {
      SumZero(ld.DiskBytes(), keys);
    }
  }

  lemma WriteStops(s: Settings, changes: seq<LedgerChange>, declared: u32)
    ensures WriteFails(s, changes, declared) <==> WritesTooMuch(s, changes, declared)
  {
    forall ch ensures WrittenTooLarge(s, ch) <==>
                        !ch.readOnly && ch.newValue.Some? && OverSizeLimit(s, ch.key, EntrySize(ch.newValue.value))
    {}
    if s.enforceDeclaredResources && s.enforceDeclaredBytes {
      SumClamped(NewSizes(), WrittenBytes(s), changes);
    } else {
      SumZero(WrittenBytes(s), changes);
    }
  }

  /** The bytes of the events and of the return value, saturated. */
  function EventTotal(events: seq<Bytes>, value: Bytes): u32 { Min(Sum(ByteCount(), events) + |value|, U32_MAX) }

  lemma EventsClamped(events: seq<Bytes>, value: Bytes)
    ensures Min(Sum(EventBytes(), events) + Clamp32(|value|), U32_MAX) == EventTotal(events, value)
  {
    SumClamped(ByteCount(), EventBytes(), events);
  }

  function Saturated64(x: int): int { if x > I64_MAX then I64_MAX else if x < -I64_MAX - 1 then -I64_MAX - 1 else x }

  /** What the host's changes cost in rent, and its events in fees, when the call completes. */
  function RentCharged(o: Oracles, s: Settings, changes: seq<LedgerChange>, ledgerSeq: u32): int {
    o.rentFee(s.fees, o.extractRent(changes), ledgerSeq)
  }

  function EventsCharged(o: Oracles, s: Settings, size: u32): int {
    o.resourceFee(s.fees, TransactionResources(0, 0, 0, 0, 0, size, 0)).refundable
  }

  /** Why a call the host has answered fails all the same, or nothing. */
  ghost function Verdict(o: Oracles, s: Settings, req: SendRequest, out: HostOutcome,
                         ledgerSeq: u32): Option<InvokeResult> {
    if out.HostError? || out.value.None? then
      Some(if out.cpu > req.resources.instructions || out.mem > s.fees.txMemoryLimit then ResourceLimitExceeded
           else Trapped)
    else
      var size, rent := EventTotal(out.events, out.value.value), RentCharged(o, s, out.changes, ledgerSeq);
      if WritesTooMuch(s, out.changes, req.resources.writeBytes) || size > s.fees.txMaxContractEventsSizeBytes
      then Some(ResourceLimitExceeded)
      else if req.maxRefundable.Some?
              && (req.maxRefundable.value < rent
                  || req.maxRefundable.value < Saturated64(rent + EventsCharged(o, s, size)))
      then Some(InsufficientRefundableFee)
      else None
  }

  lemma AfterHostAnswers(o: Oracles, s: Settings, e: EnvState, req: SendRequest, out: HostOutcome)
    ensures var r := AfterHost(o, s, e, req, out).1;
            && r.failure == Verdict(o, s, req, out, e.ledgerSeq)
            && (r.ok ==>
                  && out.HostDone? && out.value.Some?
                  && r.rentFee == RentCharged(o, s, out.changes, e.ledgerSeq)
                  && r.eventsSize == EventTotal(out.events, out.value.value)
                  && r.refundableConsumed == Saturated64(r.rentFee + EventsCharged(o, s, r.eventsSize)))
  {
    if out.HostDone? && out.value.Some? {
      WriteStops(s, out.changes, req.resources.writeBytes);
      EventsClamped(out.events, out.value.value);
    }
  }

  /**
   * Exactly when a send fails and why: before the host, for an entry over the
   * network's size limit or more disk bytes than declared; by the host; after
   * it, for what was written, for its events, or for a refundable fee that does
   * not cover rent and events. A success reports the rent of the host's changes,
   * the size of its events and value, and consumes the rent and the events fee.
   */
  lemma SendAnswers(o: Oracles, s: Settings, e: EnvState, req: SendRequest)
    ensures var r, out := Sent(o, s, e, req).1, o.invoke(HostInputOf(o, s, e, req));
            && (r.ok <==> r.failure.None?)
            && r.failure == (if StopsBeforeHost(s, e, req) then Some(ResourceLimitExceeded)
                             else Verdict(o, s, req, out, e.ledgerSeq))
            && (!r.ok ==> r == SendResult(false, [], [], [], r.failure, 0, 0, 0))
            && (r.ok ==>
                  && out.HostDone? && out.value.Some?
                  && r.rentFee == RentCharged(o, s, out.changes, e.ledgerSeq)
                  && r.eventsSize == EventTotal(out.events, out.value.value)
                  && r.refundableConsumed == Saturated64(r.rentFee + EventsCharged(o, s, r.eventsSize)))
  {
    LoadStops(o, s, e, req);
    AfterHostAnswers(o, s, e.(moduleCache := Some(CacheFor(o, s, e, req))), req, o.invoke(HostInputOf(o, s, e, req)));
    SendMergesAllOrNothing(o, s, e, req);
  }

  /** The item of one footprint key: its entry, and for data and code its TTL and rent size. */
  ghost predicate IsItemOf(o: Oracles, s: Settings, e: EnvState, req: SendRequest, key: LedgerKey, item: HostItem) {
    if !HandedOver(e, key) then item == HostItem(None, None)
    else
      && item.entry == Some(e.store[key].entry)
      && (item.ttl.Some? <==> key.DataKey? || key.CodeKey?)
      && (item.ttl.Some? ==>
            && item.ttl.value.rentSize == o.rentSize(e.store[key].entry)
            && item.ttl.value.liveUntil ==
               if MarkedRestored(req, key) then Min(e.ledgerSeq + s.minPersistentTtl, U32_MAX) - 1
               else if e.store[key].ttl.Some? then e.store[key].ttl.value
               else e.ledgerSeq)
  }

  /**
   * What the host is called with: the request, the open ledger, the declared
   * instructions under the network's maximum, and one item per footprint key,
   * read-only keys first.
   */
  lemma HostIsHanded(o: Oracles, s: Settings, e: EnvState, req: SendRequest, k: nat)
    requires k < |req.resources.readOnly| + |req.resources.readWrite|
    ensures var input, r := HostInputOf(o, s, e, req), req.resources;
            && (input.hostFn, input.source, input.auth, input.restored, input.resources)
               == (req.hostFn, req.source, req.auth, req.restored, r)
            && (input.ledgerSeq, input.timestamp) == (e.ledgerSeq, e.timestamp)
            && input.instructionLimit
               == (var most := if s.fees.txMaxInstructions < 0 then 0 else s.fees.txMaxInstructions;
                   if s.enforceDeclaredResources && r.instructions < most then r.instructions else most)
            && |input.items| == |r.readOnly| + |r.readWrite|
            && IsItemOf(o, s, e, req, if k < |r.readOnly| then r.readOnly[k] else r.readWrite[k - |r.readOnly|],
                        input.items[k])
  {
    RestoredMeans(req, FootprintKeys(req.resources)[k]);
  }

  // ---- the module cache it is called with ----------------------------------------------

  /** Some code of these keys has this hash and parses. */
  ghost predicate Parsed(o: Oracles, store: Store, keys: seq<LedgerKey>, hash: Bytes32) {
    exists k :: k in keys && k.CodeKey? && k.hash == hash && k in store && store[k].entry.data.ContractCode?
                && o.parse(store[k].entry.data.code).Some?
  }

  lemma ParsedSplits(o: Oracles, store: Store, keys: seq<LedgerKey>, hash: Bytes32)
    requires keys != []
    ensures var n := |keys| - 1;
            Parsed(o, store, keys, hash) <==> Parsed(o, store, keys[..n], hash) || Parsed(o, store, [keys[n]], hash)
  {
    assert keys == keys[..|keys| - 1] + [keys[|keys| - 1]];
  }

  lemma {:induction false} AddedModules(o: Oracles, store: Store, cache: ModuleCache, live: seq<LedgerKey>,
                                        hash: Bytes32)
    requires CodeHashesMatch(o, store) && forall k :: k in live ==> k.CodeKey? && k in store
    ensures hash in AddModules(o, store, cache, live) <==> hash in cache || Parsed(o, store, live, hash)
    ensures hash in cache ==> AddModules(o, store, cache, live)[hash] == cache[hash]
  {
    if live == [] {
    } else {
      var n := |live| - 1;
      AddedModules(o, store, cache, live[..n], hash);
      ParsedSplits(o, store, live, hash);
      assert live[n] in live;
      AddedModules(o, store, cache, live[..n], live[n].hash);
      assert Parsed(o, store, [live[n]], hash)
        <==> live[n].hash == hash && o.parse(store[live[n]].entry.data.code).Some?;
    }
  }

  /** Live code the call needs parsed, and code it restores. */
  ghost predicate NeedsModule(o: Oracles, e: EnvState, req: SendRequest, key: LedgerKey) {
    && key.CodeKey? && key in FootprintKeys(req.resources) && key in e.store
    && !MarkedRestored(req, key) && !PastAt(e.store, key, e.ledgerSeq)
    && e.store[key].entry.data.ContractCode? && o.parse(e.store[key].entry.data.code).Some?
  }

  ghost predicate DropsModule(e: EnvState, req: SendRequest, key: LedgerKey) {
    key.CodeKey? && key in FootprintKeys(req.resources) && key in e.store && MarkedRestored(req, key)
  }

  /**
   * A call's cache is exactly the cache before it and the live code of its
   * footprint that parses, without the code it restores; what was cached stays as it was.
   */
  lemma CacheIsExact(o: Oracles, s: Settings, e: EnvState, req: SendRequest, hash: Bytes32)
    requires CodeHashesMatch(o, e.store)
    ensures var before: ModuleCache := e.moduleCache.GetOr(map[]);
            var cache := CacheFor(o, s, e, req);
            && (hash in cache <==>
                  && (hash in before || exists key :: NeedsModule(o, e, req, key) && key.hash == hash)
                  && !exists key :: DropsModule(e, req, key) && key.hash == hash)
            && (hash in cache && hash in before ==> cache[hash] == before[hash])
  {
    var ld, keys := LoadingOf(o, s, e, req), FootprintKeys(req.resources);
    var live, restoredCode := Filter(ld.LiveCode(), keys), Filter(ld.RestoredCode(), keys);
    forall k ensures k in live && o.parse(e.store[k].entry.data.code).Some? <==> NeedsModule(o, e, req, k) {
      RestoredMeans(req, k);
    }
    forall k ensures k in restoredCode <==> DropsModule(e, req, k) { RestoredMeans(req, k); }
    AddedModules(o, e.store, e.moduleCache.GetOr(map[]), live, hash);
  }
}
