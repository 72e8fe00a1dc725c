/**
 * Account entries: loading and storing them, the ext v1 -> v2 -> v3 chain as
 * src/classic.ts rebuilds it and as crates/host-wasm/src/lib.rs fills it in,
 * and the snapshot a simulation reads through.
 */
module Accounts {
  import opened Sequences
  import opened Xdr

  const BASE_RESERVE := 5_000_000

  function LoadAccount(store: Store, id: PublicKey): Option<Account> {
    var key := AccountKey(id);
    if key in store && store[key].entry.data.AccountData? then Some(store[key].entry.data.account) else None
  }

  function StoreAccount(store: Store, ledgerSeq: u32, a: Account): Store {
    store[AccountKey(a.id) := Stored(LedgerEntry(ledgerSeq, AccountData(a)), None)]
  }

  /** The balance net of the base reserve. */
  function AvailableBalance(a: Account): int {
    a.balance - (2 + a.numSubEntries) * BASE_RESERVE
  }

  // ---- the ext chain, TypeScript ------------------------------------------

  /** hasAccountEntryExtV3 / getAccountEntryExtensionV3. */
  function StampOf(a: Account): Option<SequenceStamp> {
    if a.ext.ExtV1? && a.ext.ext1.Ext1V2? && a.ext.ext1.ext2.Ext2V3? then Some(a.ext.ext1.ext2.stamp) else None
  }

  /** The stamp a check reads: zeros for an account that has none. */
  function LastMoved(a: Account): SequenceStamp {
    if StampOf(a).Some? then StampOf(a).value else SequenceStamp(0, 0)
  }

  function NoSponsors(n: nat): seq<Option<PublicKey>> { seq(n, i => None) }

  /** The chain with whatever was missing created zeroed, ending in `stamp`. */
  function WithStamp(a: Account, stamp: SequenceStamp): AccountExt {
    var v1 := if a.ext.ExtV1? then a.ext else ExtV1(0, 0, Ext1V0);
    var v2 := if v1.ext1.Ext1V2? then v1.ext1 else Ext1V2(0, 0, NoSponsors(|a.signers|), Ext2V0);
    v1.(ext1 := v2.(ext2 := Ext2V3(stamp)))
  }

  /** The account bumpSequence stores. */
  function Bumped(a: Account, to: int, ledgerSeq: u32, timestamp: u64): Account {
    a.(seqNum := to, ext := WithStamp(a, SequenceStamp(ledgerSeq, timestamp)))
  }

  /** Of an account that exists; the methods that call it require that. */
  function BumpSequence(store: Store, id: PublicKey, to: int, ledgerSeq: u32, timestamp: u64): Store {
    match LoadAccount(store, id)
    case None => store
    case Some(a) => StoreAccount(store, ledgerSeq, Bumped(a, to, ledgerSeq, timestamp))
  }

  function Debit(store: Store, id: PublicKey, amount: int, ledgerSeq: u32): Store {
    match LoadAccount(store, id)
    case None => store
    case Some(a) => StoreAccount(store, ledgerSeq, a.(balance := a.balance - amount))
  }

  // ---- the ext chain, Rust -------------------------------------------------

  function FillV3(ext2: AccountExt2): AccountExt2 {
    if ext2.Ext2V0? then Ext2V3(SequenceStamp(0, 0)) else ext2
  }

  function FillV2(ext1: AccountExt1, signers: nat): AccountExt1 {
    match ext1
    case Ext1V0 => Ext1V2(0, 0, NoSponsors(signers), FillV3(Ext2V0))
    case Ext1V2(_, _, _, ext2) => ext1.(ext2 := FillV3(ext2))
  }

  /** update_account_entry. */
  function UpdateAccountEntry(a: Account): Account {
    match a.ext
    case ExtV0 => a.(ext := ExtV1(0, 0, FillV2(Ext1V0, |a.signers|)))
    case ExtV1(_, _, ext1) => a.(ext := a.ext.(ext1 := FillV2(ext1, |a.signers|)))
  }

  /** The chain ends in this stamp; what was there of it is kept, and what was missing is created zeroed. */
  ghost predicate ChainEndsIn(a: Account, b: Account, stamp: SequenceStamp) {
    && b.ext.ExtV1? && b.ext.ext1.Ext1V2? && b.ext.ext1.ext2 == Ext2V3(stamp)
    && (b.ext.buying, b.ext.selling) == (if a.ext.ExtV1? then (a.ext.buying, a.ext.selling) else (0, 0))
    && if a.ext.ExtV1? && a.ext.ext1.Ext1V2? then b.ext.ext1.(ext2 := a.ext.ext1.ext2) == a.ext.ext1
       else
         && b.ext.ext1.numSponsored == b.ext.ext1.numSponsoring == 0
         && |b.ext.ext1.sponsors| == |a.signers| && forall i :: 0 <= i < |a.signers| ==> b.ext.ext1.sponsors[i].None?
  }

  /** Only the missing part of the chain is created: nothing already there changes. */
  ghost predicate KeepsChain(a: Account, b: Account) {
    b.(ext := a.ext) == a && ChainEndsIn(a, b, LastMoved(a)) && LastMoved(b) == LastMoved(a)
  }

  /** The two promotions agree, and are idempotent; a bumped account is already promoted. */
  lemma PromotionsAgree(a: Account, to: int, ledgerSeq: u32, timestamp: u64)
    ensures UpdateAccountEntry(a) == a.(ext := WithStamp(a, LastMoved(a)))
    ensures KeepsChain(a, UpdateAccountEntry(a))
    ensures UpdateAccountEntry(UpdateAccountEntry(a)) == UpdateAccountEntry(a)
    ensures UpdateAccountEntry(Bumped(a, to, ledgerSeq, timestamp)) == Bumped(a, to, ledgerSeq, timestamp)
    ensures StampOf(Bumped(a, to, ledgerSeq, timestamp)) == Some(SequenceStamp(ledgerSeq, timestamp))
  {}

  /** A bump sets the number and the stamp, and changes nothing else of the account. */
  lemma BumpKeepsTheRest(a: Account, to: int, ledgerSeq: u32, timestamp: u64)
    ensures var b := Bumped(a, to, ledgerSeq, timestamp);
            && b.seqNum == to && ChainEndsIn(a, b, SequenceStamp(ledgerSeq, timestamp))
            && b.(seqNum := a.seqNum, ext := a.ext) == a
  {}

  lemma {:induction false} NoSponsorsSize(n: nat)
    ensures Sum(SponsorSize(), NoSponsors(n)) == 4 * n
  {
    if n == 0 {
    } else {
      assert NoSponsors(n)[1..] == NoSponsors(n - 1);
      NoSponsorsSize(n - 1);
    }
  }

  /** A promotion adds 52 bytes and 4 per signer to an account that had no ext chain. */
  lemma PromotionSize(a: Account)
    requires a.ext.ExtV0?
    ensures AccountSize(UpdateAccountEntry(a)) == AccountSize(a) + 52 + 4 * |a.signers|
  {
    NoSponsorsSize(|a.signers|);
  }

  // ---- what a simulation reads through --------------------------------------

  /** The stored entry, an account one promoted. */
  function PromotedEntry(store: Store, key: LedgerKey): Option<Stored> {
    if key !in store then None
    else
      var s := store[key];
      match s.entry.data
      case AccountData(a) => Some(s.(entry := s.entry.(data := AccountData(UpdateAccountEntry(a)))))
      case _ => Some(s)
  }

  /** What a simulation reads: nothing more and nothing else, but an account with its chain. */
  lemma PromotedIs(store: Store, key: LedgerKey)
    ensures var r := PromotedEntry(store, key);
            && (r.Some? <==> key in store)
            && (r.Some? && !store[key].entry.data.AccountData? ==> r.value == store[key])
            && (r.Some? && store[key].entry.data.AccountData? ==>
                  && r.value.ttl == store[key].ttl && r.value.entry.lastModified == store[key].entry.lastModified
                  && r.value.entry.data.AccountData?
                  && KeepsChain(store[key].entry.data.account, r.value.entry.data.account))
  {
    if key in store && store[key].entry.data.AccountData? { PromotionsAgree(store[key].entry.data.account, 0, 0, 0); }
  }

  /** SimulationSnapshot: promotes on the first read and remembers the result. */
  class SimulationSnapshot {
    const inner: Store
    var updated: map<LedgerKey, Option<Stored>>

    ghost predicate Valid()
      reads this
    {
      forall k :: k in updated ==> updated[k] == PromotedEntry(inner, k)
    }

    constructor (inner: Store)
      ensures Valid() && this.inner == inner && updated == map[]
    {
      this.inner := inner;
      updated := map[];
    }

    method Get(key: LedgerKey) returns (r: Option<Stored>)
      requires Valid()
      modifies this
      ensures Valid() && r == PromotedEntry(inner, key)
      ensures old(updated).Keys <= updated.Keys
      ensures updated.Keys <= old(updated).Keys + {key}
      ensures key in updated <==> key in old(updated) || (key in inner && inner[key].entry.data.AccountData?)
    {
      if key in updated { return updated[key]; }
      if key !in inner { return None; }
      var s := inner[key];
      if s.entry.data.AccountData? {
        var promoted := UpdateAccountEntry(s.entry.data.account);
        r := Some(s.(entry := s.entry.(data := AccountData(promoted))));
        updated := updated[key := r];
        return;
      }
      r := Some(s);
    }
  }

  // ---- how the account writes change the store --------------------------------

  /** What only a sequence bump may change about an account. */
  ghost predicate SameIdentity(a: Account, b: Account) {
    a.id == b.id && a.seqNum == b.seqNum && a.ext == b.ext && a.signers == b.signers && a.thresholds == b.thresholds
  }

  lemma BumpedAccount(store: Store, id: PublicKey, to: int, ledgerSeq: u32, timestamp: u64)
    requires WellKeyed(store) && LoadAccount(store, id).Some?
    ensures var store' := BumpSequence(store, id, to, ledgerSeq, timestamp);
            && WellKeyed(store')
            && store'.Keys == store.Keys
            && LoadAccount(store', id) == Some(Bumped(LoadAccount(store, id).value, to, ledgerSeq, timestamp))
            && store'[AccountKey(id)].entry.lastModified == ledgerSeq && store'[AccountKey(id)].ttl.None?
            && forall k :: k in store && k != AccountKey(id) ==> store'[k] == store[k]
  {
    assert LoadAccount(store, id).value.id == id;
  }

  lemma DebitedAccount(store: Store, id: PublicKey, amount: int, ledgerSeq: u32)
    requires WellKeyed(store) && LoadAccount(store, id).Some?
    ensures var store' := Debit(store, id, amount, ledgerSeq);
            var a := LoadAccount(store, id).value;
            && WellKeyed(store')
            && store'.Keys == store.Keys
            && LoadAccount(store', id) == Some(a.(balance := a.balance - amount))
            && store'[AccountKey(id)].entry.lastModified == ledgerSeq && store'[AccountKey(id)].ttl.None?
            && forall k :: k in store && k != AccountKey(id) ==> store'[k] == store[k]
  {
    assert LoadAccount(store, id).value.id == id;
  }
}
