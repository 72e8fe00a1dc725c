/**
 * src/classic.ts, signature checking: the SignatureChecker shared by every
 * check on one envelope, and the plain weight sum it is compared with.
 */
module Signatures {
  import opened Sequences
  import opened Xdr

  /** The cryptography, as uninterpreted relations. */
  datatype Crypto = Crypto(
    verify: (PublicKey, Bytes, Bytes) -> bool,   // key, signature, message
    sha256: Bytes -> Bytes32)

  datatype Kind = KindPreAuthTx | KindHashX | KindEd25519 | KindSignedPayload

  function KindOf(k: SignerKey): Kind {
    match k
    case PreAuthTx(_) => KindPreAuthTx
    case HashX(_) => KindHashX
    case Ed25519(_) => KindEd25519
    case SignedPayload(_, _) => KindSignedPayload
  }

  function OfKind(kind: Kind): Signer -> bool { (s: Signer) => KindOf(s.key) == kind }

  function Cap(s: Signer): nat { Min(s.weight, 255) }

  /** The last four bytes, or all of them zero-padded if fewer. */
  function HintOf(b: Bytes): Bytes {
    if |b| < 4 then b + seq(4 - |b|, i => 0) else b[|b| - 4..]
  }

  predicate HintMatches(b: Bytes, hint: Bytes) { |b| >= 4 && b[|b| - 4..] == hint }

  function XorHint(key: Bytes, payload: Bytes): Bytes {
    seq(4, i requires 0 <= i < 4 => HintOf(key)[i] ^ HintOf(payload)[i])
  }

  /** Whether one signature verifies for one signer; PRE_AUTH_TX needs none. */
  predicate Verifies(c: Crypto, hash: Bytes, key: SignerKey, sig: DecoratedSignature) {
    match key
    case PreAuthTx(_) => false
    case HashX(h) => HintMatches(h, sig.hint) && c.sha256(sig.signature) == h
    case Ed25519(k) => HintMatches(k, sig.hint) && c.verify(k, sig.signature, hash)
    case SignedPayload(k, payload) => XorHint(k, payload) == sig.hint && c.verify(k, sig.signature, payload)
  }

  /** The hint is the last four bytes of a key or hash. */
  predicate HintsAt(hint: Bytes, b: Bytes32) { |hint| == 4 && forall i :: 0 <= i < 4 ==> hint[i] == b[28 + i] }

  /** The payload's last four bytes, or the bytes it has and then zeros. */
  function PayloadHint(payload: Bytes, i: nat): bv8
    requires i < 4
  {
    if |payload| >= 4 then payload[|payload| - 4 + i] else if i < |payload| then payload[i] else 0
  }

  /**
   * Who a signature proves: an ed25519 key over the contents hash, a hash whose
   * preimage it is, or a key over its own payload and not the hash; and the hint
   * points to it, for a payload signer mixed with the payload's.
   */
  lemma VerifiesMeaning(c: Crypto, hash: Bytes, key: SignerKey, sig: DecoratedSignature)
    ensures Verifies(c, hash, key, sig) <==>
              match key
              case PreAuthTx(_) => false
              case HashX(h) => HintsAt(sig.hint, h) && c.sha256(sig.signature) == h
              case Ed25519(k) => HintsAt(sig.hint, k) && c.verify(k, sig.signature, hash)
              case SignedPayload(k, payload) =>
                && c.verify(k, sig.signature, payload)
                && |sig.hint| == 4 && forall i :: 0 <= i < 4 ==> sig.hint[i] == k[28 + i] ^ PayloadHint(payload, i)
  {
    match key
    case PreAuthTx(_) =>
    case HashX(h) => TailMeaning(sig.hint, h);
    case Ed25519(k) => TailMeaning(sig.hint, k);
    case SignedPayload(k, payload) => MixedMeaning(sig.hint, k, payload);
  }

  lemma TailMeaning(hint: Bytes, b: Bytes32)
    ensures HintMatches(b, hint) <==> HintsAt(hint, b)
  {
    assert |b[28..]| == 4 && forall i :: 0 <= i < 4 ==> b[28..][i] == b[28 + i];
  }

  lemma MixedMeaning(hint: Bytes, k: Bytes32, payload: Bytes)
    ensures XorHint(k, payload) == hint <==>
              |hint| == 4 && forall i :: 0 <= i < 4 ==> hint[i] == k[28 + i] ^ PayloadHint(payload, i)
  {
    forall i | 0 <= i < 4 ensures XorHint(k, payload)[i] == k[28 + i] ^ PayloadHint(payload, i) {
      assert HintOf(k)[i] == k[28 + i];
      assert HintOf(payload)[i] == PayloadHint(payload, i);
    }
  }

  /** What a check needs of the cryptography: the contents hash, and who signed what. */
  datatype Verifier = Verifier(hash: Bytes, verifies: (SignerKey, DecoratedSignature) -> bool)

  function VerifierOf(c: Crypto, hash: Bytes): Verifier {
    Verifier(hash, (key: SignerKey, sig: DecoratedSignature) => Verifies(c, hash, key, sig))
  }

  /** One signer counted by a check: by which signature, or by none. */
  datatype Counted = Counted(sig: Option<nat>, signer: Signer)

  /** How a check, or one pass of it, ends: satisfied or not, and whom it counted. */
  datatype Check = Check(done: bool, total: nat, log: seq<Counted>)

  function FindIndex(v: Verifier, candidates: seq<Signer>, sig: DecoratedSignature): (at: Option<nat>)
    ensures at.Some? ==> at.value < |candidates| && v.verifies(candidates[at.value].key, sig)
                         && forall j :: 0 <= j < at.value ==> !v.verifies(candidates[j].key, sig)
    ensures at.None? ==> forall s :: s in candidates ==> !v.verifies(s.key, sig)
  {
    if candidates == [] then None
    else if v.verifies(candidates[0].key, sig) then Some(0)
    else
      match FindIndex(v, candidates[1..], sig)
      case None => None
      case Some(k) => Some(k + 1)
  }

  function Prepend(m: Counted, r: Check): Check { r.(log := [m] + r.log) }

  /** The PRE_AUTH_TX pass: matched against the contents hash, no signature needed. */
  function PreAuthPass(hash: Bytes, candidates: seq<Signer>, total: nat, needed: nat): Check
    requires forall s :: s in candidates ==> s.key.PreAuthTx?
  {
    if candidates == [] then Check(false, total, [])
    else if candidates[0].key.preAuthTx != hash then PreAuthPass(hash, candidates[1..], total, needed)
    else
      var m, t := Counted(None, candidates[0]), total + Cap(candidates[0]);
      if t >= needed then Check(true, t, [m]) else Prepend(m, PreAuthPass(hash, candidates[1..], t, needed))
  }

  /** One pass over the signatures from `i` on, against candidates of one type. */
  function VerifyPass(v: Verifier, sigs: seq<DecoratedSignature>, i: nat,
                      candidates: seq<Signer>, total: nat, needed: nat): Check
    requires i <= |sigs|
    decreases |sigs| - i
  {
    if i == |sigs| then Check(false, total, [])
    else
      match FindIndex(v, candidates, sigs[i])
      case None => VerifyPass(v, sigs, i + 1, candidates, total, needed)
      case Some(at) =>
        var m, t := Counted(Some(i), candidates[at]), total + Cap(candidates[at]);
        if t >= needed then Check(true, t, [m])
        else Prepend(m, VerifyPass(v, sigs, i + 1, RemoveAt(candidates, at), t, needed))
  }

  /** After a pass that did not satisfy the check, the pass over `kind`. */
  function AndThen(prior: Check, v: Verifier, sigs: seq<DecoratedSignature>,
                   signers: seq<Signer>, kind: Kind, needed: nat): Check
  {
    if prior.done then prior
    else
      var r := VerifyPass(v, sigs, 0, Filter(OfKind(kind), signers), prior.total, needed);
      r.(log := prior.log + r.log)
  }

  function AfterPreAuthTx(v: Verifier, signers: seq<Signer>, needed: nat): Check {
    PreAuthPass(v.hash, Filter(OfKind(KindPreAuthTx), signers), 0, needed)
  }

  function AfterHashX(v: Verifier, sigs: seq<DecoratedSignature>, signers: seq<Signer>, needed: nat): Check {
    AndThen(AfterPreAuthTx(v, signers, needed), v, sigs, signers, KindHashX, needed)
  }

  function AfterEd25519(v: Verifier, sigs: seq<DecoratedSignature>, signers: seq<Signer>, needed: nat): Check {
    AndThen(AfterHashX(v, sigs, signers, needed), v, sigs, signers, KindEd25519, needed)
  }

  /** What checkSignature decides: the passes in core's order, each going on from the last one's total. */
  function Decide(v: Verifier, sigs: seq<DecoratedSignature>, signers: seq<Signer>, needed: nat): Check {
    AndThen(AfterEd25519(v, sigs, signers, needed), v, sigs, signers, KindSignedPayload, needed)
  }

  // ---- what a check means --------------------------------------------------

  /** Some signature verifies for the signer, or the signer pre-authorized this hash. */
  ghost predicate Matched(v: Verifier, sigs: seq<DecoratedSignature>, s: Signer) {
    if s.key.PreAuthTx? then s.key.preAuthTx == v.hash
    else exists sig :: sig in sigs && v.verifies(s.key, sig)
  }

  ghost function MatchedCap(v: Verifier, sigs: seq<DecoratedSignature>): Signer -> nat {
    (s: Signer) => if Matched(v, sigs, s) then Min(s.weight, 255) else 0
  }

  ghost predicate AnyMatched(v: Verifier, sigs: seq<DecoratedSignature>, signers: seq<Signer>) {
    exists s :: s in signers && Matched(v, sigs, s)
  }

  /** The signature verifies for at most one signer of each type, listed once. */
  ghost predicate OneSigner(v: Verifier, sig: DecoratedSignature, signers: seq<Signer>) {
    && (forall s, t ::
          (s in signers && t in signers && KindOf(s.key) == KindOf(t.key)
            && v.verifies(s.key, sig) && v.verifies(t.key, sig)) ==> s == t)
    && (forall s :: s in signers && v.verifies(s.key, sig) ==> multiset(signers)[s] == 1)
  }

  /** Each signature verifies for at most one signer of each type. */
  ghost predicate AtMostOneSigner(v: Verifier, sigs: seq<DecoratedSignature>, signers: seq<Signer>) {
    forall sig :: sig in sigs ==> OneSigner(v, sig, signers)
  }

  /** The same, by position, for the candidates of one pass. */
  ghost predicate OneCandidate(v: Verifier, sig: DecoratedSignature, cands: seq<Signer>) {
    forall j, k :: 0 <= j < k < |cands| ==> !(v.verifies(cands[j].key, sig) && v.verifies(cands[k].key, sig))
  }

  ghost predicate AtMostOneCandidate(v: Verifier, sigs: seq<DecoratedSignature>, cands: seq<Signer>) {
    forall sig :: sig in sigs ==> OneCandidate(v, sig, cands)
  }

  lemma CandidatesOfKind(v: Verifier, sigs: seq<DecoratedSignature>, signers: seq<Signer>, kind: Kind)
    requires AtMostOneSigner(v, sigs, signers)
    ensures AtMostOneCandidate(v, sigs, Filter(OfKind(kind), signers))
  {
    var cands := Filter(OfKind(kind), signers);
    forall sig, j, k | sig in sigs && 0 <= j < k < |cands|
      ensures !(v.verifies(cands[j].key, sig) && v.verifies(cands[k].key, sig))
    {
      assert OneSigner(v, sig, signers);
      assert cands[j] in signers && cands[k] in signers;
      FilterMultiset(OfKind(kind), signers, cands[j]);
      if cands[j] == cands[k] { TwiceInMultiset(cands, j, k); }
    }
  }

  lemma TwiceInMultiset<T>(s: seq<T>, j: nat, k: nat)
    requires j < k < |s| && s[j] == s[k]
    ensures multiset(s)[s[j]] >= 2
  {
    assert s == s[..j] + [s[j]] + s[j + 1..k] + [s[k]] + s[k + 1..];
  }

  lemma {:induction false} NothingMatched(v: Verifier, sigs: seq<DecoratedSignature>, cands: seq<Signer>)
    requires !AnyMatched(v, sigs, cands)
    ensures Sum(MatchedCap(v, sigs), cands) == 0
  {
    if cands == [] {
    } else {
      assert cands[0] in cands;
      assert forall s :: s in cands[1..] ==> s in cands;
      NothingMatched(v, sigs, cands[1..]);
    }
  }

  lemma {:induction false} PreAuthMeaning(v: Verifier, sigs: seq<DecoratedSignature>,
                                          cands: seq<Signer>, total: nat, needed: nat)
    requires forall s :: s in cands ==> s.key.PreAuthTx?
    ensures var r, weight := PreAuthPass(v.hash, cands, total, needed), total + Sum(MatchedCap(v, sigs), cands);
            && (r.done <==> AnyMatched(v, sigs, cands) && weight >= needed)
            && (!r.done ==> r.total == weight)
  {
    if cands == [] {
    } else {
      var rest := cands[1..];
      assert forall s :: s in cands <==> s == cands[0] || s in rest;
      var t := if cands[0].key.preAuthTx == v.hash then total + Cap(cands[0]) else total;
      PreAuthMeaning(v, sigs, rest, t, needed);
      if !AnyMatched(v, sigs, rest) { NothingMatched(v, sigs, rest); }
      if cands[0].key.preAuthTx == v.hash { assert Matched(v, sigs, cands[0]); }
    }
  }

  lemma {:induction false} PassMeaning(v: Verifier, sigs: seq<DecoratedSignature>, i: nat,
                                       cands: seq<Signer>, total: nat, needed: nat)
    requires i <= |sigs| && AtMostOneCandidate(v, sigs, cands)
    requires forall s :: s in cands ==> !s.key.PreAuthTx?
    ensures var r := VerifyPass(v, sigs, i, cands, total, needed);
            var weight := total + Sum(MatchedCap(v, sigs[i..]), cands);
            && (r.done <==> AnyMatched(v, sigs[i..], cands) && weight >= needed)
            && (!r.done ==> r.total == weight)
    decreases |sigs| - i
  {
    if i == |sigs| {
      NothingMatched(v, sigs[i..], cands);
    } else {
      match FindIndex(v, cands, sigs[i])
      case None =>
        PassMeaning(v, sigs, i + 1, cands, total, needed);
        MatchedBySuffix(v, sigs, i, cands);
      case Some(at) =>
        var rest, t := RemoveAt(cands, at), total + Cap(cands[at]);
        AfterCounting(v, sigs, i, cands, at);
        if t < needed {
          PassMeaning(v, sigs, i + 1, rest, t, needed);
          if !AnyMatched(v, sigs[i + 1..], rest) { NothingMatched(v, sigs[i + 1..], rest); }
        }
    }
  }

  /** What counting a candidate leaves: the others, and the rest of the weight. */
  lemma AfterCounting(v: Verifier, sigs: seq<DecoratedSignature>, i: nat, cands: seq<Signer>, at: nat)
    requires i < |sigs| && at < |cands| && AtMostOneCandidate(v, sigs, cands)
    requires v.verifies(cands[at].key, sigs[i])
    requires forall s :: s in cands ==> !s.key.PreAuthTx?
    ensures var rest := RemoveAt(cands, at);
            && AtMostOneCandidate(v, sigs, rest)
            && (forall s :: s in rest ==> !s.key.PreAuthTx?)
            && Sum(MatchedCap(v, sigs[i..]), cands)
               == Cap(cands[at]) + Sum(MatchedCap(v, sigs[i + 1..]), rest)
    ensures AnyMatched(v, sigs[i..], cands)
  {
    OthersUnmatched(v, sigs, sigs[i], cands, at);
    CandidatesWithout(v, sigs, cands, at);
    CountedWeight(v, sigs, i, cands, at);
  }

  lemma CountedWeight(v: Verifier, sigs: seq<DecoratedSignature>, i: nat, cands: seq<Signer>, at: nat)
    requires i < |sigs| && at < |cands| && v.verifies(cands[at].key, sigs[i]) && !cands[at].key.PreAuthTx?
    requires forall s :: s in RemoveAt(cands, at) ==> !s.key.PreAuthTx? && !v.verifies(s.key, sigs[i])
    ensures Sum(MatchedCap(v, sigs[i..]), cands)
         == Cap(cands[at]) + Sum(MatchedCap(v, sigs[i + 1..]), RemoveAt(cands, at))
    ensures AnyMatched(v, sigs[i..], cands)
  {
    assert sigs[i..][0] == sigs[i] && cands[at] in cands && Matched(v, sigs[i..], cands[at]);
    SumRemoveAt(MatchedCap(v, sigs[i..]), cands, at);
    MatchedBySuffix(v, sigs, i, RemoveAt(cands, at));
  }

  lemma OthersUnmatched(v: Verifier, sigs: seq<DecoratedSignature>, sig: DecoratedSignature, cands: seq<Signer>,
                        at: nat)
    requires sig in sigs && at < |cands| && AtMostOneCandidate(v, sigs, cands) && v.verifies(cands[at].key, sig)
    ensures forall s :: s in RemoveAt(cands, at) ==> s in cands && !v.verifies(s.key, sig)
  {
    var rest := RemoveAt(cands, at);
    forall s | s in rest ensures s in cands && !v.verifies(s.key, sig) {
      var k :| 0 <= k < |rest| && rest[k] == s;
      var k' := if k < at then k else k + 1;
      assert s == cands[k'];
    }
  }

  lemma CandidatesWithout(v: Verifier, sigs: seq<DecoratedSignature>, cands: seq<Signer>, at: nat)
    requires at < |cands| && AtMostOneCandidate(v, sigs, cands)
    ensures AtMostOneCandidate(v, sigs, RemoveAt(cands, at))
  {
    var rest := RemoveAt(cands, at);
    forall sig, j, k | sig in sigs && 0 <= j < k < |rest|
      ensures !(v.verifies(rest[j].key, sig) && v.verifies(rest[k].key, sig))
    {
      assert OneCandidate(v, sig, cands);
      var j', k' := if j < at then j else j + 1, if k < at then k else k + 1;
      assert cands[j'] == rest[j] && cands[k'] == rest[k];
    }
  }

  /** A signature that verifies for no candidate leaves every match as it was. */
  lemma MatchedBySuffix(v: Verifier, sigs: seq<DecoratedSignature>, i: nat, cands: seq<Signer>)
    requires i < |sigs| && forall s :: s in cands ==> !s.key.PreAuthTx? && !v.verifies(s.key, sigs[i])
    ensures Sum(MatchedCap(v, sigs[i..]), cands) == Sum(MatchedCap(v, sigs[i + 1..]), cands)
    ensures AnyMatched(v, sigs[i..], cands) <==> AnyMatched(v, sigs[i + 1..], cands)
  {
    assert sigs[i..] == [sigs[i]] + sigs[i + 1..];
    forall s | s in cands ensures Matched(v, sigs[i..], s) <==> Matched(v, sigs[i + 1..], s) {}
    SumEqual(MatchedCap(v, sigs[i..]), MatchedCap(v, sigs[i + 1..]), cands);
  }

  // ---- which signatures a check counts, and when it is satisfied ------------

  /** Some check or pass counted this signature. */
  ghost predicate Consumed(log: seq<Counted>, i: nat) { exists m :: m in log && m.sig == Some(i) }

  /** The order of the passes. */
  function Rank(kind: Kind): nat {
    match kind
    case KindPreAuthTx => 0
    case KindHashX => 1
    case KindEd25519 => 2
    case KindSignedPayload => 3
  }

  /**
   * Matched before signature `k` is tried for `kind`: by any signature if the
   * signer is of an earlier type, by an earlier signature if it is of this one.
   */
  ghost predicate MatchedSoFar(v: Verifier, sigs: seq<DecoratedSignature>, kind: Kind, k: nat, s: Signer)
    requires k <= |sigs|
  {
    if KindOf(s.key) == kind then Matched(v, sigs[..k], s)
    else Rank(KindOf(s.key)) < Rank(kind) && Matched(v, sigs, s)
  }

  ghost function CapSoFar(v: Verifier, sigs: seq<DecoratedSignature>, kind: Kind, k: nat): Signer -> nat
    requires k <= |sigs|
  {
    (s: Signer) => if MatchedSoFar(v, sigs, kind, k, s) then Cap(s) else 0
  }

  ghost predicate AnySoFar(v: Verifier, sigs: seq<DecoratedSignature>, signers: seq<Signer>, kind: Kind, k: nat)
    requires k <= |sigs|
  {
    exists s :: s in signers && MatchedSoFar(v, sigs, kind, k, s)
  }

  /** Everyone matched so far weighs enough together, and there is someone. */
  ghost predicate SatisfiedSoFar(v: Verifier, sigs: seq<DecoratedSignature>, signers: seq<Signer>, needed: nat,
                                 kind: Kind, k: nat)
    requires k <= |sigs|
  {
    AnySoFar(v, sigs, signers, kind, k) && Sum(CapSoFar(v, sigs, kind, k), signers) >= needed
  }

  /** The signature verifies for this signer, and no signature before it does. */
  ghost predicate FirstMatch(v: Verifier, sigs: seq<DecoratedSignature>, i: nat, k: nat, s: Signer)
    requires i <= k < |sigs|
  {
    v.verifies(s.key, sigs[k]) && forall j :: i <= j < k ==> !v.verifies(s.key, sigs[j])
  }

  /** Signature `k` matches a new signer of this type, and the check still needs one. */
  ghost predicate CountedAs(v: Verifier, sigs: seq<DecoratedSignature>, signers: seq<Signer>, needed: nat,
                            kind: Kind, k: nat)
    requires k < |sigs|
  {
    && kind != KindPreAuthTx
    && (exists s :: s in signers && KindOf(s.key) == kind && FirstMatch(v, sigs, 0, k, s))
    && !SatisfiedSoFar(v, sigs, signers, needed, kind, k)
  }

  /** The signatures a check counts, in terms of who verifies for whom only. */
  ghost predicate CountedBy(v: Verifier, sigs: seq<DecoratedSignature>, signers: seq<Signer>, needed: nat, k: nat)
    requires k < |sigs|
  {
    exists kind :: CountedAs(v, sigs, signers, needed, kind, k)
  }

  lemma OnlyLaterConsumed(v: Verifier, sigs: seq<DecoratedSignature>, i: nat, cands: seq<Signer>, total: nat,
                          needed: nat, k: nat)
    requires i <= |sigs| && k < i
    ensures !Consumed(VerifyPass(v, sigs, i, cands, total, needed).log, k)
  {
    PassOrdered(v, sigs, i, cands, total, needed);
  }

  lemma ConsumedPrepend(m: Counted, r: Check, k: nat)
    ensures Consumed(Prepend(m, r).log, k) <==> m.sig == Some(k) || Consumed(r.log, k)
  {
    assert Prepend(m, r).log[0] == m;
    forall x | x in r.log ensures x in Prepend(m, r).log {}
  }

  /** One pass has what it needs from the signatures before `k`. */
  ghost predicate PassSatisfied(v: Verifier, sigs: seq<DecoratedSignature>, cands: seq<Signer>, total: nat, needed: nat)
  {
    AnyMatched(v, sigs, cands) && total + Sum(MatchedCap(v, sigs), cands) >= needed
  }

  ghost predicate NewCandidate(v: Verifier, sigs: seq<DecoratedSignature>, i: nat, k: nat, cands: seq<Signer>)
    requires i <= k < |sigs|
  {
    exists s :: s in cands && FirstMatch(v, sigs, i, k, s)
  }

  /**
   * A pass counts signature `k` iff it verifies for a candidate that no earlier
   * signature verifies for, and those earlier ones had not satisfied the check.
   */
  lemma {:induction false} PassCounts(v: Verifier, sigs: seq<DecoratedSignature>, i: nat, cands: seq<Signer>,
                                      total: nat, needed: nat, k: nat)
    requires i <= k < |sigs| && AtMostOneCandidate(v, sigs, cands)
    requires forall s :: s in cands ==> !s.key.PreAuthTx?
    ensures Consumed(VerifyPass(v, sigs, i, cands, total, needed).log, k)
       <==> NewCandidate(v, sigs, i, k, cands) && !PassSatisfied(v, sigs[i..k], cands, total, needed)
    decreases k - i
  {
    match FindIndex(v, cands, sigs[i])
    case None =>
      if i == k {
        OnlyLaterConsumed(v, sigs, i + 1, cands, total, needed, k);
      } else {
        PassCounts(v, sigs, i + 1, cands, total, needed, k);
        SkippedSignature(v, sigs, i, k, cands);
      }
    case Some(at) =>
      var rest, t, m := RemoveAt(cands, at), total + Cap(cands[at]), Counted(Some(i), cands[at]);
      if i == k {
        assert m in VerifyPass(v, sigs, i, cands, total, needed).log;
        assert FirstMatch(v, sigs, i, k, cands[at]);
        assert sigs[i..k] == [];
      } else {
        CountedSignature(v, sigs, i, k, cands, at, total, needed);
        if t < needed {
          PassCounts(v, sigs, i + 1, rest, t, needed, k);
          ConsumedPrepend(m, VerifyPass(v, sigs, i + 1, rest, t, needed), k);
        }
      }
  }

  lemma SkippedSignature(v: Verifier, sigs: seq<DecoratedSignature>, i: nat, k: nat, cands: seq<Signer>)
    requires i < k < |sigs| && forall s :: s in cands ==> !s.key.PreAuthTx? && !v.verifies(s.key, sigs[i])
    ensures Sum(MatchedCap(v, sigs[i..k]), cands) == Sum(MatchedCap(v, sigs[i + 1..k]), cands)
    ensures AnyMatched(v, sigs[i..k], cands) <==> AnyMatched(v, sigs[i + 1..k], cands)
    ensures NewCandidate(v, sigs, i, k, cands) <==> NewCandidate(v, sigs, i + 1, k, cands)
  {
    assert sigs[..k][i..] == sigs[i..k] && sigs[..k][i + 1..] == sigs[i + 1..k];
    MatchedBySuffix(v, sigs[..k], i, cands);
    forall s | s in cands ensures FirstMatch(v, sigs, i, k, s) <==> FirstMatch(v, sigs, i + 1, k, s) {}
  }

  /** What the first of several signatures leaves to the others when it is counted. */
  lemma CountedSignature(v: Verifier, sigs: seq<DecoratedSignature>, i: nat, k: nat, cands: seq<Signer>, at: nat,
                         total: nat, needed: nat)
    requires i < k < |sigs| && at < |cands| && AtMostOneCandidate(v, sigs, cands) && v.verifies(cands[at].key, sigs[i])
    requires forall s :: s in cands ==> !s.key.PreAuthTx?
    ensures var rest, t := RemoveAt(cands, at), total + Cap(cands[at]);
            && AtMostOneCandidate(v, sigs, rest) && (forall s :: s in rest ==> !s.key.PreAuthTx?)
            && (NewCandidate(v, sigs, i, k, cands) <==> NewCandidate(v, sigs, i + 1, k, rest))
            && (t >= needed ==> PassSatisfied(v, sigs[i..k], cands, total, needed))
            && (t < needed ==>
                  (PassSatisfied(v, sigs[i..k], cands, total, needed)
                   <==> PassSatisfied(v, sigs[i + 1..k], rest, t, needed)))
  {
    var rest := RemoveAt(cands, at);
    assert sigs[..k][i..] == sigs[i..k] && sigs[..k][i + 1..] == sigs[i + 1..k];
    AfterCounting(v, sigs[..k], i, cands, at);
    CandidatesWithout(v, sigs, cands, at);
    OthersUnmatched(v, sigs, sigs[i], cands, at);
    if !AnyMatched(v, sigs[i + 1..k], rest) { NothingMatched(v, sigs[i + 1..k], rest); }
    NewAmongOthers(v, sigs, i, k, cands, at);
  }

  lemma NewAmongOthers(v: Verifier, sigs: seq<DecoratedSignature>, i: nat, k: nat, cands: seq<Signer>, at: nat)
    requires i < k < |sigs| && at < |cands| && v.verifies(cands[at].key, sigs[i])
    requires forall s :: s in RemoveAt(cands, at) ==> s in cands && !v.verifies(s.key, sigs[i])
    ensures NewCandidate(v, sigs, i, k, cands) <==> NewCandidate(v, sigs, i + 1, k, RemoveAt(cands, at))
  {
    var rest := RemoveAt(cands, at);
    if s :| s in cands && FirstMatch(v, sigs, i, k, s) {
      var j :| 0 <= j < |cands| && cands[j] == s;
      assert j != at;
      assert rest[if j < at then j else j - 1] == s;
      assert FirstMatch(v, sigs, i + 1, k, s);
    }
    if s :| s in rest && FirstMatch(v, sigs, i + 1, k, s) { assert FirstMatch(v, sigs, i, k, s); }
  }

  /** A sum by one type and by all others. */
  lemma {:induction false} SumSplit(h: Signer -> nat, f: Signer -> nat, g: Signer -> nat, kind: Kind,
                                    signers: seq<Signer>)
    requires forall s :: s in signers ==> h(s) == if KindOf(s.key) == kind then g(s) else f(s)
    requires forall s :: s in signers && KindOf(s.key) == kind ==> f(s) == 0
    ensures Sum(h, signers) == Sum(f, signers) + Sum(g, Filter(OfKind(kind), signers))
  {
    if signers == [] {
    } else {
      SumSplit(h, f, g, kind, signers[1..]);
      SumAppend(g, if OfKind(kind)(signers[0]) then [signers[0]] else [], Filter(OfKind(kind), signers[1..]));
    }
  }

  /** What the pass over `kind` adds to those before it, up to signature `k`. */
  lemma SoFarSplits(v: Verifier, sigs: seq<DecoratedSignature>, signers: seq<Signer>, kind: Kind, k: nat)
    requires k <= |sigs| && kind != KindPreAuthTx
    ensures var cands := Filter(OfKind(kind), signers);
            && Sum(CapSoFar(v, sigs, kind, k), signers)
               == Sum(CapSoFar(v, sigs, kind, 0), signers) + Sum(MatchedCap(v, sigs[..k]), cands)
            && (AnySoFar(v, sigs, signers, kind, k) <==>
                  AnySoFar(v, sigs, signers, kind, 0) || AnyMatched(v, sigs[..k], cands))
            && (!AnyMatched(v, sigs[..k], cands) ==> Sum(MatchedCap(v, sigs[..k]), cands) == 0)
  {
    var cands := Filter(OfKind(kind), signers);
    forall s | s in signers && KindOf(s.key) == kind ensures !MatchedSoFar(v, sigs, kind, 0, s) {
      assert sigs[..0] == [];
    }
    SumSplit(CapSoFar(v, sigs, kind, k), CapSoFar(v, sigs, kind, 0), MatchedCap(v, sigs[..k]), kind, signers);
    forall s | s in signers
      ensures MatchedSoFar(v, sigs, kind, k, s)
          <==> MatchedSoFar(v, sigs, kind, 0, s) || (s in cands && Matched(v, sigs[..k], s))
    {
      assert s in cands <==> OfKind(kind)(s);
    }
    if !AnyMatched(v, sigs[..k], cands) { NothingMatched(v, sigs[..k], cands); }
  }

  /** A check that has not gone past signature `k` of this type ends as those matched so far make it. */
  ghost predicate EndsAs(v: Verifier, sigs: seq<DecoratedSignature>, signers: seq<Signer>, needed: nat, r: Check,
                         kind: Kind, k: nat)
    requires k <= |sigs|
  {
    && (r.done <==> SatisfiedSoFar(v, sigs, signers, needed, kind, k))
    && (!r.done ==> r.total == Sum(CapSoFar(v, sigs, kind, k), signers))
  }

  /** How one more pass ends. */
  lemma PassStage(v: Verifier, sigs: seq<DecoratedSignature>, signers: seq<Signer>, needed: nat, prior: Check,
                  kind: Kind)
    requires AtMostOneSigner(v, sigs, signers) && kind != KindPreAuthTx
    requires EndsAs(v, sigs, signers, needed, prior, kind, 0)
    ensures EndsAs(v, sigs, signers, needed, AndThen(prior, v, sigs, signers, kind, needed), kind, |sigs|)
  {
    var cands := Filter(OfKind(kind), signers);
    CandidatesOfKind(v, sigs, signers, kind);
    assert sigs[0..] == sigs[..|sigs|] == sigs;
    PassMeaning(v, sigs, 0, cands, prior.total, needed);
    SoFarSplits(v, sigs, signers, kind, |sigs|);
  }

  /** Which signatures it adds to those counted. */
  lemma StageCounts(v: Verifier, sigs: seq<DecoratedSignature>, signers: seq<Signer>, needed: nat, prior: Check,
                    kind: Kind, k: nat)
    requires AtMostOneSigner(v, sigs, signers) && kind != KindPreAuthTx && k < |sigs|
    requires EndsAs(v, sigs, signers, needed, prior, kind, 0)
    ensures Consumed(AndThen(prior, v, sigs, signers, kind, needed).log, k)
       <==> Consumed(prior.log, k) || CountedAs(v, sigs, signers, needed, kind, k)
  {
    var cands := Filter(OfKind(kind), signers);
    SoFarSplits(v, sigs, signers, kind, k);
    if !prior.done {
      CandidatesOfKind(v, sigs, signers, kind);
      PassCounts(v, sigs, 0, cands, prior.total, needed, k);
      assert sigs[0..k] == sigs[..k];
      ConsumedAppend(prior.log, VerifyPass(v, sigs, 0, cands, prior.total, needed).log, k);
      NewOfKind(v, sigs, signers, kind, k);
    }
  }

  lemma NewOfKind(v: Verifier, sigs: seq<DecoratedSignature>, signers: seq<Signer>, kind: Kind, k: nat)
    requires k < |sigs|
    ensures NewCandidate(v, sigs, 0, k, Filter(OfKind(kind), signers))
       <==> exists s :: s in signers && KindOf(s.key) == kind && FirstMatch(v, sigs, 0, k, s)
  {
    assert forall s :: s in Filter(OfKind(kind), signers) <==> s in signers && KindOf(s.key) == kind;
  }

  lemma ConsumedAppend(a: seq<Counted>, b: seq<Counted>, k: nat)
    ensures Consumed(a + b, k) <==> Consumed(a, k) || Consumed(b, k)
  {
    forall m ensures m in a + b <==> m in a || m in b {}
  }

  /** The end of one pass is the start of the next. */
  lemma NextStage(v: Verifier, sigs: seq<DecoratedSignature>, signers: seq<Signer>, needed: nat, r: Check, kind: Kind,
                  next: Kind)
    requires EndsAs(v, sigs, signers, needed, r, kind, |sigs|) && Rank(next) == Rank(kind) + 1
    ensures EndsAs(v, sigs, signers, needed, r, next, 0)
  {
    assert sigs[..|sigs|] == sigs && sigs[..0] == [];
    forall s: Signer ensures MatchedSoFar(v, sigs, kind, |sigs|, s) <==> MatchedSoFar(v, sigs, next, 0, s) {
      if KindOf(s.key) != kind && KindOf(s.key) != next { assert Rank(KindOf(s.key)) != Rank(kind); }
    }
    SumEqual(CapSoFar(v, sigs, kind, |sigs|), CapSoFar(v, sigs, next, 0), signers);
  }

  lemma FirstStage(v: Verifier, sigs: seq<DecoratedSignature>, signers: seq<Signer>, needed: nat)
    ensures EndsAs(v, sigs, signers, needed, AfterPreAuthTx(v, signers, needed), KindPreAuthTx, |sigs|)
    ensures forall k :: !Consumed(AfterPreAuthTx(v, signers, needed).log, k)
  {
    var cands := Filter(OfKind(KindPreAuthTx), signers);
    assert sigs[..|sigs|] == sigs;
    PreAuthMeaning(v, sigs, cands, 0, needed);
    PreAuthSound(v, sigs, cands, 0, needed);
    SumSplit(CapSoFar(v, sigs, KindPreAuthTx, |sigs|), Nothing(), MatchedCap(v, sigs), KindPreAuthTx, signers);
    SumNothing(signers);
    forall s | s in signers
      ensures MatchedSoFar(v, sigs, KindPreAuthTx, |sigs|, s) <==> s in cands && Matched(v, sigs, s)
    {
      assert s in cands <==> OfKind(KindPreAuthTx)(s);
    }
  }

  /** Each pass starts from everyone matched by the ones before it, and so the check ends. */
  lemma Stages(v: Verifier, sigs: seq<DecoratedSignature>, signers: seq<Signer>, needed: nat)
    requires AtMostOneSigner(v, sigs, signers)
    ensures EndsAs(v, sigs, signers, needed, AfterPreAuthTx(v, signers, needed), KindHashX, 0)
    ensures EndsAs(v, sigs, signers, needed, AfterHashX(v, sigs, signers, needed), KindHashX, |sigs|)
    ensures EndsAs(v, sigs, signers, needed, AfterHashX(v, sigs, signers, needed), KindEd25519, 0)
    ensures EndsAs(v, sigs, signers, needed, AfterEd25519(v, sigs, signers, needed), KindEd25519, |sigs|)
    ensures EndsAs(v, sigs, signers, needed, AfterEd25519(v, sigs, signers, needed), KindSignedPayload, 0)
    ensures EndsAs(v, sigs, signers, needed, Decide(v, sigs, signers, needed), KindSignedPayload, |sigs|)
  {
    var p0, p1 := AfterPreAuthTx(v, signers, needed), AfterHashX(v, sigs, signers, needed);
    var p2 := AfterEd25519(v, sigs, signers, needed);
    FirstStage(v, sigs, signers, needed);
    NextStage(v, sigs, signers, needed, p0, KindPreAuthTx, KindHashX);
    PassStage(v, sigs, signers, needed, p0, KindHashX);
    NextStage(v, sigs, signers, needed, p1, KindHashX, KindEd25519);
    PassStage(v, sigs, signers, needed, p1, KindEd25519);
    NextStage(v, sigs, signers, needed, p2, KindEd25519, KindSignedPayload);
    PassStage(v, sigs, signers, needed, p2, KindSignedPayload);
  }

  /**
   * The greedy, early-exit check decides exactly this: someone is matched, and
   * the capped weights of ALL matched signers reach the needed weight.
   */
  lemma CheckMeaning(v: Verifier, sigs: seq<DecoratedSignature>, signers: seq<Signer>, needed: nat)
    requires AtMostOneSigner(v, sigs, signers)
    ensures Decide(v, sigs, signers, needed).done
       <==> AnyMatched(v, sigs, signers) && Sum(MatchedCap(v, sigs), signers) >= needed
  {
    Stages(v, sigs, signers, needed);
    AllStages(v, sigs, signers, needed);
  }

  /** After the last pass everyone matched is. */
  lemma AllStages(v: Verifier, sigs: seq<DecoratedSignature>, signers: seq<Signer>, needed: nat)
    ensures SatisfiedSoFar(v, sigs, signers, needed, KindSignedPayload, |sigs|)
       <==> AnyMatched(v, sigs, signers) && Sum(MatchedCap(v, sigs), signers) >= needed
  {
    assert sigs[..|sigs|] == sigs;
    forall s: Signer ensures MatchedSoFar(v, sigs, KindSignedPayload, |sigs|, s) <==> Matched(v, sigs, s) {}
    SumEqual(CapSoFar(v, sigs, KindSignedPayload, |sigs|), MatchedCap(v, sigs), signers);
  }

  /**
   * And it counts exactly these signatures: of some type, the first to verify
   * for a signer, while those matched so far do not satisfy the check.
   */
  lemma CheckCounts(v: Verifier, sigs: seq<DecoratedSignature>, signers: seq<Signer>, needed: nat, k: nat)
    requires AtMostOneSigner(v, sigs, signers) && k < |sigs|
    ensures Consumed(Decide(v, sigs, signers, needed).log, k) <==> CountedBy(v, sigs, signers, needed, k)
  {
    Stages(v, sigs, signers, needed);
    FirstStage(v, sigs, signers, needed);
    StageCounts(v, sigs, signers, needed, AfterPreAuthTx(v, signers, needed), KindHashX, k);
    StageCounts(v, sigs, signers, needed, AfterHashX(v, sigs, signers, needed), KindEd25519, k);
    StageCounts(v, sigs, signers, needed, AfterEd25519(v, sigs, signers, needed), KindSignedPayload, k);
  }

  /** So the answer depends on neither the order of the signatures nor that of the signers. */
  lemma CheckIgnoresOrder(v: Verifier, sigs: seq<DecoratedSignature>, sigs': seq<DecoratedSignature>,
                          signers: seq<Signer>, signers': seq<Signer>, needed: nat)
    requires AtMostOneSigner(v, sigs, signers)
    requires multiset(sigs) == multiset(sigs') && multiset(signers) == multiset(signers')
    ensures Decide(v, sigs, signers, needed).done == Decide(v, sigs', signers', needed).done
  {
    SameElements(sigs, sigs');
    SameElements(signers, signers');
    CheckMeaning(v, sigs, signers, needed);
    assert AtMostOneSigner(v, sigs', signers');
    CheckMeaning(v, sigs', signers', needed);
    MatchedIgnoresOrder(v, sigs, sigs', signers);
    SumPermutation(MatchedCap(v, sigs'), signers, signers');
    assert AnyMatched(v, sigs', signers) <==> AnyMatched(v, sigs', signers');
  }

  lemma MatchedIgnoresOrder(v: Verifier, sigs: seq<DecoratedSignature>, sigs': seq<DecoratedSignature>,
                            signers: seq<Signer>)
    requires forall x :: x in sigs <==> x in sigs'
    ensures Sum(MatchedCap(v, sigs), signers) == Sum(MatchedCap(v, sigs'), signers)
    ensures AnyMatched(v, sigs, signers) <==> AnyMatched(v, sigs', signers)
  {
    forall s: Signer ensures Matched(v, sigs, s) <==> Matched(v, sigs', s) {}
    SumEqual(MatchedCap(v, sigs), MatchedCap(v, sigs'), signers);
  }

  lemma SameElements<T>(a: seq<T>, b: seq<T>)
    requires multiset(a) == multiset(b)
    ensures forall x :: x in a <==> x in b
  {
    assert forall x :: x in a <==> x in multiset(a);
    assert forall x :: x in b <==> x in multiset(b);
  }

  // ---- what a satisfied check proves, whatever the signatures --------------

  ghost function Times(x: Signer): Counted -> nat { (m: Counted) => if m.signer == x then 1 else 0 }

  ghost function CountedCap(): Counted -> nat { (m: Counted) => Min(m.signer.weight, 255) }

  /** Each signer is counted at most once for each time the list has it. */
  ghost predicate DistinctSigners(log: seq<Counted>, signers: seq<Signer>) {
    forall x :: Sum(Times(x), log) <= multiset(signers)[x]
  }

  /** The signer pre-authorized this hash, or the named signature verifies for it. */
  ghost predicate Genuine(v: Verifier, sigs: seq<DecoratedSignature>, m: Counted) {
    match m.sig
    case None => m.signer.key.PreAuthTx? && m.signer.key.preAuthTx == v.hash
    case Some(i) => i < |sigs| && v.verifies(m.signer.key, sigs[i])
  }

  /** Each signature is counted at most once per signer type. */
  ghost predicate OncePerKind(log: seq<Counted>) {
    forall j, k :: 0 <= j < k < |log| && log[j].sig.Some? && log[j].sig == log[k].sig
      ==> KindOf(log[j].signer.key) != KindOf(log[k].signer.key)
  }

  /** Genuine signatures of distinct signers of the list, weighing at least `needed`. */
  ghost predicate Authorizes(v: Verifier, sigs: seq<DecoratedSignature>, signers: seq<Signer>,
                             needed: nat, log: seq<Counted>) {
    && log != []
    && (forall m :: m in log ==> Genuine(v, sigs, m))
    && OncePerKind(log)
    && DistinctSigners(log, signers)
    && Sum(CountedCap(), log) >= needed
  }

  /** What holds of the log after any number of passes, over the types in `kinds`. */
  ghost predicate SoundSoFar(v: Verifier, sigs: seq<DecoratedSignature>, signers: seq<Signer>,
                             needed: nat, kinds: set<Kind>, r: Check) {
    && (forall m :: m in r.log ==> Genuine(v, sigs, m) && KindOf(m.signer.key) in kinds)
    && OncePerKind(r.log)
    && DistinctSigners(r.log, signers)
    && r.total == Sum(CountedCap(), r.log)
    && (r.done ==> r.log != [] && r.total >= needed)
  }

  lemma SumPrepend(f: Counted -> nat, m: Counted, log: seq<Counted>)
    ensures Sum(f, [m] + log) == f(m) + Sum(f, log)
  {
    assert ([m] + log)[1..] == log;
  }

  lemma {:induction false} PreAuthSound(v: Verifier, sigs: seq<DecoratedSignature>, cands: seq<Signer>, total: nat,
                                        needed: nat)
    requires forall s :: s in cands ==> s.key.PreAuthTx?
    ensures var r := PreAuthPass(v.hash, cands, total, needed);
            && (forall m :: m in r.log ==> Genuine(v, sigs, m) && m.sig.None? && m.signer in cands)
            && r.total == total + Sum(CountedCap(), r.log)
            && (r.done ==> r.log != [] && r.total >= needed)
  {
    if cands == [] {
    } else {
      var t := if cands[0].key.preAuthTx == v.hash then total + Cap(cands[0]) else total;
      PreAuthSound(v, sigs, cands[1..], t, needed);
      SumPrepend(CountedCap(), Counted(None, cands[0]), PreAuthPass(v.hash, cands[1..], t, needed).log);
    }
  }

  lemma {:induction false} PreAuthDistinct(hash: Bytes, cands: seq<Signer>, total: nat, needed: nat, x: Signer)
    requires forall s :: s in cands ==> s.key.PreAuthTx?
    ensures Sum(Times(x), PreAuthPass(hash, cands, total, needed).log) <= multiset(cands)[x]
  {
    if cands == [] {
    } else {
      assert cands == [cands[0]] + cands[1..];
      var t := if cands[0].key.preAuthTx == hash then total + Cap(cands[0]) else total;
      PreAuthDistinct(hash, cands[1..], t, needed, x);
      SumPrepend(Times(x), Counted(None, cands[0]), PreAuthPass(hash, cands[1..], t, needed).log);
    }
  }

  lemma {:induction false} PassGenuine(v: Verifier, sigs: seq<DecoratedSignature>, i: nat, cands: seq<Signer>,
                                       total: nat, needed: nat)
    requires i <= |sigs|
    ensures var r := VerifyPass(v, sigs, i, cands, total, needed);
            && (forall m :: m in r.log ==> Genuine(v, sigs, m) && m.signer in cands)
            && r.total == total + Sum(CountedCap(), r.log)
            && (r.done ==> r.log != [] && r.total >= needed)
    decreases |sigs| - i
  {
    if i == |sigs| {
    } else {
      match FindIndex(v, cands, sigs[i])
      case None => PassGenuine(v, sigs, i + 1, cands, total, needed);
      case Some(at) =>
        var rest, t := RemoveAt(cands, at), total + Cap(cands[at]);
        if t < needed {
          PassGenuine(v, sigs, i + 1, rest, t, needed);
          SumPrepend(CountedCap(), Counted(Some(i), cands[at]), VerifyPass(v, sigs, i + 1, rest, t, needed).log);
        }
    }
  }

  lemma {:induction false} PassOrdered(v: Verifier, sigs: seq<DecoratedSignature>, i: nat, cands: seq<Signer>,
                                       total: nat, needed: nat)
    requires i <= |sigs|
    ensures var log := VerifyPass(v, sigs, i, cands, total, needed).log;
            && (forall m :: m in log ==> m.sig.Some? && i <= m.sig.value)
            && (forall j, k :: 0 <= j < k < |log| ==> log[j].sig != log[k].sig)
    decreases |sigs| - i
  {
    if i == |sigs| {
    } else {
      match FindIndex(v, cands, sigs[i])
      case None => PassOrdered(v, sigs, i + 1, cands, total, needed);
      case Some(at) =>
        var t := total + Cap(cands[at]);
        if t < needed { PassOrdered(v, sigs, i + 1, RemoveAt(cands, at), t, needed); }
    }
  }

  lemma {:induction false} PassDistinct(v: Verifier, sigs: seq<DecoratedSignature>, i: nat, cands: seq<Signer>,
                                        total: nat, needed: nat, x: Signer)
    requires i <= |sigs|
    ensures Sum(Times(x), VerifyPass(v, sigs, i, cands, total, needed).log) <= multiset(cands)[x]
    decreases |sigs| - i
  {
    if i == |sigs| {
    } else {
      match FindIndex(v, cands, sigs[i])
      case None => PassDistinct(v, sigs, i + 1, cands, total, needed, x);
      case Some(at) =>
        var rest, t := RemoveAt(cands, at), total + Cap(cands[at]);
        RemoveAtCount(cands, at, x);
        if t < needed {
          PassDistinct(v, sigs, i + 1, rest, t, needed, x);
          SumPrepend(Times(x), Counted(Some(i), cands[at]), VerifyPass(v, sigs, i + 1, rest, t, needed).log);
        }
    }
  }

  lemma {:induction false} NeverCounted(log: seq<Counted>, x: Signer)
    requires forall m :: m in log ==> m.signer != x
    ensures Sum(Times(x), log) == 0
  {
    if log == [] {
    } else {
      NeverCounted(log[1..], x);
    }
  }

  lemma AndThenDistinct(v: Verifier, sigs: seq<DecoratedSignature>, signers: seq<Signer>,
                        needed: nat, prior: Check, kind: Kind, x: Signer)
    requires !prior.done && Sum(Times(x), prior.log) <= multiset(signers)[x]
    requires forall m :: m in prior.log ==> KindOf(m.signer.key) != kind
    ensures Sum(Times(x), AndThen(prior, v, sigs, signers, kind, needed).log) <= multiset(signers)[x]
  {
    var cands := Filter(OfKind(kind), signers);
    var r := VerifyPass(v, sigs, 0, cands, prior.total, needed);
    PassDistinct(v, sigs, 0, cands, prior.total, needed, x);
    FilterMultiset(OfKind(kind), signers, x);
    SumAppend(Times(x), prior.log, r.log);
    if KindOf(x.key) == kind { NeverCounted(prior.log, x); }
  }

  lemma AndThenSound(v: Verifier, sigs: seq<DecoratedSignature>, signers: seq<Signer>,
                     needed: nat, kinds: set<Kind>, prior: Check, kind: Kind)
    requires SoundSoFar(v, sigs, signers, needed, kinds, prior) && kind !in kinds
    ensures SoundSoFar(v, sigs, signers, needed, kinds + {kind}, AndThen(prior, v, sigs, signers, kind, needed))
  {
    if !prior.done {
      var cands := Filter(OfKind(kind), signers);
      PassGenuine(v, sigs, 0, cands, prior.total, needed);
      PassOrdered(v, sigs, 0, cands, prior.total, needed);
      var r := VerifyPass(v, sigs, 0, cands, prior.total, needed);
      SumAppend(CountedCap(), prior.log, r.log);
      forall x ensures Sum(Times(x), AndThen(prior, v, sigs, signers, kind, needed).log) <= multiset(signers)[x] {
        AndThenDistinct(v, sigs, signers, needed, prior, kind, x);
      }
    }
  }

  lemma PreAuthFirst(v: Verifier, sigs: seq<DecoratedSignature>, signers: seq<Signer>, needed: nat)
    ensures SoundSoFar(v, sigs, signers, needed, {KindPreAuthTx},
                       PreAuthPass(v.hash, Filter(OfKind(KindPreAuthTx), signers), 0, needed))
  {
    var cands := Filter(OfKind(KindPreAuthTx), signers);
    PreAuthSound(v, sigs, cands, 0, needed);
    forall x ensures Sum(Times(x), PreAuthPass(v.hash, cands, 0, needed).log) <= multiset(signers)[x] {
      PreAuthDistinct(v.hash, cands, 0, needed, x);
      FilterMultiset(OfKind(KindPreAuthTx), signers, x);
    }
  }

  /** A satisfied check has counted a genuine matching that weighs enough. */
  lemma CheckSound(v: Verifier, sigs: seq<DecoratedSignature>, signers: seq<Signer>, needed: nat)
    ensures var r := Decide(v, sigs, signers, needed);
            && (r.done ==> Authorizes(v, sigs, signers, needed, r.log))
            && (forall m :: m in r.log ==> Genuine(v, sigs, m))
  {
    var p0, p1 := AfterPreAuthTx(v, signers, needed), AfterHashX(v, sigs, signers, needed);
    var p2 := AfterEd25519(v, sigs, signers, needed);
    PreAuthFirst(v, sigs, signers, needed);
    AndThenSound(v, sigs, signers, needed, {KindPreAuthTx}, p0, KindHashX);
    AndThenSound(v, sigs, signers, needed, {KindPreAuthTx} + {KindHashX}, p1, KindEd25519);
    AndThenSound(v, sigs, signers, needed, {KindPreAuthTx} + {KindHashX} + {KindEd25519}, p2, KindSignedPayload);
  }

  // ---- appending a signature ----------------------------------------------

  ghost predicate OnlyEd25519(signers: seq<Signer>) { forall s :: s in signers ==> s.key.Ed25519? }

  /** The pass that satisfied a satisfied check. */
  function SatisfiedBy(v: Verifier, sigs: seq<DecoratedSignature>, signers: seq<Signer>, needed: nat): Kind {
    if AfterPreAuthTx(v, signers, needed).done then KindPreAuthTx
    else if AfterHashX(v, sigs, signers, needed).done then KindHashX
    else if AfterEd25519(v, sigs, signers, needed).done then KindEd25519
    else KindSignedPayload
  }

  /** The signature verifies for no signer of a type tried before the one that satisfied the check. */
  ghost predicate ComesLate(v: Verifier, sigs: seq<DecoratedSignature>, signers: seq<Signer>, needed: nat,
                            extra: DecoratedSignature) {
    forall s :: s in signers && 0 < Rank(KindOf(s.key)) < Rank(SatisfiedBy(v, sigs, signers, needed))
      ==> !v.verifies(s.key, extra)
  }

  lemma {:induction false} PassIgnoresLaterSignature(v: Verifier, sigs: seq<DecoratedSignature>, i: nat,
                                                     cands: seq<Signer>, total: nat, needed: nat,
                                                     extra: DecoratedSignature)
    requires i <= |sigs|
    requires VerifyPass(v, sigs, i, cands, total, needed).done || forall s :: s in cands ==> !v.verifies(s.key, extra)
    ensures VerifyPass(v, sigs + [extra], i, cands, total, needed)
         == VerifyPass(v, sigs, i, cands, total, needed)
    decreases |sigs| - i
  {
    if i == |sigs| {
    } else {
      match FindIndex(v, cands, sigs[i])
      case None => PassIgnoresLaterSignature(v, sigs, i + 1, cands, total, needed, extra);
      case Some(at) =>
        var t := total + Cap(cands[at]);
        if t < needed { PassIgnoresLaterSignature(v, sigs, i + 1, RemoveAt(cands, at), t, needed, extra); }
    }
  }

  lemma {:induction false} NoCandidates(v: Verifier, sigs: seq<DecoratedSignature>, i: nat, total: nat, needed: nat)
    requires i <= |sigs|
    ensures VerifyPass(v, sigs, i, [], total, needed) == Check(false, total, [])
    decreases |sigs| - i
  {
    if i == |sigs| {
    } else {
      NoCandidates(v, sigs, i + 1, total, needed);
    }
  }

  lemma StageIgnores(v: Verifier, sigs: seq<DecoratedSignature>, signers: seq<Signer>, needed: nat, prior: Check,
                     kind: Kind,
                     extra: DecoratedSignature)
    requires AndThen(prior, v, sigs, signers, kind, needed).done
          || forall s :: s in signers && KindOf(s.key) == kind ==> !v.verifies(s.key, extra)
    ensures AndThen(prior, v, sigs + [extra], signers, kind, needed) == AndThen(prior, v, sigs, signers, kind, needed)
  {
    if !prior.done {
      var cands := Filter(OfKind(kind), signers);
      forall s | s in cands ensures s in signers && KindOf(s.key) == kind { assert OfKind(kind)(s); }
      PassIgnoresLaterSignature(v, sigs, 0, cands, prior.total, needed, extra);
    }
  }

  /** A satisfied check never looks at a signature that comes too late for it. */
  lemma CheckIgnoresLaterSignature(v: Verifier, sigs: seq<DecoratedSignature>, signers: seq<Signer>,
                                   needed: nat, extra: DecoratedSignature)
    requires Decide(v, sigs, signers, needed).done && ComesLate(v, sigs, signers, needed, extra)
    ensures Decide(v, sigs + [extra], signers, needed) == Decide(v, sigs, signers, needed)
  {
    StageIgnores(v, sigs, signers, needed, AfterPreAuthTx(v, signers, needed), KindHashX, extra);
    StageIgnores(v, sigs, signers, needed, AfterHashX(v, sigs, signers, needed), KindEd25519, extra);
    StageIgnores(v, sigs, signers, needed, AfterEd25519(v, sigs, signers, needed), KindSignedPayload, extra);
  }

  /** The signature verifies for a signer of this type that none of these does. */
  ghost predicate NewOfType(v: Verifier, sigs: seq<DecoratedSignature>, signers: seq<Signer>, kind: Kind,
                            extra: DecoratedSignature) {
    exists s :: s in signers && KindOf(s.key) == kind && v.verifies(s.key, extra) && !Matched(v, sigs, s)
  }

  /** It does so for some type tried before the one that satisfied the check. */
  ghost predicate BringsNew(v: Verifier, sigs: seq<DecoratedSignature>, signers: seq<Signer>, needed: nat,
                            extra: DecoratedSignature) {
    exists kind :: 0 < Rank(kind) < Rank(SatisfiedBy(v, sigs, signers, needed))
        && NewOfType(v, sigs, signers, kind, extra)
  }

  /** The pass that satisfied the check is the first one by whose end it is satisfied. */
  lemma SatisfiedByMeans(v: Verifier, sigs: seq<DecoratedSignature>, signers: seq<Signer>, needed: nat, kind: Kind)
    requires Decide(v, sigs, signers, needed).done && AtMostOneSigner(v, sigs, signers)
    ensures var last := SatisfiedBy(v, sigs, signers, needed);
            && SatisfiedSoFar(v, sigs, signers, needed, last, |sigs|)
            && (0 < Rank(kind) < Rank(last) ==> !SatisfiedSoFar(v, sigs, signers, needed, kind, |sigs|))
  {
    Stages(v, sigs, signers, needed);
    FirstStage(v, sigs, signers, needed);
  }

  /** A satisfied check counts a signature appended to its own iff that brings a new signer of an earlier type. */
  lemma AppendedCountedIff(v: Verifier, sigs: seq<DecoratedSignature>, signers: seq<Signer>, needed: nat,
                           extra: DecoratedSignature)
    requires Decide(v, sigs, signers, needed).done && AtMostOneSigner(v, sigs + [extra], signers)
    ensures CountedBy(v, sigs + [extra], signers, needed, |sigs|) <==> BringsNew(v, sigs, signers, needed, extra)
  {
    forall sig | sig in sigs ensures OneSigner(v, sig, signers) { assert sig in sigs + [extra]; }
    if BringsNew(v, sigs, signers, needed, extra) { NewIsCounted(v, sigs, signers, needed, extra); }
    if kind :| CountedAs(v, sigs + [extra], signers, needed, kind, |sigs|) {
      SatisfiedByMeans(v, sigs, signers, needed, kind);
      AppendedIsNew(v, sigs, signers, needed, extra, kind);
    }
  }

  lemma NewIsCounted(v: Verifier, sigs: seq<DecoratedSignature>, signers: seq<Signer>, needed: nat,
                     extra: DecoratedSignature)
    requires Decide(v, sigs, signers, needed).done && AtMostOneSigner(v, sigs, signers)
    requires BringsNew(v, sigs, signers, needed, extra)
    ensures CountedBy(v, sigs + [extra], signers, needed, |sigs|)
  {
    var kind :| 0 < Rank(kind) < Rank(SatisfiedBy(v, sigs, signers, needed))
        && NewOfType(v, sigs, signers, kind, extra);
    var first := if NewOfType(v, sigs, signers, KindHashX, extra) then KindHashX else kind;
    SatisfiedByMeans(v, sigs, signers, needed, first);
    AppendedCounted(v, sigs, signers, needed, extra, first);
  }

  /** By the pass over the first type it brings someone new of. */
  lemma AppendedCounted(v: Verifier, sigs: seq<DecoratedSignature>, signers: seq<Signer>, needed: nat,
                        extra: DecoratedSignature, kind: Kind)
    requires 0 < Rank(kind) && NewOfType(v, sigs, signers, kind, extra)
    requires !SatisfiedSoFar(v, sigs, signers, needed, kind, |sigs|)
    requires forall earlier :: 0 < Rank(earlier) < Rank(kind) ==> !NewOfType(v, sigs, signers, earlier, extra)
    ensures CountedBy(v, sigs + [extra], signers, needed, |sigs|)
  {
    var padded, n := sigs + [extra], |sigs|;
    assert padded[..n] == sigs && sigs[..n] == sigs;
    forall x | x in signers ensures MatchedSoFar(v, padded, kind, n, x) <==> MatchedSoFar(v, sigs, kind, n, x) {
      assert 0 < Rank(KindOf(x.key)) < Rank(kind) ==> !NewOfType(v, sigs, signers, KindOf(x.key), extra);
    }
    SumEqual(CapSoFar(v, padded, kind, n), CapSoFar(v, sigs, kind, n), signers);
    var s :| s in signers && KindOf(s.key) == kind && v.verifies(s.key, extra) && !Matched(v, sigs, s);
    assert FirstMatch(v, padded, 0, n, s);
    assert CountedAs(v, padded, signers, needed, kind, n);
  }

  lemma AppendedIsNew(v: Verifier, sigs: seq<DecoratedSignature>, signers: seq<Signer>, needed: nat,
                      extra: DecoratedSignature, kind: Kind)
    requires CountedAs(v, sigs + [extra], signers, needed, kind, |sigs|)
    requires var satisfied := SatisfiedBy(v, sigs, signers, needed);
             SatisfiedSoFar(v, sigs, signers, needed, satisfied, |sigs|)
    ensures BringsNew(v, sigs, signers, needed, extra)
  {
    var padded, n, last := sigs + [extra], |sigs|, SatisfiedBy(v, sigs, signers, needed);
    assert padded[..n] == sigs && sigs[..n] == sigs;
    var s :| s in signers && KindOf(s.key) == kind && FirstMatch(v, padded, 0, n, s);
    assert !Matched(v, sigs, s) by {
      forall j | 0 <= j < n ensures !v.verifies(s.key, sigs[j]) { assert padded[j] == sigs[j]; }
    }
    assert NewOfType(v, sigs, signers, kind, extra);
    if Rank(last) <= Rank(kind) { SatisfiedStays(v, sigs, signers, needed, extra, last, kind); }
  }

  /** A check satisfied by the end of one pass is satisfied in every later one, and by more signatures. */
  lemma SatisfiedStays(v: Verifier, sigs: seq<DecoratedSignature>, signers: seq<Signer>, needed: nat,
                       extra: DecoratedSignature, last: Kind, kind: Kind)
    requires SatisfiedSoFar(v, sigs, signers, needed, last, |sigs|) && Rank(last) <= Rank(kind)
    ensures SatisfiedSoFar(v, sigs + [extra], signers, needed, kind, |sigs|)
  {
    var padded, n := sigs + [extra], |sigs|;
    assert padded[..n] == sigs && sigs[..n] == sigs;
    forall x | x in signers && MatchedSoFar(v, sigs, last, n, x) ensures MatchedSoFar(v, padded, kind, n, x) {
      assert KindOf(x.key) != kind ==> Rank(KindOf(x.key)) != Rank(kind);
    }
    SumMonotone(CapSoFar(v, sigs, last, n), CapSoFar(v, padded, kind, n), signers);
  }

  /** Beside PRE_AUTH_TX signers, which need no signature, the list has signers of one type only. */
  ghost predicate OneSignatureType(signers: seq<Signer>) {
    forall s, t :: s in signers && t in signers && !s.key.PreAuthTx? && !t.key.PreAuthTx?
        ==> KindOf(s.key) == KindOf(t.key)
  }

  /** For such a list every signature comes too late once it is satisfied. */
  lemma OneTypeComesLate(v: Verifier, sigs: seq<DecoratedSignature>, signers: seq<Signer>, needed: nat,
                         extra: DecoratedSignature)
    requires OneSignatureType(signers) && Decide(v, sigs, signers, needed).done
    ensures ComesLate(v, sigs, signers, needed, extra)
  {
    var kind := SatisfiedBy(v, sigs, signers, needed);
    if kind != KindPreAuthTx {
      var cands := Filter(OfKind(kind), signers);
      var prior := match kind
        case KindHashX => AfterPreAuthTx(v, signers, needed)
        case KindEd25519 => AfterHashX(v, sigs, signers, needed)
        case _ => AfterEd25519(v, sigs, signers, needed);
      assert AndThen(prior, v, sigs, signers, kind, needed).done && !prior.done;
      if cands == [] { NoCandidates(v, sigs, 0, prior.total, needed); }
      assert cands[0] in signers && OfKind(kind)(cands[0]);
    }
  }

  // ---- the stateful checker ------------------------------------------------

  /** `used` after the signatures a check counted are marked in it. */
  ghost function Marked(used: seq<bool>, log: seq<Counted>): (r: seq<bool>)
    ensures |r| == |used|
  {
    seq(|used|, i requires 0 <= i < |used| => used[i] || Consumed(log, i))
  }

  lemma MarkedTwice(used: seq<bool>, a: seq<Counted>, b: seq<Counted>)
    ensures Marked(Marked(used, a), b) == Marked(used, a + b)
  {
    forall i | 0 <= i < |used|
      ensures Consumed(a, i) || Consumed(b, i) <==> Consumed(a + b, i)
    {
      if Consumed(a, i) { var m :| m in a && m.sig == Some(i); assert m in a + b; }
      if Consumed(b, i) { var m :| m in b && m.sig == Some(i); assert m in a + b; }
    }
  }

  /** Counting one more signature marks it. */
  lemma MarkedOne(used: seq<bool>, log: seq<Counted>, i: nat, s: Signer)
    requires i < |used|
    ensures Marked(used, log + [Counted(Some(i), s)]) == Marked(used, log)[i := true]
  {
    MarkedTwice(used, log, [Counted(Some(i), s)]);
    assert Counted(Some(i), s) in [Counted(Some(i), s)];
  }

  /** A pass that has counted `log` so far ends as `all` does if the rest of it ends so. */
  ghost predicate PassGoesOn(all: Check, v: Verifier, sigs: seq<DecoratedSignature>, i: nat, candidates: seq<Signer>,
                             total: nat, needed: nat, log: seq<Counted>)
    requires i <= |sigs|
  {
    var r := VerifyPass(v, sigs, i, candidates, total, needed);
    all == r.(log := log + r.log)
  }

  lemma PassStep(all: Check, v: Verifier, sigs: seq<DecoratedSignature>, i: nat, candidates: seq<Signer>,
                 total: nat, needed: nat, log: seq<Counted>)
    requires i < |sigs| && PassGoesOn(all, v, sigs, i, candidates, total, needed, log)
    ensures match FindIndex(v, candidates, sigs[i])
            case None => PassGoesOn(all, v, sigs, i + 1, candidates, total, needed, log)
            case Some(at) =>
              var t, log' := total + Cap(candidates[at]), log + [Counted(Some(i), candidates[at])];
              if t >= needed then all == Check(true, t, log')
              else PassGoesOn(all, v, sigs, i + 1, RemoveAt(candidates, at), t, needed, log')
  {
    match FindIndex(v, candidates, sigs[i])
    case None =>
    case Some(at) =>
      var m, t := Counted(Some(i), candidates[at]), total + Cap(candidates[at]);
      var rest := VerifyPass(v, sigs, i + 1, RemoveAt(candidates, at), t, needed);
      assert log + ([m] + rest.log) == (log + [m]) + rest.log;
  }

  lemma MarkedAndThen(used: seq<bool>, prior: Check, v: Verifier, sigs: seq<DecoratedSignature>,
                      signers: seq<Signer>, kind: Kind, needed: nat)
    requires !prior.done
    ensures Marked(Marked(used, prior.log),
                   VerifyPass(v, sigs, 0, Filter(OfKind(kind), signers), prior.total, needed).log)
         == Marked(used, AndThen(prior, v, sigs, signers, kind, needed).log)
  {
    MarkedTwice(used, prior.log, VerifyPass(v, sigs, 0, Filter(OfKind(kind), signers), prior.total, needed).log);
  }

  lemma MarkedByNone(used: seq<bool>, log: seq<Counted>)
    requires forall m :: m in log ==> m.sig.None?
    ensures Marked(used, log) == used
  {}

  class SignatureChecker {
    const v: Verifier
    const signatures: seq<DecoratedSignature>
    const used: array<bool>

    constructor (v: Verifier, signatures: seq<DecoratedSignature>)
      ensures this.v == v && this.signatures == signatures
      ensures fresh(used) && used.Length == |signatures| && forall i :: 0 <= i < used.Length ==> !used[i]
    {
      this.v, this.signatures := v, signatures;
      used := new bool[|signatures|](i => false);
    }

    /** One pass: the candidates shrink, and the signatures it counts are marked. */
    method VerifyAll(signers: seq<Signer>, before: nat, needed: nat) returns (done: bool, total: nat)
      requires used.Length == |signatures|
      modifies used
      ensures var r := VerifyPass(v, signatures, 0, signers, before, needed);
              done == r.done && total == r.total && used[..] == Marked(old(used[..]), r.log)
    {
      var candidates := signers;
      total := before;
      ghost var log: seq<Counted> := [];
      ghost var all := VerifyPass(v, signatures, 0, signers, before, needed);
      MarkedByNone(used[..], []);
      assert [] + all.log == all.log;
      for i := 0 to |signatures|
        invariant PassGoesOn(all, v, signatures, i, candidates, total, needed, log)
        invariant used[..] == Marked(old(used[..]), log)
      {
        var at := FindIndex(v, candidates, signatures[i]);
        PassStep(all, v, signatures, i, candidates, total, needed, log);
        if at.Some? {
          MarkedOne(old(used[..]), log, i, candidates[at.value]);
          used[i] := true;
          total := total + Min(candidates[at.value].weight, 255);
          log := log + [Counted(Some(i), candidates[at.value])];
          if total >= needed { return true, total; }
          candidates := RemoveAt(candidates, at.value);
        }
      }
      done := false;
    }

    method MatchPreAuth(candidates: seq<Signer>, needed: nat) returns (done: bool, total: nat)
      requires forall s :: s in candidates ==> s.key.PreAuthTx?
      ensures var r := PreAuthPass(v.hash, candidates, 0, needed); done == r.done && total == r.total
    {
      total := 0;
      ghost var all := PreAuthPass(v.hash, candidates, 0, needed);
      for k := 0 to |candidates|
        invariant all.done == PreAuthPass(v.hash, candidates[k..], total, needed).done
        invariant all.total == PreAuthPass(v.hash, candidates[k..], total, needed).total
      {
        if candidates[k].key.preAuthTx == v.hash {
          total := total + Min(candidates[k].weight, 255);
          if total >= needed { return true, total; }
        }
      }
      done := false;
    }

    method CheckSignature(signers: seq<Signer>, needed: nat) returns (ok: bool)
      requires used.Length == |signatures|
      modifies used
      ensures var r := Decide(v, signatures, signers, needed);
              ok == r.done && used[..] == Marked(old(used[..]), r.log)
    {
      var preAuth := Filter(OfKind(KindPreAuthTx), signers);
      ghost var start := used[..];
      ghost var p0, p1 := AfterPreAuthTx(v, signers, needed), AfterHashX(v, signatures, signers, needed);
      ghost var p2 := AfterEd25519(v, signatures, signers, needed);
      PreAuthSound(v, signatures, preAuth, 0, needed);
      MarkedByNone(start, p0.log);
      var total;
      ok, total := MatchPreAuth(preAuth, needed);
      if ok { return; }
      ok, total := VerifyAll(Filter(OfKind(KindHashX), signers), total, needed);
      MarkedAndThen(start, p0, v, signatures, signers, KindHashX, needed);
      if ok { return; }
      ok, total := VerifyAll(Filter(OfKind(KindEd25519), signers), total, needed);
      MarkedAndThen(start, p1, v, signatures, signers, KindEd25519, needed);
      if ok { return; }
      ok, total := VerifyAll(Filter(OfKind(KindSignedPayload), signers), total, needed);
      MarkedAndThen(start, p2, v, signatures, signers, KindSignedPayload, needed);
    }

    method CheckAllSignaturesUsed() returns (all: bool)
      ensures all <==> forall i :: 0 <= i < used.Length ==> used[i]
    {
      for i := 0 to used.Length
        invariant forall k :: 0 <= k < i ==> used[k]
      {
        if !used[i] { return false; }
      }
      all := true;
    }
  }

  // ---- the plain weight sum ------------------------------------------------

  /** The master key only when its weight is not zero, then every account signer. */
  function AccountSigners(a: Account): seq<Signer> {
    (if a.thresholds.master != 0 then [Signer(Ed25519(a.id), a.thresholds.master)] else []) + a.signers
  }

  /** signatureWeight's candidates: the master key whatever its weight, and the ed25519 signers. */
  function WeightCandidates(a: Account): seq<Signer> {
    [Signer(Ed25519(a.id), a.thresholds.master)] + Filter(OfKind(KindEd25519), a.signers)
  }

  ghost function Fresh(v: Verifier, sigs: seq<DecoratedSignature>, used: set<SignerKey>): Signer -> nat {
    (s: Signer) => if s.key !in used && Matched(v, sigs, s) then s.weight else 0
  }

  /** No two candidates share a key, and no signature verifies for two of them. */
  ghost predicate DistinctCandidates(v: Verifier, sigs: seq<DecoratedSignature>, cands: seq<Signer>) {
    && (forall j, k :: 0 <= j < k < |cands| ==> cands[j].key != cands[k].key)
    && AtMostOneCandidate(v, sigs, cands)
    && OnlyEd25519(cands)
  }

  /** The keypair library throws on a signature of the wrong length; the sum, unlike the check, does not catch that. */
  predicate Throws(key: SignerKey, sig: DecoratedSignature) {
    key.Ed25519? && HintMatches(key.key, sig.hint) && |sig.signature| != 64
  }

  /** No signature of the wrong length verifies. */
  ghost predicate LengthsVerified(v: Verifier, sigs: seq<DecoratedSignature>, cands: seq<Signer>) {
    forall s, sig :: s in cands && sig in sigs && v.verifies(s.key, sig) ==> |sig.signature| == 64
  }

  /** One signature verifies for nobody unused, or for the candidate there, or verifying it for that one throws. */
  datatype Found = Nobody | Found(at: nat) | Thrown(at: nat)

  /** The first candidate not used yet that the signature verifies for or throws at. */
  function FirstUnused(v: Verifier, cands: seq<Signer>, used: set<SignerKey>, sig: DecoratedSignature): (found: Found)
    ensures !found.Nobody? ==>
              && found.at < |cands| && cands[found.at].key !in used
              && forall j :: 0 <= j < found.at && cands[j].key !in used ==>
                   !v.verifies(cands[j].key, sig) && !Throws(cands[j].key, sig)
    ensures found.Found? ==> v.verifies(cands[found.at].key, sig)
    ensures found.Thrown? ==> Throws(cands[found.at].key, sig)
    ensures found.Nobody? ==>
              forall s :: s in cands && s.key !in used ==> !v.verifies(s.key, sig) && !Throws(s.key, sig)
  {
    if cands == [] then Nobody
    else if cands[0].key !in used && Throws(cands[0].key, sig) then Thrown(0)
    else if cands[0].key !in used && v.verifies(cands[0].key, sig) then Found(0)
    else Later(FirstUnused(v, cands[1..], used, sig), 1)
  }

  /** The same finding, that many candidates further on. */
  function Later(found: Found, k: nat): Found {
    match found
    case Nobody => Nobody
    case Found(at) => Found(at + k)
    case Thrown(at) => Thrown(at + k)
  }

  function AddTo(weight: Option<nat>, more: nat): Option<nat> {
    match weight
    case None => None
    case Some(w) => Some(w + more)
  }

  /** The weight the signatures from `i` on add when the keys in `used` already counted; none if one of them throws. */
  function WeightFrom(v: Verifier, sigs: seq<DecoratedSignature>, i: nat, cands: seq<Signer>, used: set<SignerKey>)
    : Option<nat>
    requires i <= |sigs|
    decreases |sigs| - i
  {
    if i == |sigs| then Some(0)
    else
      match FirstUnused(v, cands, used, sigs[i])
      case Nobody => WeightFrom(v, sigs, i + 1, cands, used)
      case Found(k) => AddTo(WeightFrom(v, sigs, i + 1, cands, used + {cands[k].key}), cands[k].weight)
      case Thrown(_) => None
  }

  /** A signature from `i` on throws at a candidate neither used nor matched by the signatures before it. */
  ghost predicate ThrowsFrom(v: Verifier, sigs: seq<DecoratedSignature>, i: nat, cands: seq<Signer>,
                             used: set<SignerKey>)
    requires i <= |sigs|
  {
    exists k | i <= k < |sigs| :: ThrowsAt(v, sigs, i, cands, used, k)
  }

  ghost predicate ThrowsAt(v: Verifier, sigs: seq<DecoratedSignature>, i: nat, cands: seq<Signer>,
                           used: set<SignerKey>, k: nat)
    requires i <= k < |sigs|
  {
    exists s :: s in cands && s.key !in used && Throws(s.key, sigs[k]) && !Matched(v, sigs[i..k], s)
  }

  /** Going on after a signature that throws at nobody unused. */
  lemma ThrowsAfter(v: Verifier, sigs: seq<DecoratedSignature>, i: nat, cands: seq<Signer>, used: set<SignerKey>,
                    used': set<SignerKey>)
    requires i < |sigs| && OnlyEd25519(cands)
    requires forall s :: s in cands && s.key !in used ==> !Throws(s.key, sigs[i])
    requires forall s :: s in cands ==> (s.key !in used' <==> s.key !in used && !v.verifies(s.key, sigs[i]))
    ensures ThrowsFrom(v, sigs, i, cands, used) <==> ThrowsFrom(v, sigs, i + 1, cands, used')
  {
    forall k | i < k < |sigs|
      ensures ThrowsAt(v, sigs, i, cands, used, k) <==> ThrowsAt(v, sigs, i + 1, cands, used', k)
    {
      assert sigs[i..k] == [sigs[i]] + sigs[i + 1..k];
      forall s | s in cands
        ensures Matched(v, sigs[i..k], s) <==> v.verifies(s.key, sigs[i]) || Matched(v, sigs[i + 1..k], s)
      {}
    }
    assert !ThrowsAt(v, sigs, i, cands, used, i);
    if ThrowsFrom(v, sigs, i, cands, used) {
      var k :| i <= k < |sigs| && ThrowsAt(v, sigs, i, cands, used, k);
      assert ThrowsAt(v, sigs, i + 1, cands, used', k);
    }
    if ThrowsFrom(v, sigs, i + 1, cands, used') {
      var k :| i + 1 <= k < |sigs| && ThrowsAt(v, sigs, i + 1, cands, used', k);
      assert ThrowsAt(v, sigs, i, cands, used, k);
    }
  }

  lemma FreshAfter(v: Verifier, sigs: seq<DecoratedSignature>, i: nat, cands: seq<Signer>,
                   used: set<SignerKey>, at: nat)
    requires i < |sigs| && at < |cands| && DistinctCandidates(v, sigs, cands)
    requires cands[at].key !in used && v.verifies(cands[at].key, sigs[i])
    ensures Sum(Fresh(v, sigs[i..], used), cands)
         == cands[at].weight + Sum(Fresh(v, sigs[i + 1..], used + {cands[at].key}), cands)
  {
    var f, g := Fresh(v, sigs[i..], used), Fresh(v, sigs[i + 1..], used + {cands[at].key});
    SumRemoveAt(f, cands, at);
    SumRemoveAt(g, cands, at);
    OthersUnmatched(v, sigs, sigs[i], cands, at);
    OtherKeys(cands, at);
    forall s | s in RemoveAt(cands, at) ensures f(s) == g(s) {
      FreshUnchanged(v, sigs, i, used, cands[at].key, s);
    }
    SumEqual(f, g, RemoveAt(cands, at));
    assert sigs[i..][0] == sigs[i];
    assert f(cands[at]) == cands[at].weight && g(cands[at]) == 0;
  }

  lemma FreshUnchanged(v: Verifier, sigs: seq<DecoratedSignature>, i: nat, used: set<SignerKey>, key: SignerKey,
                       s: Signer)
    requires i < |sigs| && s.key.Ed25519? && s.key != key && !v.verifies(s.key, sigs[i])
    ensures Fresh(v, sigs[i..], used)(s) == Fresh(v, sigs[i + 1..], used + {key})(s)
  {
    assert sigs[i..] == [sigs[i]] + sigs[i + 1..];
  }

  lemma OtherKeys(cands: seq<Signer>, at: nat)
    requires at < |cands| && forall j, k :: 0 <= j < k < |cands| ==> cands[j].key != cands[k].key
    ensures forall s :: s in RemoveAt(cands, at) ==> s.key != cands[at].key
  {}

  lemma FreshSkip(v: Verifier, sigs: seq<DecoratedSignature>, i: nat, cands: seq<Signer>, used: set<SignerKey>)
    requires i < |sigs| && forall s :: s in cands && s.key !in used ==> !v.verifies(s.key, sigs[i])
    ensures Sum(Fresh(v, sigs[i..], used), cands) == Sum(Fresh(v, sigs[i + 1..], used), cands)
  {
    assert sigs[i..] == [sigs[i]] + sigs[i + 1..];
    SumEqual(Fresh(v, sigs[i..], used), Fresh(v, sigs[i + 1..], used), cands);
  }

  method FindUnused(v: Verifier, cands: seq<Signer>, used: set<SignerKey>, sig: DecoratedSignature)
    returns (found: Found)
    ensures found == FirstUnused(v, cands, used, sig)
  {
    ghost var first := FirstUnused(v, cands, used, sig);
    for k := 0 to |cands|
      invariant first == Later(FirstUnused(v, cands[k..], used, sig), k)
    {
      if cands[k].key !in used {
        if Throws(cands[k].key, sig) { return Thrown(k); }
        if v.verifies(cands[k].key, sig) { return Found(k); }
      }
    }
    found := Nobody;
  }

  method SignatureWeight(v: Verifier, a: Account, sigs: seq<DecoratedSignature>) returns (weight: Option<nat>)
    ensures weight == WeightFrom(v, sigs, 0, WeightCandidates(a), {})
  {
    var cands := WeightCandidates(a);
    var total: nat := 0;
    var used: set<SignerKey> := {};
    for i := 0 to |sigs|
      invariant WeightFrom(v, sigs, 0, cands, {}) == AddTo(WeightFrom(v, sigs, i, cands, used), total)
    {
      var found := FindUnused(v, cands, used, sigs[i]);
      match found {
        case Nobody =>
        case Thrown(_) => return None;
        case Found(at) =>
          used := used + {cands[at].key};
          total := total + cands[at].weight;
      }
    }
    weight := Some(total);
  }

  /** A signature that verifies for one candidate does so for no other, and throws at none. */
  lemma FoundAlone(v: Verifier, sigs: seq<DecoratedSignature>, i: nat, cands: seq<Signer>, used: set<SignerKey>,
                   at: nat)
    requires i < |sigs| && DistinctCandidates(v, sigs, cands) && LengthsVerified(v, sigs, cands)
    requires at < |cands| && v.verifies(cands[at].key, sigs[i])
    ensures forall s :: s in cands ==>
              && !Throws(s.key, sigs[i])
              && (s.key !in used + {cands[at].key} <==> s.key !in used && !v.verifies(s.key, sigs[i]))
  {
    assert sigs[i] in sigs && |sigs[i].signature| == 64;
    OthersUnmatched(v, sigs, sigs[i], cands, at);
    OtherKeys(cands, at);
    forall s | s in cands ensures s == cands[at] || s in RemoveAt(cands, at) {
      var k :| 0 <= k < |cands| && cands[k] == s;
      if k != at { assert RemoveAt(cands, at)[if k < at then k else k - 1] == s; }
    }
  }

  lemma AfterFound(v: Verifier, sigs: seq<DecoratedSignature>, i: nat, cands: seq<Signer>, used: set<SignerKey>,
                   at: nat)
    requires i < |sigs| && DistinctCandidates(v, sigs, cands) && LengthsVerified(v, sigs, cands)
    requires at < |cands| && cands[at].key !in used && v.verifies(cands[at].key, sigs[i])
    ensures var used' := used + {cands[at].key};
            && (ThrowsFrom(v, sigs, i, cands, used) <==> ThrowsFrom(v, sigs, i + 1, cands, used'))
            && Sum(Fresh(v, sigs[i..], used), cands)
               == cands[at].weight + Sum(Fresh(v, sigs[i + 1..], used'), cands)
  {
    FoundAlone(v, sigs, i, cands, used, at);
    ThrowsAfter(v, sigs, i, cands, used, used + {cands[at].key});
    FreshAfter(v, sigs, i, cands, used, at);
  }

  lemma AfterNobody(v: Verifier, sigs: seq<DecoratedSignature>, i: nat, cands: seq<Signer>, used: set<SignerKey>)
    requires i < |sigs| && DistinctCandidates(v, sigs, cands)
    requires forall s :: s in cands && s.key !in used ==> !v.verifies(s.key, sigs[i]) && !Throws(s.key, sigs[i])
    ensures ThrowsFrom(v, sigs, i, cands, used) <==> ThrowsFrom(v, sigs, i + 1, cands, used)
    ensures Sum(Fresh(v, sigs[i..], used), cands) == Sum(Fresh(v, sigs[i + 1..], used), cands)
  {
    ThrowsAfter(v, sigs, i, cands, used, used);
    FreshSkip(v, sigs, i, cands, used);
  }

  /** Nothing if a signature from `i` on throws, or else the weight of everyone unused that one verifies for. */
  ghost function WeightMeant(v: Verifier, sigs: seq<DecoratedSignature>, i: nat, cands: seq<Signer>,
                             used: set<SignerKey>): Option<nat>
    requires i <= |sigs|
  {
    if ThrowsFrom(v, sigs, i, cands, used) then None else Some(Sum(Fresh(v, sigs[i..], used), cands))
  }

  lemma MeantAtEnd(v: Verifier, sigs: seq<DecoratedSignature>, cands: seq<Signer>, used: set<SignerKey>)
    requires OnlyEd25519(cands)
    ensures WeightMeant(v, sigs, |sigs|, cands, used) == Some(0)
  {
    SumEqual(Fresh(v, sigs[|sigs|..], used), Nothing(), cands);
    SumNothing(cands);
  }

  lemma MeantAfterFound(v: Verifier, sigs: seq<DecoratedSignature>, i: nat, cands: seq<Signer>, used: set<SignerKey>,
                        at: nat)
    requires i < |sigs| && DistinctCandidates(v, sigs, cands) && LengthsVerified(v, sigs, cands)
    requires at < |cands| && cands[at].key !in used && v.verifies(cands[at].key, sigs[i])
    ensures WeightMeant(v, sigs, i, cands, used)
         == AddTo(WeightMeant(v, sigs, i + 1, cands, used + {cands[at].key}), cands[at].weight)
  {
    AfterFound(v, sigs, i, cands, used, at);
  }

  lemma MeantAfterNobody(v: Verifier, sigs: seq<DecoratedSignature>, i: nat, cands: seq<Signer>,
                         used: set<SignerKey>)
    requires i < |sigs| && DistinctCandidates(v, sigs, cands)
    requires forall s :: s in cands && s.key !in used ==> !v.verifies(s.key, sigs[i]) && !Throws(s.key, sigs[i])
    ensures WeightMeant(v, sigs, i, cands, used) == WeightMeant(v, sigs, i + 1, cands, used)
  {
    AfterNobody(v, sigs, i, cands, used);
  }

  lemma MeantThrown(v: Verifier, sigs: seq<DecoratedSignature>, i: nat, cands: seq<Signer>, used: set<SignerKey>,
                    at: nat)
    requires i < |sigs| && at < |cands| && cands[at].key !in used && Throws(cands[at].key, sigs[i])
    ensures WeightMeant(v, sigs, i, cands, used).None?
  {
    assert sigs[i..i] == [] && cands[at] in cands;
    assert ThrowsAt(v, sigs, i, cands, used, i);
  }

  /** With distinct candidates, that is the weight of everyone a signature verifies for, unless one throws. */
  lemma {:induction false} WeightMeaning(v: Verifier, sigs: seq<DecoratedSignature>, i: nat,
                                         cands: seq<Signer>, used: set<SignerKey>)
    requires i <= |sigs| && DistinctCandidates(v, sigs, cands) && LengthsVerified(v, sigs, cands)
    ensures WeightFrom(v, sigs, i, cands, used) == WeightMeant(v, sigs, i, cands, used)
    decreases |sigs| - i
  {
    if i == |sigs| {
      MeantAtEnd(v, sigs, cands, used);
    } else {
      match FirstUnused(v, cands, used, sigs[i])
      case Nobody =>
        WeightMeaning(v, sigs, i + 1, cands, used);
        MeantAfterNobody(v, sigs, i, cands, used);
      case Found(at) =>
        WeightMeaning(v, sigs, i + 1, cands, used + {cands[at].key});
        MeantAfterFound(v, sigs, i, cands, used, at);
      case Thrown(at) => MeantThrown(v, sigs, i, cands, used, at);
    }
  }

  function Nothing(): Signer -> nat { (s: Signer) => 0 }

  lemma {:induction false} SumNothing(s: seq<Signer>)
    ensures Sum(Nothing(), s) == 0
  {
    if s == [] {
    } else {
      SumNothing(s[1..]);
    }
  }

  /**
   * The two agree for an ed25519-only account and a needed weight of 1 to 255,
   * though one caps weights, drops a weight-0 master key and stops early; unless
   * the sum throws, which it does iff a signature of the wrong length carries the
   * hint of a candidate that no signature before it verifies for.
   */
  lemma CheckRefinesWeight(v: Verifier, sigs: seq<DecoratedSignature>, a: Account, needed: nat)
    requires OnlyEd25519(a.signers) && DistinctCandidates(v, sigs, WeightCandidates(a))
    requires LengthsVerified(v, sigs, WeightCandidates(a)) && 1 <= needed <= 255
    ensures var weight := WeightFrom(v, sigs, 0, WeightCandidates(a), {});
            && (weight.None? <==> ThrowsFrom(v, sigs, 0, WeightCandidates(a), {}))
            && (weight.Some? ==> (Decide(v, sigs, AccountSigners(a), needed).done <==> weight.value >= needed))
  {
    var all, signers := WeightCandidates(a), AccountSigners(a);
    WeightMeaning(v, sigs, 0, all, {});
    assert sigs[0..] == sigs;
    SignersOfAccount(v, sigs, a);
    SignersAtMostOne(v, sigs, signers);
    CheckMeaning(v, sigs, signers, needed);
    if !AnyMatched(v, sigs, signers) { NothingMatched(v, sigs, signers); }
    CapReaches(v, sigs, signers, needed);
  }

  /** The two candidate lists differ at most by a master key of weight 0. */
  lemma SignersOfAccount(v: Verifier, sigs: seq<DecoratedSignature>, a: Account)
    requires OnlyEd25519(a.signers) && DistinctCandidates(v, sigs, WeightCandidates(a))
    ensures DistinctCandidates(v, sigs, AccountSigners(a))
    ensures Sum(Fresh(v, sigs, {}), WeightCandidates(a)) == Sum(Fresh(v, sigs, {}), AccountSigners(a))
  {
    AllCandidates(a);
    var all := WeightCandidates(a);
    if a.thresholds.master == 0 {
      assert Fresh(v, sigs, {})(all[0]) == 0;
      DropFirst(v, sigs, all);
    }
  }

  lemma AllCandidates(a: Account)
    requires OnlyEd25519(a.signers)
    ensures AccountSigners(a) == if a.thresholds.master == 0 then WeightCandidates(a)[1..] else WeightCandidates(a)
  {
    FilterAll(a.signers);
  }

  lemma DropFirst(v: Verifier, sigs: seq<DecoratedSignature>, cands: seq<Signer>)
    requires cands != [] && DistinctCandidates(v, sigs, cands)
    ensures DistinctCandidates(v, sigs, cands[1..])
  {
    assert forall k :: 0 <= k < |cands[1..]| ==> cands[1..][k] == cands[k + 1];
    forall sig | sig in sigs ensures OneCandidate(v, sig, cands[1..]) { assert OneCandidate(v, sig, cands); }
  }

  lemma {:induction false} FilterAll(s: seq<Signer>)
    requires OnlyEd25519(s)
    ensures Filter(OfKind(KindEd25519), s) == s
  {
    if s == [] {
    } else {
      FilterAll(s[1..]);
    }
  }

  lemma SignersAtMostOne(v: Verifier, sigs: seq<DecoratedSignature>, signers: seq<Signer>)
    requires DistinctCandidates(v, sigs, signers)
    ensures AtMostOneSigner(v, sigs, signers)
  {
    forall s | s in signers ensures multiset(signers)[s] == 1 {
      var k :| 0 <= k < |signers| && signers[k] == s;
      OnceInMultiset(signers, k);
    }
  }

  lemma OnceInMultiset<T>(s: seq<T>, k: nat)
    requires k < |s| && forall j :: 0 <= j < |s| && j != k ==> s[j] != s[k]
    ensures multiset(s)[s[k]] == 1
  {
    assert s == s[..k] + ([s[k]] + s[k + 1..]);
    assert s[k] !in s[..k] && s[k] !in s[k + 1..];
  }

  /** Capping at 255 does not matter to a needed weight of at most 255. */
  lemma CapReaches(v: Verifier, sigs: seq<DecoratedSignature>, signers: seq<Signer>, needed: nat)
    requires needed <= 255 && OnlyEd25519(signers)
    ensures Sum(MatchedCap(v, sigs), signers) >= needed <==> Sum(Fresh(v, sigs, {}), signers) >= needed
  {
    var cap, weight := MatchedCap(v, sigs), Fresh(v, sigs, {});
    SumMonotone(cap, weight, signers);
    if s :| s in signers && cap(s) != weight(s) {
      SumMember(cap, signers, s);
    } else {
      SumEqual(cap, weight, signers);
    }
  }
}
