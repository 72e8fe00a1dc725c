/**
 * Fee arithmetic: what a submission is charged (src/classic.ts), and what the
 * preflight quotes for it (crates/host-wasm/src/fees.rs).
 */
module Fees {
  import opened Sequences
  import opened Xdr
  import opened Host

  const BASE_FEE := 100
  const MAX_RESOURCE_FEE: int := 0x4_0000_0000_0000   // 2^50
  const I64_MAX: int := 0x7FFF_FFFF_FFFF_FFFF

  // ---- inclusion fees --------------------------------------------------------

  /** baseFee * max(1, operations). */
  function MinInclusion(operations: nat): (r: nat)
    ensures r >= BASE_FEE
  {
    BASE_FEE * Max(1, operations)
  }

  function DeclaredResourceFee(tx: Transaction): int {
    if tx.ext.Some? then tx.ext.value.resourceFee else 0
  }

  predicate NegativeInclusionFee(fullFee: int, resourceFee: int) {
    fullFee < 0 || fullFee - resourceFee < 0
  }

  /** getFee(applying = true): the resource fee and the capped inclusion fee. */
  function FeeToCharge(fullFee: int, resourceFee: int, operations: nat): int {
    resourceFee + Min(fullFee - resourceFee, MinInclusion(operations))
  }

  /** getFee(applying = false), what a rejected envelope reports. */
  function NominalFee(tx: Transaction, isBump: bool): int {
    DeclaredResourceFee(tx) + MinInclusion(|tx.operations| + if isBump then 1 else 0)
  }

  // ---- the fee bump's rate comparison ----------------------------------------

  /** outerInclusion * minInclusion(inner) >= innerInclusion * minInclusion(outer), unless the inner is negative. */
  predicate RaisesRate(inclusion: int, innerInclusion: int, innerOps: nat) {
    innerInclusion >= 0 ==>
      inclusion * MinInclusion(innerOps) >= innerInclusion * MinInclusion(innerOps + 1)
  }

  /** The inclusion fee reported when the rate is too low: the quotient rounded up. */
  function NeededInclusion(innerInclusion: nat, innerOps: nat): int {
    (innerInclusion * MinInclusion(innerOps + 1) + MinInclusion(innerOps) - 1) / MinInclusion(innerOps)
  }

  lemma CeilingDivision(x: int, v: nat, m: nat)
    requires m > 0
    ensures x * m >= v <==> x >= (v + m - 1) / m
  {
    var q := (v + m - 1) / m;
    assert q * m <= v + m - 1 < q * m + m;
    if x >= q {
      assert x * m >= q * m;
    } else {
      assert x * m <= (q - 1) * m == q * m - m;
    }
  }

  /** The reported fee is the least that works, for the rate and for the minimum inclusion fee. */
  lemma ReportedFeeIsLeast(inclusion: int, innerInclusion: nat, innerOps: nat, other: int)
    requires inclusion >= MinInclusion(innerOps + 1) && !RaisesRate(inclusion, innerInclusion, innerOps)
    ensures var needed := NeededInclusion(innerInclusion, innerOps);
            && (RaisesRate(other, innerInclusion, innerOps) <==> other >= needed)
            && needed >= MinInclusion(innerOps + 1)
            && RaisesRate(needed, innerInclusion, innerOps)
  {
    var m, v := MinInclusion(innerOps), innerInclusion * MinInclusion(innerOps + 1);
    CeilingDivision(other, v, m);
    CeilingDivision(inclusion, v, m);
    CeilingDivision(NeededInclusion(innerInclusion, innerOps), v, m);
  }

  // ---- resource fees ---------------------------------------------------------

  /** getNumDiskReadEntries: a chain over both lists, classic keys only, and the archived indexes. */
  function NumDiskReadEntries(data: SorobanData, isRestore: bool): nat {
    if isRestore then |data.resources.readWrite|
    else ClassicKeys(data.resources) + |ArchivedIndexes(data)|
  }

  function ClassicKey(): LedgerKey -> bool { (k: LedgerKey) => !IsTtlKey(k) }

  function ClassicKeys(r: Resources): nat {
    |Filter(ClassicKey(), r.readOnly)| + |Filter(ClassicKey(), r.readWrite)|
  }

  /** computeSorobanResourceFee of the declared resources. */
  function ComputeResourceFee(o: Oracles, s: FeeSettings, data: SorobanData, txSize: nat, eventsSize: u32,
                              isRestore: bool): ResourceFee
  {
    var r := data.resources;
    o.resourceFee(s, TransactionResources(r.instructions, NumDiskReadEntries(data, isRestore), |r.readWrite|,
                                          r.diskReadBytes, r.writeBytes, eventsSize, Wrap32(txSize)))
  }

  function EventsFee(o: Oracles, s: FeeSettings, eventsSize: u32): int {
    o.resourceFee(s, TransactionResources(0, 0, 0, 0, 0, eventsSize, 0)).refundable
  }

  // ---- the preflight quote -----------------------------------------------------

  function SatAdd64(a: int, b: int): int { Max(-I64_MAX - 1, Min(a + b, I64_MAX)) }

  function AdjustU32(value: u32, factor: real, additive: u32): u32 {
    if value == 0 then 0
    else Max(SatAdd32(value, additive), Max(0, Min((value as real * factor).Floor, U32_MAX)))
  }

  function AdjustI64(value: int, factor: real): int {
    if value == 0 then 0 else Max(SatAdd64(value, 0), Max(0, Min((value as real * factor).Floor, I64_MAX)))
  }

  /** adjust_instructions, in whole numbers: 4% more or the additive, whichever is larger; nothing for nothing. */
  function AdjustInstructions(raw: u32, leeway: u32): (r: u32)
    ensures raw <= r
    ensures raw == 0 ==> r == 0
    ensures raw > 0 ==> r == Max(Min(raw + Max(50_000, leeway), U32_MAX), Min(raw * 104 / 100, U32_MAX))
  {
    if raw == 0 then 0
    else Max(SatAdd32(raw, Max(50_000, leeway)), Max(0, Min((raw as real * 1.04).Floor, U32_MAX)))
  }

  const ZEROS32: Bytes32 := seq(32, i => 0)

  /** One operation with every optional part of its transaction present and as long as XDR allows. */
  function LargestTransaction(body: OperationBody, r: Resources, restored: seq<u32>): Transaction {
    var source := MuxedId(ZEROS32, 0);
    var extra := SignedPayload(ZEROS32, seq(64, i => 0));
    Transaction(
      source, 0, 0,
      PrecondV2(PreconditionsV2(Some(TimeBounds(0, 0)), Some(LedgerBounds(0, 0)), Some(0), 0, 0, [extra, extra])),
      MemoHash(ZEROS32),
      [Operation(Some(source), body)],
      Some(SorobanData(Resources(r.readOnly, r.readWrite, 0, 0, 0), 0, Some(restored))))
  }

  function TwentySignatures(): seq<DecoratedSignature> {
    seq(20, i => DecoratedSignature(seq(4, j => 0), seq(64, j => 0)))
  }

  function EstimateMaxTransactionSize(body: OperationBody, r: Resources, restored: seq<u32>): nat {
    V1Size(LargestTransaction(body, r, restored), TwentySignatures())
  }

  /** preflight_resource_fee, or None when the estimate does not fit a u32. */
  function PreflightResourceFee(o: Oracles, s: FeeSettings, body: OperationBody, r: Resources, restored: seq<u32>,
                                eventsSize: u32, rentChanges: seq<RentChange>, ledgerSeq: u32): Option<int>
  {
    var size := EstimateMaxTransactionSize(body, r, restored);
    if size > U32_MAX then None
    else
      var fee := QuotedFee(o, s, r, restored, eventsSize, size);
      var rent := o.rentFee(s, rentChanges, ledgerSeq);
      Some(SatAdd64(fee.nonRefundable, AdjustI64(SatAdd64(fee.refundable, rent), 1.15)))
  }

  function QuotedFee(o: Oracles, s: FeeSettings, r: Resources, restored: seq<u32>, eventsSize: u32,
                     size: u32): ResourceFee
  {
    o.resourceFee(s, TransactionResources(r.instructions, ClassicKeys(r) + |restored|, |r.readWrite|,
                                          r.diskReadBytes, r.writeBytes, eventsSize, AdjustU32(size, 1.1, 500)))
  }

  lemma SizePadded(size: u32)
    requires size > 0
    ensures AdjustU32(size, 1.1, 500) == Min(Max(size + 500, size * 110 / 100), U32_MAX)
  {}

  lemma RefundablePadded(x: int)
    requires 0 <= x <= I64_MAX
    ensures AdjustI64(x, 1.15) == Min(x * 115 / 100, I64_MAX)
  {}

  lemma QuoteSum(nonRefundable: nat, refundable: nat, rent: nat)
    ensures SatAdd64(nonRefundable, AdjustI64(SatAdd64(refundable, rent), 1.15))
         == Min(nonRefundable + Min(Min(refundable + rent, I64_MAX) * 115 / 100, I64_MAX), I64_MAX)
  {
    RefundablePadded(Min(refundable + rent, I64_MAX));
  }

  /** What a quote is priced on: the envelope 10% or 500 bytes larger than estimated, whichever is more. */
  function QuotedResources(r: Resources, restored: seq<u32>, eventsSize: u32, size: u32): TransactionResources {
    TransactionResources(r.instructions, |Filter(ClassicKey(), r.readOnly)| + |Filter(ClassicKey(), r.readWrite)|
                                         + |restored|, |r.readWrite|, r.diskReadBytes, r.writeBytes, eventsSize,
                         Min(Max(size + 500, size * 110 / 100), U32_MAX))
  }

  lemma QuotedFeeIs(o: Oracles, s: FeeSettings, r: Resources, restored: seq<u32>, eventsSize: u32, size: u32)
    requires size > 0
    ensures QuotedFee(o, s, r, restored, eventsSize, size)
         == o.resourceFee(s, QuotedResources(r, restored, eventsSize, size))
  {
    SizePadded(size);
  }

  /** The quote in whole numbers: the non-refundable fee, and 115% of the events fee and the rent, rounded down. */
  lemma QuoteIs(o: Oracles, s: FeeSettings, body: OperationBody, r: Resources, restored: seq<u32>, eventsSize: u32,
                rentChanges: seq<RentChange>, ledgerSeq: u32)
    requires FeeAssumptions(o) && EstimateMaxTransactionSize(body, r, restored) <= U32_MAX
    ensures var size := EstimateMaxTransactionSize(body, r, restored);
            var fee := o.resourceFee(s, QuotedResources(r, restored, eventsSize, size));
            var consumed := Min(fee.refundable + o.rentFee(s, rentChanges, ledgerSeq), I64_MAX);
            PreflightResourceFee(o, s, body, r, restored, eventsSize, rentChanges, ledgerSeq)
            == Some(Min(fee.nonRefundable + Min(consumed * 115 / 100, I64_MAX), I64_MAX))
  {
    var size := EstimateMaxTransactionSize(body, r, restored);
    EstimateIs(body, r, restored);
    QuotedFeeIs(o, s, r, restored, eventsSize, size);
    var fee := QuotedFee(o, s, r, restored, eventsSize, size);
    QuoteSum(fee.nonRefundable, fee.refundable, o.rentFee(s, rentChanges, ledgerSeq));
  }

  /** There is no quote exactly when the estimated envelope does not fit a u32. */
  lemma QuoteNeedsU32(o: Oracles, s: FeeSettings, body: OperationBody, r: Resources, restored: seq<u32>,
                      eventsSize: u32, rentChanges: seq<RentChange>, ledgerSeq: u32)
    ensures PreflightResourceFee(o, s, body, r, restored, eventsSize, rentChanges, ledgerSeq).None?
       <==> ENVELOPE_OVERHEAD + BodySize(body) + 4 * |restored| + FootprintSize(r) > U32_MAX
  {
    EstimateIs(body, r, restored);
  }

  lemma {:induction false} SumBounded<T>(f: T -> nat, s: seq<T>, bound: nat)
    requires forall x :: x in s ==> f(x) <= bound
    ensures Sum(f, s) <= |s| * bound
  {
    if s == [] {
    } else {
      SumBounded(f, s[1..], bound);
      assert |s| * bound == |s[1..]| * bound + bound;
    }
  }

  lemma {:induction false} SumConstant<T>(f: T -> nat, s: seq<T>, c: nat)
    requires forall x :: x in s ==> f(x) == c
    ensures Sum(f, s) == |s| * c
  {
    if s == [] {
    } else {
      SumConstant(f, s[1..], c);
      assert |s| * c == |s[1..]| * c + c;
    }
  }

  /** What an operation's envelope adds to its body, footprint and archived indexes, at most. */
  const ENVELOPE_OVERHEAD: nat := 44 + 12 + 272 + 36 + 4 + 48 + 4 + 8 + 20 + 4 + 20 * 72

  lemma PreconditionsFit(c: Preconditions)
    requires c.PrecondV2? ==> |c.v2.extraSigners| <= 2 && forall k :: k in c.v2.extraSigners ==> SignerKeySize(k) <= 104
    ensures PreconditionsSize(c) <= 272
  {
    if c.PrecondV2? { SumBounded(SignerKeySizes(), c.v2.extraSigners, 104); }
  }

  lemma OneOperation(op: Operation)
    ensures Sum(OperationSizes(), [op]) == OperationSize(op)
  {
    assert [op][1..] == [];
  }

  lemma LargestPreconditions(c: Preconditions)
    requires c.PrecondV2? && |c.v2.extraSigners| == 2 && forall k :: k in c.v2.extraSigners ==> SignerKeySize(k) == 104
    requires c.v2.timeBounds.Some? && c.v2.ledgerBounds.Some? && c.v2.minSeqNum.Some?
    ensures PreconditionsSize(c) == 272
  {
    SumConstant(SignerKeySizes(), c.v2.extraSigners, 104);
  }

  lemma EstimateIs(body: OperationBody, r: Resources, restored: seq<u32>)
    ensures EstimateMaxTransactionSize(body, r, restored)
         == ENVELOPE_OVERHEAD + BodySize(body) + 4 * |restored| + FootprintSize(r)
  {
    var tx := LargestTransaction(body, r, restored);
    OneOperation(tx.operations[0]);
    LargestPreconditions(tx.cond);
    SumConstant(SignatureSizes(), TwentySignatures(), 72);
  }

  /** The largest envelope is the four bytes of its type word larger than the estimate. */
  lemma EstimateMissesTypeWord(body: OperationBody, r: Resources, restored: seq<u32>)
    ensures var (tx, signatures) := (LargestTransaction(body, r, restored), TwentySignatures());
            && WithinXdrLimits(tx, signatures)
            && EnvelopeV1Size(tx, signatures) == EstimateMaxTransactionSize(body, r, restored) + 4
  {}

  lemma SignaturesFit(signatures: seq<DecoratedSignature>)
    requires |signatures| <= 20 && forall s :: s in signatures ==> |s.signature| <= 64
    ensures Sum(SignatureSizes(), signatures) <= 20 * 72
  {
    SumBounded(SignatureSizes(), signatures, 72);
  }

  lemma SorobanDataFits(data: SorobanData, restored: seq<u32>)
    requires |ArchivedIndexes(data)| <= |restored|
    ensures SorobanDataSize(data) <= 8 + 4 * |restored| + FootprintSize(data.resources) + 20
  {}

  lemma MemoFits(m: Memo)
    requires m.MemoText? ==> |m.text| <= 28
    ensures MemoSize(m) <= 36
  {}

  /**
   * The estimate, less its envelope type word, bounds every v1 envelope of one
   * operation with this body and footprint and no more archived indexes.
   */
  lemma EstimateBoundsEnvelope(tx: Transaction, signatures: seq<DecoratedSignature>, op: Operation, data: SorobanData,
                               restored: seq<u32>)
    requires tx.operations == [op] && tx.ext == Some(data) && WithinXdrLimits(tx, signatures)
    requires |ArchivedIndexes(data)| <= |restored|
    ensures EnvelopeV1Size(tx, signatures) <= EstimateMaxTransactionSize(op.body, data.resources, restored) + 4
  {
    EstimateIs(op.body, data.resources, restored);
    OneOperation(op);
    PreconditionsFit(tx.cond);
    MemoFits(tx.memo);
    SignaturesFit(signatures);
    SorobanDataFits(data, restored);
  }

  /** A quote within the network's bound has not saturated, and pads nothing away. */
  lemma QuotedAtLeast(nonRefundable: nat, refundable: nat, rent: nat, quote: int)
    requires quote == SatAdd64(nonRefundable, AdjustI64(SatAdd64(refundable, rent), 1.15)) <= MAX_RESOURCE_FEE
    ensures quote >= nonRefundable + refundable + rent
  {}

  /** The resources a submission is priced on are no more than the quoted ones. */
  lemma QuotedResourcesCover(o: Oracles, s: FeeSettings, data: SorobanData, restored: seq<u32>,
                             eventsSize: u32, txSize: u32, size: u32)
    requires FeeAssumptions(o) && |ArchivedIndexes(data)| <= |restored| && txSize <= size + 4 && size > 0
    ensures var quoted := QuotedFee(o, s, data.resources, restored, eventsSize, size);
            var fee := ComputeResourceFee(o, s, data, txSize, 0, false);
            && 0 <= fee.nonRefundable <= quoted.nonRefundable
            && 0 <= fee.refundable <= quoted.refundable == EventsFee(o, s, eventsSize)
  {
    var r := data.resources;
    var declared := TransactionResources(r.instructions, NumDiskReadEntries(data, false), |r.readWrite|,
                                         r.diskReadBytes, r.writeBytes, 0, Wrap32(txSize));
    var quoted := TransactionResources(r.instructions, ClassicKeys(r) + |restored|, |r.readWrite|,
                                       r.diskReadBytes, r.writeBytes, eventsSize, AdjustU32(size, 1.1, 500));
    assert txSize <= AdjustU32(size, 1.1, 500);
    assert NoMoreThan(declared, quoted);
    assert quoted.eventsSize == TransactionResources(0, 0, 0, 0, 0, eventsSize, 0).eventsSize;
  }

  /**
   * A transaction that declares the quoted fee passes the resource-fee check of
   * its submission, and what is left refundable covers the simulated rent and events.
   */
  lemma QuoteCoversSubmission(o: Oracles, s: FeeSettings, tx: Transaction, signatures: seq<DecoratedSignature>,
                              op: Operation, data: SorobanData, restored: seq<u32>,
                              eventsSize: u32, rentChanges: seq<RentChange>, ledgerSeq: u32)
    requires FeeAssumptions(o) && WithinXdrLimits(tx, signatures)
    requires tx.operations == [op] && !op.body.RestoreFootprint? && tx.ext == Some(data)
    requires |ArchivedIndexes(data)| <= |restored| && EnvelopeV1Size(tx, signatures) <= U32_MAX
    requires PreflightResourceFee(o, s, op.body, data.resources, restored, eventsSize, rentChanges, ledgerSeq)
          == Some(data.resourceFee)
    requires data.resourceFee <= MAX_RESOURCE_FEE
    ensures var fee := ComputeResourceFee(o, s, data, EnvelopeV1Size(tx, signatures), 0, false);
            && data.resourceFee >= fee.nonRefundable + fee.refundable
            && data.resourceFee - fee.nonRefundable
               >= o.rentFee(s, rentChanges, ledgerSeq) + EventsFee(o, s, eventsSize)
  {
    var size := EstimateMaxTransactionSize(op.body, data.resources, restored);
    EstimateIs(op.body, data.resources, restored);
    EstimateBoundsEnvelope(tx, signatures, op, data, restored);
    QuotedResourcesCover(o, s, data, restored, eventsSize, EnvelopeV1Size(tx, signatures), size);
    var quoted := QuotedFee(o, s, data.resources, restored, eventsSize, size);
    QuotedAtLeast(quoted.nonRefundable, quoted.refundable, o.rentFee(s, rentChanges, ledgerSeq), data.resourceFee);
  }
}
