/** Value types of the chain-state core: digests, commitments, outputs,
    kernels, headers, blocks and transactions. Cryptographic values are
    opaque byte strings; the model never looks inside them. */
module Types {

  /** A 32-byte digest (block hash, MMR node hash, root). */
  datatype Hash = Hash(bytes: seq<bv8>)

  /** A Pedersen commitment point. */
  datatype Commitment = Commitment(bytes: seq<bv8>)

  /** A 32-byte blinding scalar (the total kernel offset of a header). */
  datatype BlindingFactor = BlindingFactor(bytes: seq<bv8>)

  datatype RangeProof = RangeProof(bytes: seq<bv8>)

  datatype Signature = Signature(bytes: seq<bv8>)

  datatype OutputFeatures = Plain | Coinbase

  /** What the output MMR stores per leaf: feature flags and commitment. */
  datatype OutputId = OutputId(features: OutputFeatures, commitment: Commitment)

  /** A transaction output as carried in a block: identifier and range proof. */
  datatype TxOutput = TxOutput(id: OutputId, proof: RangeProof)

  /** A transaction kernel: fee, lock height, excess commitment and signature. */
  datatype Kernel = Kernel(fee: nat, lockHeight: nat, excess: Commitment, signature: Signature)

  /** A block header; `hash` is the header's own digest. */
  datatype BlockHeader = BlockHeader(
    hash: Hash,
    height: nat,
    previous: Hash,
    outputRoot: Hash,
    rangeProofRoot: Hash,
    kernelRoot: Hash,
    totalKernelOffset: BlindingFactor,
    outputMmrSize: nat,
    kernelMmrSize: nat)

  /** Accumulated output and kernel-excess commitment sums up to a block. */
  datatype BlockSums = BlockSums(outputSum: Commitment, kernelSum: Commitment)

  datatype Transaction = Transaction(
    offset: BlindingFactor,
    inputs: seq<OutputId>,
    outputs: seq<TxOutput>,
    kernels: seq<Kernel>)

  datatype FullBlock = FullBlock(
    header: BlockHeader,
    inputs: seq<OutputId>,
    outputs: seq<TxOutput>,
    kernels: seq<Kernel>)

  /** A compact block: the header plus short ids of the transactions a peer
      expects the receiver to find in its own pool. */
  datatype CompactBlock = CompactBlock(header: BlockHeader, shortIds: seq<nat>)
}

/** Consensus constants and the fixed-width arithmetic the core does with them. */
module Consensus {

  const TWO_TO_64: nat := 0x1_0000_0000_0000_0000
  const TWO_TO_63: nat := 0x8000_0000_0000_0000

  /** Values of `uint64_t`. */
  type U64 = x: nat | x < TWO_TO_64

  /** One block reward: 60 grin of 10^9 nanogrin each. */
  const REWARD: nat := 60_000_000_000

  /** One week of one-minute blocks: below it full blocks are downloaded instead of a snapshot. */
  const CUT_THROUGH_HORIZON: nat := 10080

  /** Two days of one-minute blocks: how far below the header tip a snapshot is requested. */
  const STATE_SYNC_THRESHOLD: nat := 2880

  /** `a - b` on `uint64_t`: wraps around below zero. */
  function Sub64(a: U64, b: U64): (r: U64)
    ensures a >= b ==> r == a - b
    ensures a < b ==> r == TWO_TO_64 - (b - a)
  {
    (a - b) % TWO_TO_64
  }

  /** Reinterpretation of a `uint64_t` bit pattern as `int64_t` (two's complement). */
  function ToInt64(x: U64): (r: int)
    ensures -(TWO_TO_63 as int) <= r < TWO_TO_63
    ensures r % TWO_TO_64 == x
  {
    if x < TWO_TO_63 then x else x - TWO_TO_64
  }

  /** The supply overage `0 - REWARD * (1 + height)`, evaluated in `uint64_t`
      and stored into an `int64_t`. */
  function Overage(height: nat): (r: int)
    ensures -(TWO_TO_63 as int) <= r < TWO_TO_63
    ensures (r + REWARD * ((1 + height) % TWO_TO_64)) % TWO_TO_64 == 0
  {
    var product := (REWARD * ((1 + height) % TWO_TO_64)) % TWO_TO_64;
    ToInt64((TWO_TO_64 - product) % TWO_TO_64)
  }

  /** For every height a chain can reach in practice (below about 153 million
      blocks) the wrapped overage is exactly minus the reward of all blocks. */
  lemma OverageIsNegatedReward(height: nat)
    ensures REWARD * (height + 1) <= TWO_TO_63 ==> Overage(height) == -(REWARD * (height + 1))
  {
    if REWARD * (height + 1) <= TWO_TO_63 {
      assert (1 + height) % TWO_TO_64 == 1 + height;
      var p := REWARD * (1 + height);
      assert 0 < p < TWO_TO_64;
      assert p % TWO_TO_64 == p;
      assert (TWO_TO_64 - p) % TWO_TO_64 == TWO_TO_64 - p;
    }
  }
}
