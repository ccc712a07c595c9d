/** The TxHashSet snapshot validator: a short-circuiting pipeline of seven
    checks over the kernel, output and range-proof MMRs of a downloaded
    snapshot and the header it claims to match. */
module Validator {
  import opened Wrappers
  import opened Types
  import opened Consensus
  import opened Seqs
  import opened Pmmr

  /** Range proofs are handed to the batch verifier 1000 at a time. */
  const RANGE_PROOF_BATCH: nat := 1000

  /** Kernel signatures are handed to the batch verifier 2000 at a time. */
  const KERNEL_SIGNATURE_BATCH: nat := 2000

  type ProofPair = (Commitment, RangeProof)

  /** The arguments of `KernelSumValidator::ValidateKernelSums`. */
  datatype SumInput = SumInput(
    inputs: seq<Commitment>,
    outputs: seq<Commitment>,
    excesses: seq<Commitment>,
    overage: int,
    offset: BlindingFactor,
    previous: Option<BlockSums>)

  /** Collaborators whose definitions are not part of this model: the MMR
      helpers, the kernel-sum (balance) check and the two batch verifiers,
      each batch verifier paired with the per-item validity it decides. */
  datatype Crypto = Crypto(
    mmr: MmrOps,
    kernelSums: SumInput -> Option<BlockSums>,
    verifyRangeProofs: seq<ProofPair> -> bool,
    rangeProofValid: ProofPair -> bool,
    verifyKernelSignatures: seq<Kernel> -> bool,
    kernelSignatureValid: Kernel -> bool)

  /** The one assumption made about the batch verifiers: each accepts a batch
      exactly when every item in it is valid. */
  ghost predicate BatchVerifiersAreConjunctions(c: Crypto)
  {
    && IsConjunction(c.verifyRangeProofs, c.rangeProofValid)
    && IsConjunction(c.verifyKernelSignatures, c.kernelSignatureValid)
  }

  /** The steps of the pipeline, in the order they run. */
  datatype Step = SizeCheck | HashCheck | RootCheck | HistoryCheck | SumCheck | RangeProofCheck | SignatureCheck

  function Rank(st: Step): nat
  {
    match st
    case SizeCheck => 0
    case HashCheck => 1
    case RootCheck => 2
    case HistoryCheck => 3
    case SumCheck => 4
    case RangeProofCheck => 5
    case SignatureCheck => 6
  }

  /** The outcome of a validation: the block sums, or the first failing step. */
  datatype Verdict = Accepted(sums: BlockSums) | Rejected(at: Step)

  // ---------------------------------------------------------------- sizes

  /** `ValidateSizes`. */
  function ValidateSizes(s: Snapshot, header: BlockHeader): (ok: bool)
    ensures ok <==>
      && |s.kernels| == header.kernelMmrSize
      && |s.outputs| == header.outputMmrSize
      && |s.rangeProofs| == header.outputMmrSize
    ensures ok ==> |s.outputs| == |s.rangeProofs|
  {
    if |s.kernels| != header.kernelMmrSize then false
    else if |s.outputs| != header.outputMmrSize then false
    else if |s.rangeProofs| != header.outputMmrSize then false
    else true
  }

  // ---------------------------------------------------------------- hashes

  /** `ValidateMMRHashes`: recomputes every readable internal node. */
  method ValidateMmrHashes<T>(ops: MmrOps, m: Mmr<T>) returns (ok: bool)
    ensures ok <==> HashesConsistent(ops, m)
  {
    var i := 0;
    while i < |m|
      invariant 0 <= i <= |m|
      invariant forall j :: 0 <= j < i ==> ParentOk(ops, m, j)
    {
      var height := ops.height(i);
      if height > 0 {
        var parent := HashAt(m, i);
        if parent.Some? {
          var left := HashAt(m, ops.leftChild(i, height));
          var right := HashAt(m, ops.rightChild(i));
          if left.Some? && right.Some? {
            if parent.value != ops.hashParent(left.value, right.value, i) {
              assert !ParentOk(ops, m, i);
              return false;
            }
          }
        }
      }
      i := i + 1;
    }
    return true;
  }

  // ---------------------------------------------------------------- kernel history

  /** At `height` the candidate chain has a header, and the kernel MMR's root
      at that header's kernel MMR size is the kernel root it records. */
  ghost predicate HistoryOk(ops: MmrOps, kernels: Mmr<Kernel>, candidateAt: nat -> Option<BlockHeader>, height: nat)
  {
    && candidateAt(height).Some?
    && ops.root(Hashes(kernels), candidateAt(height).value.kernelMmrSize) == candidateAt(height).value.kernelRoot
  }

  ghost predicate KernelHistoryConsistent(ops: MmrOps, kernels: Mmr<Kernel>, header: BlockHeader, candidateAt: nat -> Option<BlockHeader>)
  {
    forall height: nat :: height <= header.height ==> HistoryOk(ops, kernels, candidateAt, height)
  }

  /** `ValidateKernelHistory`; `candidateAt` is the candidate-chain header lookup. */
  method ValidateKernelHistory(ops: MmrOps, kernels: Mmr<Kernel>, header: BlockHeader, candidateAt: nat -> Option<BlockHeader>)
    returns (ok: bool)
    ensures ok <==> KernelHistoryConsistent(ops, kernels, header, candidateAt)
  {
    var height := 0;
    while height <= header.height
      invariant 0 <= height <= header.height + 1
      invariant forall k: nat :: k < height ==> HistoryOk(ops, kernels, candidateAt, k)
    {
      var candidate := candidateAt(height);
      if candidate.None? {
        assert !HistoryOk(ops, kernels, candidateAt, height);
        return false;
      }
      if ops.root(Hashes(kernels), candidate.value.kernelMmrSize) != candidate.value.kernelRoot {
        assert !HistoryOk(ops, kernels, candidateAt, height);
        return false;
      }
      height := height + 1;
    }
    return true;
  }

  // ---------------------------------------------------------------- kernel sums

  /** The arguments `ValidateKernelSums` passes to the balance check. */
  function KernelSumInput(s: Snapshot, header: BlockHeader): (r: SumInput)
    ensures r.inputs == [] && r.previous == None
    ensures r.offset == header.totalKernelOffset
    ensures REWARD * (header.height + 1) <= TWO_TO_63 ==> r.overage == -(REWARD * (header.height + 1))
    ensures
      var idx := SomeIndices(Leaves(s.outputs, header.outputMmrSize));
      && |r.outputs| == |idx|
      && forall k :: 0 <= k < |idx| ==>
           idx[k] < header.outputMmrSize && LeafAt(s.outputs, idx[k]).Some?
           && LeafAt(s.outputs, idx[k]).value.commitment == r.outputs[k]
    ensures
      var idx := SomeIndices(Leaves(s.kernels, header.kernelMmrSize));
      && |r.excesses| == |idx|
      && forall k :: 0 <= k < |idx| ==>
           idx[k] < header.kernelMmrSize && LeafAt(s.kernels, idx[k]).Some?
           && LeafAt(s.kernels, idx[k]).value.excess == r.excesses[k]
  {
    var outputs := Present(s.outputs, header.outputMmrSize);
    var kernels := Present(s.kernels, header.kernelMmrSize);
    OverageIsNegatedReward(header.height);
    SomesAtIndices(Leaves(s.outputs, header.outputMmrSize));
    SomesAtIndices(Leaves(s.kernels, header.kernelMmrSize));
    SumInput(
      [],
      seq(|outputs|, k requires 0 <= k < |outputs| => outputs[k].commitment),
      seq(|kernels|, k requires 0 <= k < |kernels| => kernels[k].excess),
      Overage(header.height),
      header.totalKernelOffset,
      None)
  }

  /** `ValidateKernelSums`: the balance check's result for the snapshot. */
  function ValidateKernelSums(c: Crypto, s: Snapshot, header: BlockHeader): Option<BlockSums>
  {
    c.kernelSums(KernelSumInput(s, header))
  }

  /** The kernel-sum check reads only the leaves below the header's MMR
      sizes: leaves beyond them, and hashes anywhere, do not matter. */
  lemma {:induction false} KernelSumsReadOnlyLeavesBelowHeader(c: Crypto, s: Snapshot, s': Snapshot, header: BlockHeader)
    requires forall i :: 0 <= i < header.outputMmrSize ==> LeafAt(s.outputs, i) == LeafAt(s'.outputs, i)
    requires forall i :: 0 <= i < header.kernelMmrSize ==> LeafAt(s.kernels, i) == LeafAt(s'.kernels, i)
    ensures ValidateKernelSums(c, s, header) == ValidateKernelSums(c, s', header)
  {
    assert Leaves(s.outputs, header.outputMmrSize) == Leaves(s'.outputs, header.outputMmrSize);
    assert Leaves(s.kernels, header.kernelMmrSize) == Leaves(s'.kernels, header.kernelMmrSize);
  }

  // ---------------------------------------------------------------- batching

  /** Every submitted batch is non-empty and within the batch size. */
  predicate BatchesWithin<T>(submitted: seq<seq<T>>, batchSize: nat)
  {
    forall k :: 0 <= k < |submitted| ==> 0 < |submitted[k]| <= batchSize
  }

  /** Hands one non-empty batch to a batch verifier and records it. */
  method SubmitBatch<T(!new)>(verify: seq<T> -> bool, valid: T -> bool, submitted: seq<seq<T>>, batch: seq<T>, batchSize: nat)
    returns (ok: bool, submitted': seq<seq<T>>)
    requires IsConjunction(verify, valid)
    requires 0 < |batch| <= batchSize
    requires AllValid(valid, Flatten(submitted))
    requires BatchesWithin(submitted, batchSize)
    ensures BatchesWithin(submitted', batchSize)
    ensures submitted' == submitted + [batch]
    ensures Flatten(submitted') == Flatten(submitted) + batch
    ensures ok <==> AllValid(valid, Flatten(submitted'))
  {
    FlattenSnoc(submitted, batch);
    AllValidConcat(valid, Flatten(submitted), batch);
    ok := verify(batch);
    submitted' := submitted + [batch];
  }

  /** Adds one item to the pending batch, and submits the batch once it is
      full. On failure, the items so far are not all valid. */
  method Push<T(!new)>(verify: seq<T> -> bool, valid: T -> bool, submitted: seq<seq<T>>, pending: seq<T>, x: T, batchSize: nat)
    returns (ok: bool, submitted': seq<seq<T>>, pending': seq<T>)
    requires IsConjunction(verify, valid)
    requires AllValid(valid, Flatten(submitted))
    requires |pending| < batchSize
    requires BatchesWithin(submitted, batchSize)
    ensures BatchesWithin(submitted', batchSize)
    ensures ok ==>
      && Flatten(submitted') + pending' == Flatten(submitted) + (pending + [x])
      && AllValid(valid, Flatten(submitted'))
      && |pending'| < batchSize
    ensures !ok ==> !AllValid(valid, Flatten(submitted) + (pending + [x]))
  {
    pending' := pending + [x];
    submitted' := submitted;
    ok := true;
    if |pending'| >= batchSize {
      ok, submitted' := SubmitBatch(verify, valid, submitted, pending', batchSize);
      pending' := [];
      assert Flatten(submitted') + pending' == Flatten(submitted');
    }
  }

  // ---------------------------------------------------------------- range proofs

  /** The (commitment, range proof) pair at position `i`, when both are present. */
  function PairAt(s: Snapshot, i: nat): Option<ProofPair>
  {
    var output := LeafAt(s.outputs, i);
    var proof := LeafAt(s.rangeProofs, i);
    if output.Some? && proof.Some? then Some((output.value.commitment, proof.value)) else None
  }

  function PairSeq(s: Snapshot, n: nat): seq<Option<ProofPair>>
  {
    seq(n, i requires 0 <= i => PairAt(s, i))
  }

  /** The pairs found at output positions below `n`, in position order. */
  function ProofPairs(s: Snapshot, n: nat): seq<ProofPair>
  {
    Somes(PairSeq(s, n))
  }

  /** Some present output at a position below `n` has no range proof there. */
  ghost predicate MissingBelow(s: Snapshot, n: nat)
  {
    exists i :: 0 <= i < n && LeafAt(s.outputs, i).Some? && LeafAt(s.rangeProofs, i).None?
  }

  ghost predicate MissingRangeProof(s: Snapshot)
  {
    MissingBelow(s, |s.outputs|)
  }

  lemma ProofPairsStep(s: Snapshot, n: nat)
    ensures ProofPairs(s, n + 1) == ProofPairs(s, n) + (if PairAt(s, n).Some? then [PairAt(s, n).value] else [])
  {
    assert PairSeq(s, n + 1) == PairSeq(s, n) + [PairAt(s, n)];
    SomesSnoc(PairSeq(s, n), PairAt(s, n));
  }

  lemma ProofPairsPrefix(s: Snapshot, i: nat, n: nat)
    requires i <= n
    ensures |ProofPairs(s, i)| <= |ProofPairs(s, n)|
    ensures ProofPairs(s, n)[..|ProofPairs(s, i)|] == ProofPairs(s, i)
  {
    assert PairSeq(s, n)[..i] == PairSeq(s, i);
    SomesPrefix(PairSeq(s, n), i);
  }

  /** With no range proof missing, the pairs are the present outputs, in
      order, each with the range proof at its own position. */
  lemma ProofPairsFollowOutputs(s: Snapshot)
    requires !MissingRangeProof(s)
    ensures var idx := SomeIndices(Leaves(s.outputs, |s.outputs|));
      && |ProofPairs(s, |s.outputs|)| == |Present(s.outputs, |s.outputs|)| == |idx|
      && forall k :: 0 <= k < |idx| ==>
           && ProofPairs(s, |s.outputs|)[k].0 == Present(s.outputs, |s.outputs|)[k].commitment
           && Some(ProofPairs(s, |s.outputs|)[k].1) == LeafAt(s.rangeProofs, idx[k])
  {
    var n := |s.outputs|;
    var leaves := Leaves(s.outputs, n);
    var pairs := PairSeq(s, n);
    forall i | 0 <= i < n
      ensures leaves[i].Some? <==> pairs[i].Some?
    {
      if LeafAt(s.outputs, i).Some? {
        assert !(LeafAt(s.outputs, i).Some? && LeafAt(s.rangeProofs, i).None?);
      }
    }
    SomeIndicesSamePattern(leaves, pairs);
    SomesAtIndices(leaves);
    SomesAtIndices(pairs);
  }

  /** `ValidateRangeProofs`, with the batch size as a parameter (the source
      uses RANGE_PROOF_BATCH). `submitted` lists the batches handed to the
      verifier, in order. */
  method ValidateRangeProofs(s: Snapshot, verify: seq<ProofPair> -> bool, valid: ProofPair -> bool, batchSize: nat)
    returns (ok: bool, submitted: seq<seq<ProofPair>>)
    requires batchSize > 0
    requires IsConjunction(verify, valid)
    ensures ok <==> !MissingRangeProof(s) && AllValid(valid, ProofPairs(s, |s.outputs|))
    ensures ok ==> Flatten(submitted) == ProofPairs(s, |s.outputs|)
    ensures BatchesWithin(submitted, batchSize)
  {
    var pending: seq<ProofPair> := [];
    submitted := [];
    var i := 0;
    while i < |s.outputs|
      invariant 0 <= i <= |s.outputs|
      invariant !MissingBelow(s, i)
      invariant Flatten(submitted) + pending == ProofPairs(s, i)
      invariant AllValid(valid, Flatten(submitted))
      invariant |pending| < batchSize
      invariant BatchesWithin(submitted, batchSize)
    {
      ProofPairsStep(s, i);
      var output := LeafAt(s.outputs, i);
      if output.Some? {
        var proof := LeafAt(s.rangeProofs, i);
        if proof.None? {
          assert MissingBelow(s, i + 1);
          assert MissingRangeProof(s);
          return false, submitted;
        }
        var pair := (output.value.commitment, proof.value);
        assert PairAt(s, i) == Some(pair);
        SnocAssoc(Flatten(submitted), pending, pair);
        var pushOk;
        pushOk, submitted, pending := Push(verify, valid, submitted, pending, pair, batchSize);
        if !pushOk {
          ProofPairsPrefix(s, i + 1, |s.outputs|);
          InvalidPrefix(valid, ProofPairs(s, i + 1), ProofPairs(s, |s.outputs|));
          return false, submitted;
        }
      }
      i := i + 1;
    }
    if |pending| > 0 {
      var batchOk;
      batchOk, submitted := SubmitBatch(verify, valid, submitted, pending, batchSize);
      if !batchOk {
        return false, submitted;
      }
    }
    assert Flatten(submitted) == ProofPairs(s, |s.outputs|);
    return true, submitted;
  }

  // ---------------------------------------------------------------- kernel signatures

  /** `ValidateKernelSignatures`, with the batch size as a parameter (the
      source uses KERNEL_SIGNATURE_BATCH). */
  method ValidateKernelSignatures(kernels: Mmr<Kernel>, verify: seq<Kernel> -> bool, valid: Kernel -> bool, batchSize: nat)
    returns (ok: bool, submitted: seq<seq<Kernel>>)
    requires batchSize > 0
    requires IsConjunction(verify, valid)
    ensures ok <==> AllValid(valid, Present(kernels, |kernels|))
    ensures ok ==> Flatten(submitted) == Present(kernels, |kernels|)
    ensures BatchesWithin(submitted, batchSize)
  {
    var pending: seq<Kernel> := [];
    submitted := [];
    var i := 0;
    while i < |kernels|
      invariant 0 <= i <= |kernels|
      invariant Flatten(submitted) + pending == Present(kernels, i)
      invariant AllValid(valid, Flatten(submitted))
      invariant |pending| < batchSize
      invariant BatchesWithin(submitted, batchSize)
    {
      PresentStep(kernels, i);
      var kernel := LeafAt(kernels, i);
      if kernel.Some? {
        SnocAssoc(Flatten(submitted), pending, kernel.value);
        var pushOk;
        pushOk, submitted, pending := Push(verify, valid, submitted, pending, kernel.value, batchSize);
        if !pushOk {
          PresentPrefix(kernels, i + 1, |kernels|);
          InvalidPrefix(valid, Present(kernels, i + 1), Present(kernels, |kernels|));
          return false, submitted;
        }
      }
      i := i + 1;
    }
    if |pending| > 0 {
      var batchOk;
      batchOk, submitted := SubmitBatch(verify, valid, submitted, pending, batchSize);
      if !batchOk {
        return false, submitted;
      }
    }
    assert Flatten(submitted) == Present(kernels, |kernels|);
    return true, submitted;
  }

  // ---------------------------------------------------------------- pipeline

  /** What each step of the pipeline requires of the snapshot. */
  ghost predicate Passes(c: Crypto, s: Snapshot, header: BlockHeader, candidateAt: nat -> Option<BlockHeader>, st: Step)
  {
    match st
    case SizeCheck => ValidateSizes(s, header)
    case HashCheck =>
      HashesConsistent(c.mmr, s.kernels) && HashesConsistent(c.mmr, s.outputs) && HashesConsistent(c.mmr, s.rangeProofs)
    case RootCheck => ValidateRoots(c.mmr, s, header)
    case HistoryCheck => KernelHistoryConsistent(c.mmr, s.kernels, header, candidateAt)
    case SumCheck => ValidateKernelSums(c, s, header).Some?
    case RangeProofCheck => !MissingRangeProof(s) && AllValid(c.rangeProofValid, ProofPairs(s, |s.outputs|))
    case SignatureCheck => AllValid(c.kernelSignatureValid, Present(s.kernels, |s.kernels|))
  }

  /** Every step ranked below `r` passes. */
  ghost predicate PassesBelow(c: Crypto, s: Snapshot, header: BlockHeader, candidateAt: nat -> Option<BlockHeader>, r: nat)
  {
    forall st :: Rank(st) < r ==> Passes(c, s, header, candidateAt, st)
  }

  /** `Validate`: runs the steps in order and stops at the first failure.
      The three hash checks, run concurrently in the source, are joined with
      a logical and. */
  method Validate(c: Crypto, s: Snapshot, header: BlockHeader, candidateAt: nat -> Option<BlockHeader>)
    returns (v: Verdict)
    requires BatchVerifiersAreConjunctions(c)
    ensures v.Accepted? <==> forall st :: Passes(c, s, header, candidateAt, st)
    ensures v.Accepted? ==> ValidateKernelSums(c, s, header) == Some(v.sums)
    ensures v.Rejected? ==>
      !Passes(c, s, header, candidateAt, v.at) && PassesBelow(c, s, header, candidateAt, Rank(v.at))
  {
    if !ValidateSizes(s, header) {
      assert !Passes(c, s, header, candidateAt, SizeCheck);
      return Rejected(SizeCheck);
    }
    assert PassesBelow(c, s, header, candidateAt, 1);

    var kernelsOk := ValidateMmrHashes(c.mmr, s.kernels);
    var outputsOk := ValidateMmrHashes(c.mmr, s.outputs);
    var rangeProofsOk := ValidateMmrHashes(c.mmr, s.rangeProofs);
    if !(kernelsOk && outputsOk && rangeProofsOk) {
      assert !Passes(c, s, header, candidateAt, HashCheck);
      return Rejected(HashCheck);
    }
    assert PassesBelow(c, s, header, candidateAt, 2) by {
      assert Passes(c, s, header, candidateAt, HashCheck);
    }

    if !ValidateRoots(c.mmr, s, header) {
      assert !Passes(c, s, header, candidateAt, RootCheck);
      return Rejected(RootCheck);
    }
    assert PassesBelow(c, s, header, candidateAt, 3) by {
      assert Passes(c, s, header, candidateAt, RootCheck);
    }

    var historyOk := ValidateKernelHistory(c.mmr, s.kernels, header, candidateAt);
    if !historyOk {
      assert !Passes(c, s, header, candidateAt, HistoryCheck);
      return Rejected(HistoryCheck);
    }
    assert PassesBelow(c, s, header, candidateAt, 4) by {
      assert Passes(c, s, header, candidateAt, HistoryCheck);
    }

    var sums := ValidateKernelSums(c, s, header);
    if sums.None? {
      assert !Passes(c, s, header, candidateAt, SumCheck);
      return Rejected(SumCheck);
    }
    assert PassesBelow(c, s, header, candidateAt, 5) by {
      assert Passes(c, s, header, candidateAt, SumCheck);
    }

    var proofsOk, _ := ValidateRangeProofs(s, c.verifyRangeProofs, c.rangeProofValid, RANGE_PROOF_BATCH);
    if !proofsOk {
      assert !Passes(c, s, header, candidateAt, RangeProofCheck);
      return Rejected(RangeProofCheck);
    }
    assert PassesBelow(c, s, header, candidateAt, 6) by {
      assert Passes(c, s, header, candidateAt, RangeProofCheck);
    }

    var signaturesOk, _ := ValidateKernelSignatures(s.kernels, c.verifyKernelSignatures, c.kernelSignatureValid, KERNEL_SIGNATURE_BATCH);
    if !signaturesOk {
      assert !Passes(c, s, header, candidateAt, SignatureCheck);
      return Rejected(SignatureCheck);
    }
    assert Passes(c, s, header, candidateAt, SignatureCheck);
    assert forall st :: Passes(c, s, header, candidateAt, st) by {
      forall st
        ensures Passes(c, s, header, candidateAt, st)
      {
        if st != SignatureCheck {
          assert Rank(st) < 6;
        }
      }
    }
    return Accepted(sums.value);
  }
}
