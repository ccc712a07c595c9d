/** Merkle Mountain Ranges as the snapshot validator sees them. Every MMR
    position holds an optional node hash and, at leaf positions, optional
    leaf data; `None` means pruned, compacted away or never written. The
    index arithmetic and hashing of the MMR library are uninterpreted. */
module Pmmr {
  import opened Wrappers
  import opened Types
  import opened Seqs

  datatype Node<T> = Node(hash: Option<Hash>, leaf: Option<T>)

  /** An MMR: one node per position; its size is its length. */
  type Mmr<T> = seq<Node<T>>

  /** The MMR helpers whose definitions are not part of this model: position
      height, child positions, the parent hash and the root at a given size. */
  datatype MmrOps = MmrOps(
    height: nat -> nat,
    leftChild: (nat, nat) -> nat,
    rightChild: nat -> nat,
    hashParent: (Hash, Hash, nat) -> Hash,
    root: (seq<Option<Hash>>, nat) -> Hash)

  /** The loaded TxHashSet: kernel, output and range-proof MMRs. */
  datatype Snapshot = Snapshot(kernels: Mmr<Kernel>, outputs: Mmr<OutputId>, rangeProofs: Mmr<RangeProof>)

  /** `GetHashAt`: the node hash, `None` when pruned or beyond the size. */
  function HashAt<T>(m: Mmr<T>, i: nat): Option<Hash>
  {
    if i < |m| then m[i].hash else None
  }

  /** `GetOutputAt` / `GetKernelAt` / `GetRangeProofAt`: the leaf data. */
  function LeafAt<T>(m: Mmr<T>, i: nat): Option<T>
  {
    if i < |m| then m[i].leaf else None
  }

  /** All node hashes, the argument of the root computation. */
  function Hashes<T>(m: Mmr<T>): seq<Option<Hash>>
  {
    seq(|m|, i requires 0 <= i < |m| => m[i].hash)
  }

  /** Leaf data at positions `0 .. n-1`. */
  function Leaves<T>(m: Mmr<T>, n: nat): seq<Option<T>>
  {
    seq(n, i requires 0 <= i => LeafAt(m, i))
  }

  /** The leaves present at positions below `n`, in position order. */
  function Present<T>(m: Mmr<T>, n: nat): seq<T>
  {
    Somes(Leaves(m, n))
  }

  lemma PresentStep<T>(m: Mmr<T>, n: nat)
    ensures Present(m, n + 1) == Present(m, n) + (if LeafAt(m, n).Some? then [LeafAt(m, n).value] else [])
  {
    assert Leaves(m, n + 1) == Leaves(m, n) + [LeafAt(m, n)];
    SomesSnoc(Leaves(m, n), LeafAt(m, n));
  }

  /** Present leaves below `i` are a prefix of those below any `n >= i`. */
  lemma PresentPrefix<T>(m: Mmr<T>, i: nat, n: nat)
    requires i <= n
    ensures |Present(m, i)| <= |Present(m, n)|
    ensures Present(m, n)[..|Present(m, i)|] == Present(m, i)
  {
    assert Leaves(m, n)[..i] == Leaves(m, i);
    SomesPrefix(Leaves(m, n), i);
  }

  /** The consistency requirement `ValidateMMRHashes` checks at one position:
      an internal node whose own hash and both child hashes are readable must
      hash to `HashParentWithIndex(left, right, i)`. Leaves and nodes with a
      pruned hash impose nothing. */
  ghost predicate ParentOk<T>(ops: MmrOps, m: Mmr<T>, i: nat)
  {
    var h := ops.height(i);
    var left := HashAt(m, ops.leftChild(i, h));
    var right := HashAt(m, ops.rightChild(i));
    (h > 0 && HashAt(m, i).Some? && left.Some? && right.Some?) ==>
      HashAt(m, i).value == ops.hashParent(left.value, right.value, i)
  }

  ghost predicate HashesConsistent<T>(ops: MmrOps, m: Mmr<T>)
  {
    forall i :: 0 <= i < |m| ==> ParentOk(ops, m, i)
  }

  /** Prunes position `j`: its hash and data become unreadable, the size stays. */
  function Prune<T>(m: Mmr<T>, j: nat): (r: Mmr<T>)
    ensures |r| == |m|
    ensures forall i :: 0 <= i < |m| && i != j ==> r[i] == m[i]
    ensures j < |m| ==> HashAt(r, j) == None && LeafAt(r, j) == None
  {
    if j < |m| then m[j := Node(None, None)] else m
  }

  /** Pruning never turns a consistent MMR into one the hash check rejects. */
  lemma PruneKeepsHashesConsistent<T>(ops: MmrOps, m: Mmr<T>, j: nat)
    requires HashesConsistent(ops, m)
    ensures HashesConsistent(ops, Prune(m, j))
  {
    var p := Prune(m, j);
    forall i | 0 <= i < |p|
      ensures ParentOk(ops, p, i)
    {
      assert ParentOk(ops, m, i);
      var h := ops.height(i);
      var l := ops.leftChild(i, h);
      var r := ops.rightChild(i);
      if i != j && l != j && r != j {
        assert HashAt(p, i) == HashAt(m, i);
        assert HashAt(p, l) == HashAt(m, l);
        assert HashAt(p, r) == HashAt(m, r);
      }
    }
  }

  /** `ValidateRoots`: the root of each MMR at its own size equals the root
      the header records for it. */
  function ValidateRoots(ops: MmrOps, s: Snapshot, header: BlockHeader): (ok: bool)
  {
    && ops.root(Hashes(s.kernels), |s.kernels|) == header.kernelRoot
    && ops.root(Hashes(s.outputs), |s.outputs|) == header.outputRoot
    && ops.root(Hashes(s.rangeProofs), |s.rangeProofs|) == header.rangeProofRoot
  }

  /** The root check reads node hashes only: compacting leaf data away
      never changes its answer. */
  lemma ValidateRootsReadsOnlyHashes(ops: MmrOps, s: Snapshot, s': Snapshot, header: BlockHeader)
    requires Hashes(s.kernels) == Hashes(s'.kernels)
    requires Hashes(s.outputs) == Hashes(s'.outputs)
    requires Hashes(s.rangeProofs) == Hashes(s'.rangeProofs)
    ensures ValidateRoots(ops, s, header) == ValidateRoots(ops, s', header)
  {
    assert |s.kernels| == |Hashes(s.kernels)| && |s'.kernels| == |Hashes(s'.kernels)|;
    assert |s.outputs| == |Hashes(s.outputs)| && |s'.outputs| == |Hashes(s'.outputs)|;
    assert |s.rangeProofs| == |Hashes(s.rangeProofs)| && |s'.rangeProofs| == |Hashes(s'.rangeProofs)|;
  }
}
