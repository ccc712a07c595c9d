/** The TxHashSet interface (`ITxHashSet`) as an abstract state machine:
    three append-only leaf sequences (kernels, outputs, range proofs), the
    set of spent output positions, the stack of applied blocks, and the
    state at the last commit. */
module TxHashSetSpec {
  import opened Wrappers
  import opened Types

  /** A block applied to the ledger, with what undoing it needs: the output
      positions its inputs spent and the sequence lengths before it. */
  datatype AppliedBlock = AppliedBlock(block: FullBlock, spentPositions: seq<nat>, kernelsBefore: nat, outputsBefore: nat)

  datatype Ledger = Ledger(
    kernels: seq<Kernel>,
    outputs: seq<OutputId>,
    rangeProofs: seq<RangeProof>,
    spent: set<nat>,
    applied: seq<AppliedBlock>)

  /** The live ledger and the ledger as of the last commit. */
  datatype TxHashSet = TxHashSet(live: Ledger, committed: Ledger)

  /** The roots of the three MMRs over their leaves; spending prunes data but
      never changes a root. Their definitions are not part of this model. */
  datatype LedgerRoots = LedgerRoots(
    kernelRoot: seq<Kernel> -> Hash,
    outputRoot: seq<OutputId> -> Hash,
    rangeProofRoot: seq<RangeProof> -> Hash)

  /** Output and range-proof sequences stay aligned, and every applied-block
      record describes lengths no larger than the current ones, in order. */
  predicate Wf(l: Ledger)
  {
    && |l.outputs| == |l.rangeProofs|
    && (forall p :: p in l.spent ==> p < |l.outputs|)
    && (forall k :: 0 <= k < |l.applied| ==>
          l.applied[k].kernelsBefore <= |l.kernels| && l.applied[k].outputsBefore <= |l.outputs|)
    && (forall j, k :: 0 <= j < k < |l.applied| ==>
          l.applied[j].kernelsBefore <= l.applied[k].kernelsBefore
          && l.applied[j].outputsBefore <= l.applied[k].outputsBefore)
  }

  function SetOf(ps: seq<nat>): (r: set<nat>)
    ensures forall p :: p in r <==> p in ps
  {
    set k | 0 <= k < |ps| :: ps[k]
  }

  function Ids(outs: seq<TxOutput>): (r: seq<OutputId>)
    ensures |r| == |outs| && forall k :: 0 <= k < |outs| ==> r[k] == outs[k].id
  {
    seq(|outs|, k requires 0 <= k < |outs| => outs[k].id)
  }

  function Proofs(outs: seq<TxOutput>): (r: seq<RangeProof>)
    ensures |r| == |outs| && forall k :: 0 <= k < |outs| ==> r[k] == outs[k].proof
  {
    seq(|outs|, k requires 0 <= k < |outs| => outs[k].proof)
  }

  /** Position `p` holds `o` and is not spent. */
  predicate UnspentAt(outputs: seq<OutputId>, spent: set<nat>, o: OutputId, p: nat)
  {
    p < |outputs| && outputs[p] == o && p !in spent
  }

  /** The lowest position at or after `from` holding `o` unspent. */
  function FirstUnspent(outputs: seq<OutputId>, spent: set<nat>, o: OutputId, from: nat): (r: Option<nat>)
    ensures r.Some? ==> from <= r.value && UnspentAt(outputs, spent, o, r.value)
    ensures r.Some? ==> forall p :: from <= p < r.value ==> !UnspentAt(outputs, spent, o, p)
    ensures r.None? ==> forall p :: from <= p ==> !UnspentAt(outputs, spent, o, p)
    decreases |outputs| - from
  {
    if from >= |outputs| then None
    else if outputs[from] == o && from !in spent then Some(from)
    else FirstUnspent(outputs, spent, o, from + 1)
  }

  /** Some position holds `o` unspent. */
  ghost predicate Spendable(outputs: seq<OutputId>, spent: set<nat>, o: OutputId)
  {
    exists p :: UnspentAt(outputs, spent, o, p)
  }

  /** `IsUnspent`: the output is present and not spent. */
  function IsUnspent(l: Ledger, o: OutputId): (r: bool)
    ensures r <==> Spendable(l.outputs, l.spent, o)
  {
    FirstUnspent(l.outputs, l.spent, o, 0).Some?
  }

  /** `IsValid`: every input of the transaction refers to an unspent output. */
  function IsValid(l: Ledger, tx: Transaction): (r: bool)
    ensures r <==> forall k :: 0 <= k < |tx.inputs| ==> Spendable(l.outputs, l.spent, tx.inputs[k])
  {
    forall k :: 0 <= k < |tx.inputs| ==> IsUnspent(l, tx.inputs[k])
  }

  /** Spends the inputs one after another; `None` when one of them has no
      unspent output left (missing, or already spent). */
  function SpendInputs(outputs: seq<OutputId>, spent: set<nat>, inputs: seq<OutputId>): (r: Option<seq<nat>>)
    ensures r.Some? ==> |r.value| == |inputs|
    ensures r.Some? ==> forall k :: 0 <= k < |inputs| ==> UnspentAt(outputs, spent, inputs[k], r.value[k])
    ensures r.Some? ==> forall j, k :: 0 <= j < k < |inputs| ==> r.value[j] != r.value[k]
    decreases |inputs|
  {
    if |inputs| == 0 then Some([])
    else match FirstUnspent(outputs, spent, inputs[0], 0)
      case None => None
      case Some(p) =>
        match SpendInputs(outputs, spent + {p}, inputs[1..])
        case None => None
        case Some(ps) => Some([p] + ps)
  }

  /** Every position `SpendInputs` picks holds one of the inputs. */
  lemma SpentPositionsHoldInputs(outputs: seq<OutputId>, spent: set<nat>, inputs: seq<OutputId>)
    requires SpendInputs(outputs, spent, inputs).Some?
    ensures forall p :: p in SetOf(SpendInputs(outputs, spent, inputs).value) ==>
      p < |outputs| && exists k :: 0 <= k < |inputs| && outputs[p] == inputs[k]
  {
    var ps := SpendInputs(outputs, spent, inputs).value;
    forall p | p in SetOf(ps)
      ensures p < |outputs| && exists k :: 0 <= k < |inputs| && outputs[p] == inputs[k]
    {
      var k :| 0 <= k < |ps| && ps[k] == p;
      assert UnspentAt(outputs, spent, inputs[k], ps[k]);
    }
  }

  /** `ApplyBlock`: spends the block's inputs and appends its kernels,
      outputs and range proofs; all or nothing. */
  function ApplyBlock(l: Ledger, b: FullBlock): (r: Option<Ledger>)
    requires Wf(l)
    ensures r.Some? ==> Wf(r.value)
    ensures r.Some? ==>
      && r.value.kernels == l.kernels + b.kernels
      && r.value.outputs == l.outputs + Ids(b.outputs)
      && r.value.rangeProofs == l.rangeProofs + Proofs(b.outputs)
      && l.spent <= r.value.spent
      && |r.value.applied| == |l.applied| + 1
      && r.value.applied[..|l.applied|] == l.applied
      && r.value.applied[|l.applied|].block == b
    // The only positions newly marked spent hold the block's inputs.
    ensures r.Some? ==> forall p :: p in r.value.spent && p !in l.spent ==>
      p < |l.outputs| && exists k :: 0 <= k < |b.inputs| && l.outputs[p] == b.inputs[k]
  {
    match SpendInputs(l.outputs, l.spent, b.inputs)
    case None => None
    case Some(ps) =>
      var r := Ledger(
        l.kernels + b.kernels,
        l.outputs + Ids(b.outputs),
        l.rangeProofs + Proofs(b.outputs),
        l.spent + SetOf(ps),
        l.applied + [AppliedBlock(b, ps, |l.kernels|, |l.outputs|)]);
      assert r.applied[..|l.applied|] == l.applied;
      SpentPositionsHoldInputs(l.outputs, l.spent, b.inputs);
      Some(r)
  }

  /** After `ApplyBlock` every input of the block has had one of its unspent
      outputs marked spent, and every output of the block is unspent. */
  lemma ApplyBlockSpendsInputs(l: Ledger, b: FullBlock)
    requires Wf(l)
    requires ApplyBlock(l, b).Some?
    ensures forall k :: 0 <= k < |b.inputs| ==>
      exists p :: UnspentAt(l.outputs, l.spent, b.inputs[k], p) && p in ApplyBlock(l, b).value.spent
    ensures forall k :: 0 <= k < |b.outputs| ==> IsUnspent(ApplyBlock(l, b).value, b.outputs[k].id)
  {
    var ps := SpendInputs(l.outputs, l.spent, b.inputs).value;
    var r := ApplyBlock(l, b).value;
    forall k | 0 <= k < |b.inputs|
      ensures exists p :: UnspentAt(l.outputs, l.spent, b.inputs[k], p) && p in r.spent
    {
      assert UnspentAt(l.outputs, l.spent, b.inputs[k], ps[k]) && ps[k] in r.spent;
    }
    forall k | 0 <= k < |b.outputs|
      ensures IsUnspent(r, b.outputs[k].id)
    {
      assert |l.outputs| + k !in l.spent;
      assert |l.outputs| + k !in SetOf(ps);
      assert UnspentAt(r.outputs, r.spent, b.outputs[k].id, |l.outputs| + k);
    }
  }

  /** The most recently applied block, if any. */
  predicate LastApplied(l: Ledger, b: FullBlock)
  {
    |l.applied| > 0 && l.applied[|l.applied| - 1].block == b
  }

  /** `RewindBlock`: undoes the most recently applied block: drops what it
      appended (with any spent marks on it) and un-spends its inputs. */
  function RewindBlock(l: Ledger, b: FullBlock): (r: Ledger)
    requires Wf(l) && LastApplied(l, b)
    ensures Wf(r)
    ensures r.applied == l.applied[..|l.applied| - 1]
    ensures |r.kernels| <= |l.kernels| && r.kernels == l.kernels[..|r.kernels|]
    ensures |r.outputs| <= |l.outputs| && r.outputs == l.outputs[..|r.outputs|]
  {
    var a := l.applied[|l.applied| - 1];
    Ledger(
      l.kernels[..a.kernelsBefore],
      l.outputs[..a.outputsBefore],
      l.rangeProofs[..a.outputsBefore],
      (set p | p in l.spent && p !in SetOf(a.spentPositions) && p < a.outputsBefore),
      l.applied[..|l.applied| - 1])
  }

  /** Rewinding the block just applied restores the ledger exactly. */
  lemma RewindBlockUndoesApplyBlock(l: Ledger, b: FullBlock)
    requires Wf(l)
    requires ApplyBlock(l, b).Some?
    ensures LastApplied(ApplyBlock(l, b).value, b)
    ensures RewindBlock(ApplyBlock(l, b).value, b) == l
  {
    var ps := SpendInputs(l.outputs, l.spent, b.inputs).value;
    var r := ApplyBlock(l, b).value;
    var back := RewindBlock(r, b);
    assert back.kernels == l.kernels;
    assert back.outputs == l.outputs;
    assert back.rangeProofs == l.rangeProofs;
    assert back.applied == l.applied;
    assert back.spent == l.spent by {
      forall p | p in SetOf(ps)
        ensures p !in l.spent
      {
        var k :| 0 <= k < |ps| && ps[k] == p;
        assert UnspentAt(l.outputs, l.spent, b.inputs[k], ps[k]);
      }
    }
  }

  /** `Rewind(header)`: undoes applied blocks until `header`'s block is the
      most recent one; `None` when no applied block has that header. */
  function Rewind(l: Ledger, header: BlockHeader): (r: Option<Ledger>)
    requires Wf(l)
    ensures r.Some? ==> Wf(r.value) && |r.value.applied| > 0
    ensures r.Some? ==> r.value.applied[|r.value.applied| - 1].block.header.hash == header.hash
    ensures r.Some? ==> |r.value.applied| <= |l.applied|
    ensures r.Some? ==> r.value.applied == l.applied[..|r.value.applied|]
    decreases |l.applied|
  {
    if |l.applied| == 0 then None
    else
      var top := l.applied[|l.applied| - 1].block;
      if top.header.hash == header.hash then Some(l)
      else Rewind(RewindBlock(l, top), header)
  }

  /** Applies blocks in order; `None` as soon as one cannot be applied. */
  function ApplyBlocks(l: Ledger, bs: seq<FullBlock>): (r: Option<Ledger>)
    requires Wf(l)
    ensures r.Some? ==> Wf(r.value)
    decreases |bs|
  {
    if |bs| == 0 then Some(l)
    else match ApplyBlocks(l, bs[..|bs| - 1])
      case None => None
      case Some(m) => ApplyBlock(m, bs[|bs| - 1])
  }

  /** Rewinding to the header of the block that was on top before a run of
      applies (none of them with that header) returns to the state before
      the run. */
  lemma {:induction false} RewindUndoesApplyBlocks(l: Ledger, bs: seq<FullBlock>, header: BlockHeader)
    requires Wf(l)
    requires |l.applied| > 0 && l.applied[|l.applied| - 1].block.header.hash == header.hash
    requires forall k :: 0 <= k < |bs| ==> bs[k].header.hash != header.hash
    requires ApplyBlocks(l, bs).Some?
    ensures Rewind(ApplyBlocks(l, bs).value, header) == Some(l)
    decreases |bs|
  {
    if |bs| > 0 {
      var front := bs[..|bs| - 1];
      var last := bs[|bs| - 1];
      var m := ApplyBlocks(l, front).value;
      RewindBlockUndoesApplyBlock(m, last);
      RewindUndoesApplyBlocks(l, front, header);
    }
  }

  /** `ValidateRoots`: the three roots equal those recorded in the header. */
  function ValidateRoots(roots: LedgerRoots, l: Ledger, header: BlockHeader): (ok: bool)
  {
    && roots.kernelRoot(l.kernels) == header.kernelRoot
    && roots.outputRoot(l.outputs) == header.outputRoot
    && roots.rangeProofRoot(l.rangeProofs) == header.rangeProofRoot
  }

  /** Spending outputs never changes the roots: the check ignores the spent
      set and the applied-block records. */
  lemma ValidateRootsIgnoresSpent(roots: LedgerRoots, l: Ledger, spent: set<nat>,
                                  applied: seq<AppliedBlock>, header: BlockHeader)
    ensures ValidateRoots(roots, l.(spent := spent, applied := applied), header) == ValidateRoots(roots, l, header)
  {
  }

  /** A header whose roots matched before a block was applied matches again
      once that block is rewound. */
  lemma RootsRestoredByRewindBlock(roots: LedgerRoots, l: Ledger, b: FullBlock, header: BlockHeader)
    requires Wf(l)
    requires ApplyBlock(l, b).Some?
    ensures LastApplied(ApplyBlock(l, b).value, b)
    ensures ValidateRoots(roots, RewindBlock(ApplyBlock(l, b).value, b), header) <==>
      && roots.kernelRoot(l.kernels) == header.kernelRoot
      && roots.outputRoot(l.outputs) == header.outputRoot
      && roots.rangeProofRoot(l.rangeProofs) == header.rangeProofRoot
  {
    RewindBlockUndoesApplyBlock(l, b);
  }

  /** A block applies only if each of its inputs is unspent beforehand. */
  lemma AppliedBlockInputsWereValid(l: Ledger, b: FullBlock)
    requires Wf(l)
    requires ApplyBlock(l, b).Some?
    ensures IsValid(l, Transaction(b.header.totalKernelOffset, b.inputs, b.outputs, b.kernels))
  {
    var ps := SpendInputs(l.outputs, l.spent, b.inputs).value;
    assert forall k :: 0 <= k < |b.inputs| ==> UnspentAt(l.outputs, l.spent, b.inputs[k], ps[k]);
  }

  /** Distinct inputs that are each unspent can all be spent together. */
  lemma {:induction false} DistinctUnspentInputsSpend(outputs: seq<OutputId>, spent: set<nat>, inputs: seq<OutputId>)
    requires forall k :: 0 <= k < |inputs| ==> Spendable(outputs, spent, inputs[k])
    requires forall j, k :: 0 <= j < k < |inputs| ==> inputs[j] != inputs[k]
    ensures SpendInputs(outputs, spent, inputs).Some?
    decreases |inputs|
  {
    if |inputs| > 0 {
      assert Spendable(outputs, spent, inputs[0]);
      var p := FirstUnspent(outputs, spent, inputs[0], 0);
      assert p.Some?;
      var spent' := spent + {p.value};
      var rest := inputs[1..];
      forall k | 0 <= k < |rest|
        ensures Spendable(outputs, spent', rest[k])
      {
        assert rest[k] == inputs[k + 1];
        assert Spendable(outputs, spent, inputs[k + 1]);
        var w :| UnspentAt(outputs, spent, inputs[k + 1], w);
        assert inputs[0] != inputs[k + 1];
        assert UnspentAt(outputs, spent', rest[k], w);
      }
      forall j, k | 0 <= j < k < |rest|
        ensures rest[j] != rest[k]
      {
        assert rest[j] == inputs[j + 1] && rest[k] == inputs[k + 1];
      }
      DistinctUnspentInputsSpend(outputs, spent', rest);
    }
  }

  /** A block whose inputs are distinct and form a valid transaction applies. */
  lemma ValidBlockApplies(l: Ledger, b: FullBlock)
    requires Wf(l)
    requires IsValid(l, Transaction(b.header.totalKernelOffset, b.inputs, b.outputs, b.kernels))
    requires forall j, k :: 0 <= j < k < |b.inputs| ==> b.inputs[j] != b.inputs[k]
    ensures ApplyBlock(l, b).Some?
  {
    forall k | 0 <= k < |b.inputs|
      ensures Spendable(l.outputs, l.spent, b.inputs[k])
    {
      assert IsUnspent(l, b.inputs[k]);
    }
    DistinctUnspentInputsSpend(l.outputs, l.spent, b.inputs);
  }

  // ---------------------------------------------------------------- commit / discard

  predicate WfSet(t: TxHashSet)
  {
    Wf(t.live) && Wf(t.committed)
  }

  /** `Commit`: the live state becomes the baseline, so a discard right
      after it changes nothing. */
  function Commit(t: TxHashSet): (r: TxHashSet)
    ensures r.live == t.live && Discard(r) == r
  {
    TxHashSet(t.live, t.live)
  }

  /** `Discard`: the live state goes back to the last commit. */
  function Discard(t: TxHashSet): (r: TxHashSet)
    ensures r.live == t.committed && r.committed == t.committed
  {
    TxHashSet(t.committed, t.committed)
  }

  /** Operations that change the live ledger without committing. */
  datatype Op = Apply(block: FullBlock) | RewindLast | RewindTo(header: BlockHeader)

  /** One operation on the live ledger; a failing one changes nothing. */
  function Step(t: TxHashSet, op: Op): (r: TxHashSet)
    requires WfSet(t)
    ensures WfSet(r) && r.committed == t.committed
  {
    match op
    case Apply(b) =>
      (match ApplyBlock(t.live, b)
       case None => t
       case Some(l) => TxHashSet(l, t.committed))
    case RewindLast =>
      if |t.live.applied| == 0 then t
      else TxHashSet(RewindBlock(t.live, t.live.applied[|t.live.applied| - 1].block), t.committed)
    case RewindTo(h) =>
      (match Rewind(t.live, h)
       case None => t
       case Some(l) => TxHashSet(l, t.committed))
  }

  function Run(t: TxHashSet, ops: seq<Op>): (r: TxHashSet)
    requires WfSet(t)
    ensures WfSet(r)
    decreases |ops|
  {
    if |ops| == 0 then t else Run(Step(t, ops[0]), ops[1..])
  }

  /** Whatever is applied or rewound after a commit, discarding returns to
      the committed state. */
  lemma {:induction false} DiscardRestoresCommit(t: TxHashSet, ops: seq<Op>)
    requires WfSet(t)
    ensures Discard(Run(Commit(t), ops)) == Commit(t)
  {
    RunKeepsCommitted(Commit(t), ops);
  }

  /** Discarding after any uncommitted applies and rewinds lands where
      discarding straight away would. */
  lemma {:induction false} DiscardUndoesRun(t: TxHashSet, ops: seq<Op>)
    requires WfSet(t)
    ensures Discard(Run(t, ops)) == Discard(t)
  {
    RunKeepsCommitted(t, ops);
  }

  lemma {:induction false} RunKeepsCommitted(t: TxHashSet, ops: seq<Op>)
    requires WfSet(t)
    ensures Run(t, ops).committed == t.committed
    decreases |ops|
  {
    if |ops| > 0 {
      RunKeepsCommitted(Step(t, ops[0]), ops[1..]);
    }
  }
}
