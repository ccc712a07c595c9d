/** `TxHashSetProcessor`: installs a downloaded TxHashSet snapshot as the
    node's state, then moves the confirmed chain up to the snapshot's block. */
module Processor {
  import opened Wrappers
  import opened Seqs
  import opened Types
  import opened Pmmr
  import opened Validator
  import opened Chains

  /** The side effects the processor has on stores outside the chain state,
      in the order it performs them. */
  datatype Effect =
    | CloseTxHashSet
    | DestroyLoaded
    | StoreBlockSums(blockHash: Hash, sums: BlockSums)
    | SaveOutputPositions(header: BlockHeader, firstOutput: nat)
    | InstallTxHashSet

  /** The stored header of every candidate block at heights `lo..hi`,
      `None` where the store has none. */
  function HeadersAlong(cs: ChainState, lo: nat, hi: nat): (r: seq<Option<BlockHeader>>)
    requires hi < |cs.candidate|
    ensures |r| == if lo <= hi then hi + 1 - lo else 0
    ensures forall j :: 0 <= j < |r| ==> r[j] == HeaderByHeight(cs, lo + j, Candidate)
  {
    if lo <= hi then seq(hi + 1 - lo, j requires 0 <= j => HeaderByHeight(cs, lo + j, Candidate)) else []
  }

  /** The `SaveOutputPositions` calls of the loop over candidate heights
      `lo..hi`, each with the first output index it is given. */
  function PositionCalls(cs: ChainState, lo: nat, hi: nat, first: nat): (r: seq<(BlockHeader, nat)>)
    requires hi < |cs.candidate|
    ensures |r| > 0 ==> r[0].1 == first
    ensures forall k :: 0 < k < |r| ==> r[k].1 == r[k - 1].0.outputMmrSize
    decreases hi + 1 - lo
  {
    if lo > hi then []
    else match HeaderByHeight(cs, lo, Candidate)
      case None => PositionCalls(cs, lo + 1, hi, first)
      case Some(h) => [(h, first)] + PositionCalls(cs, lo + 1, hi, h.outputMmrSize)
  }

  function CallHeaders(calls: seq<(BlockHeader, nat)>): seq<BlockHeader>
  {
    seq(|calls|, k requires 0 <= k < |calls| => calls[k].0)
  }

  /** The loop visits every stored candidate header at heights `lo..hi`
      exactly once, in height order. */
  lemma {:induction false} PositionCallsVisitStoredHeaders(cs: ChainState, lo: nat, hi: nat, first: nat)
    requires hi < |cs.candidate|
    ensures CallHeaders(PositionCalls(cs, lo, hi, first)) == Somes(HeadersAlong(cs, lo, hi))
    decreases hi + 1 - lo
  {
    if lo > hi {
      assert HeadersAlong(cs, lo, hi) == [];
    } else {
      var x := HeaderByHeight(cs, lo, Candidate);
      var next := if x.Some? then x.value.outputMmrSize else first;
      PositionCallsVisitStoredHeaders(cs, lo + 1, hi, next);
      var along := HeadersAlong(cs, lo, hi);
      assert along == [x] + HeadersAlong(cs, lo + 1, hi);
      SomesCons(x, HeadersAlong(cs, lo + 1, hi));
      var rest := PositionCalls(cs, lo + 1, hi, next);
      if x.Some? {
        assert PositionCalls(cs, lo, hi, first) == [(x.value, first)] + rest;
        assert CallHeaders([(x.value, first)] + rest) == [x.value] + CallHeaders(rest);
      }
    }
  }

  function SaveEffects(calls: seq<(BlockHeader, nat)>): (r: seq<Effect>)
    ensures |r| == |calls|
    ensures forall k :: 0 <= k < |r| ==> r[k] == SaveOutputPositions(calls[k].0, calls[k].1)
  {
    seq(|calls|, k requires 0 <= k < |calls| => SaveOutputPositions(calls[k].0, calls[k].1))
  }

  /** `GetBlockHeaderByHeight(height, CANDIDATE)` as the validator sees it. */
  function CandidateLookup(cs: ChainState): nat -> Option<BlockHeader>
  {
    (h: nat) => HeaderByHeight(cs, h, Candidate)
  }

  /** The snapshot passes every validation step against `header`. */
  ghost predicate SnapshotValid(c: Crypto, s: Snapshot, header: BlockHeader, cs: ChainState)
  {
    forall st :: Passes(c, s, header, CandidateLookup(cs), st)
  }

  /** The effects of a run that got past validation. */
  function InstallEffects(cs: ChainState, header: BlockHeader, sums: BlockSums): seq<Effect>
    requires header.height < |cs.candidate|
  {
    [CloseTxHashSet, StoreBlockSums(header.hash, sums)]
      + SaveEffects(PositionCalls(cs, 0, header.height, 0))
      + [InstallTxHashSet]
  }

  /** Steps 4 to 6 of `ProcessTxHashSet`, once the snapshot `s` has been
      validated with sums `sums`: store the sums, save the output positions,
      install the snapshot, then move the confirmed chain; if that fails the
      snapshot is closed again. */
  function Install(cs: ChainState, header: BlockHeader, s: Snapshot, sums: BlockSums): (r: (bool, ChainState, seq<Effect>))
    requires Wf(cs)
    requires header.height < |cs.candidate|
    ensures r.1.blockSums == cs.blockSums[header.hash := sums]
    ensures r.0 <==> cs.candidate[header.height] == header.hash
    ensures r.0 ==>
      && r.1 == UpdateConfirmedChain(cs, header).1.(manager := Open(s), blockSums := r.1.blockSums)
      && r.2 == InstallEffects(cs, header, sums)
    ensures !r.0 ==>
      && r.1 == cs.(manager := Closed, blockSums := r.1.blockSums)
      && r.2 == InstallEffects(cs, header, sums) + [CloseTxHashSet]
  {
    var stored := cs.(manager := Closed, blockSums := cs.blockSums[header.hash := sums]);
    var effects := [CloseTxHashSet, StoreBlockSums(header.hash, sums)]
      + SaveEffects(PositionCalls(cs, 0, header.height, 0));
    var installed := stored.(manager := Open(s));
    var (updated, moved) := UpdateConfirmedChain(installed, header);
    if updated then (true, moved, effects + [InstallTxHashSet])
    else (false, installed.(manager := Closed), effects + [InstallTxHashSet, CloseTxHashSet])
  }

  /** Everything `ProcessTxHashSet` needs to succeed: a known header, a
      snapshot that loads and validates, and the header being the candidate
      block at its height. */
  ghost predicate Succeeds(c: Crypto, cs: ChainState, blockHash: Hash, load: BlockHeader -> Option<Snapshot>)
  {
    && blockHash in cs.headers
    && load(cs.headers[blockHash]).Some?
    && SnapshotValid(c, load(cs.headers[blockHash]).value, cs.headers[blockHash], cs)
    && cs.headers[blockHash].height < |cs.candidate|
    && cs.candidate[cs.headers[blockHash].height] == cs.headers[blockHash].hash
  }

  /** `ProcessTxHashSet`: `load` stands for extracting the downloaded zip
      against the header. */
  method ProcessTxHashSet(c: Crypto, cs: ChainState, blockHash: Hash, load: BlockHeader -> Option<Snapshot>)
    returns (ok: bool, next: ChainState, effects: seq<Effect>)
    requires Wf(cs)
    requires BatchVerifiersAreConjunctions(c)
    ensures ok <==> Succeeds(c, cs, blockHash, load)
    ensures ok ==>
      && next.manager == Open(load(cs.headers[blockHash]).value)
      && next.confirmed == UpdateConfirmedChain(cs, cs.headers[blockHash]).1.confirmed
    // Unknown block: nothing happens.
    ensures blockHash !in cs.headers ==> !ok && next == cs && effects == []
    // The snapshot fails to load: the live TxHashSet has been closed.
    ensures (blockHash in cs.headers && load(cs.headers[blockHash]).None?) ==>
      !ok && next == cs.(manager := Closed) && effects == [CloseTxHashSet]
    // The snapshot is invalid: it is destroyed, and the live one stays closed.
    ensures (blockHash in cs.headers && load(cs.headers[blockHash]).Some?
             && !SnapshotValid(c, load(cs.headers[blockHash]).value, cs.headers[blockHash], cs)) ==>
      !ok && next == cs.(manager := Closed) && effects == [CloseTxHashSet, DestroyLoaded]
    // A valid snapshot: its header is on the candidate chain's height range
    // (the kernel history check reached it), its sums are stored and its
    // output positions saved before it is installed; the run succeeds
    // exactly when the header is the candidate block at its height.
    ensures (blockHash in cs.headers && load(cs.headers[blockHash]).Some?
             && SnapshotValid(c, load(cs.headers[blockHash]).value, cs.headers[blockHash], cs)) ==>
      var header := cs.headers[blockHash];
      var s := load(header).value;
      && header.height < |cs.candidate|
      && ValidateKernelSums(c, s, header).Some?
      && next.blockSums == cs.blockSums[header.hash := ValidateKernelSums(c, s, header).value]
      && (ok <==> cs.candidate[header.height] == header.hash)
      && (ok ==>
            && next == UpdateConfirmedChain(cs, header).1.(manager := Open(s), blockSums := next.blockSums)
            && effects == InstallEffects(cs, header, ValidateKernelSums(c, s, header).value))
      && (!ok ==>
            && next == cs.(manager := Closed, blockSums := next.blockSums)
            && effects == InstallEffects(cs, header, ValidateKernelSums(c, s, header).value) + [CloseTxHashSet])
  {
    if blockHash !in cs.headers {
      return false, cs, [];
    }
    var header := cs.headers[blockHash];

    // 1. Close the live TxHashSet.
    next := cs.(manager := Closed);
    effects := [CloseTxHashSet];

    // 2. Load the snapshot.
    var loaded := load(header);
    if loaded.None? {
      return false, next, effects;
    }
    var s := loaded.value;

    // 3. Validate it.
    var verdict := Validate(c, s, header, CandidateLookup(cs));
    if verdict.Rejected? {
      return false, next, effects + [DestroyLoaded];
    }
    assert HistoryOk(c.mmr, s.kernels, CandidateLookup(cs), header.height) by {
      assert Passes(c, s, header, CandidateLookup(cs), HistoryCheck);
    }
    var r := Install(cs, header, s, verdict.sums);
    ok, next, effects := r.0, r.1, r.2;
  }
}
