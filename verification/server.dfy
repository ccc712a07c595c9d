/** `BlockChainServer`: the façade the rest of the node calls. Block
    hydration, block processing and the transaction pool are function
    parameters; this module models the status each entry point reports. */
module Server {
  import opened Wrappers
  import opened Seqs
  import opened Types
  import opened Pmmr
  import opened Validator
  import opened Chains
  import opened Processor

  /** `EBlockChainStatus`. */
  datatype Status = Success | AlreadyExists | Orphaned | Invalid | TransactionsMissing

  datatype PoolType = Memory | Stem

  /** The collaborators whose code is not part of this model: `BlockHydrator`,
      `BlockProcessor::ProcessBlock` (the flag marks an orphan being
      retried) and `ITransactionPool::AddTransaction`. */
  datatype Collaborators = Collaborators(
    hydrate: (ChainState, CompactBlock) -> Option<FullBlock>,
    processBlock: (ChainState, FullBlock, bool) -> (Status, ChainState),
    addToPool: (Transaction, PoolType, BlockHeader) -> bool)

  /** The confirmed chain already holds this block at its height. */
  predicate AlreadyConfirmed(cs: ChainState, block: CompactBlock)
  {
    var confirmed := HeaderByHeight(cs, block.header.height, Confirmed);
    confirmed.Some? && confirmed.value.hash == block.header.hash
  }

  /** `AddCompactBlock`: a block already confirmed is reported without
      hydrating it; a block that cannot be hydrated, or whose hydrated form
      is invalid, is reported as missing transactions. */
  function AddCompactBlock(col: Collaborators, cs: ChainState, block: CompactBlock): (r: (Status, ChainState))
    ensures AlreadyConfirmed(cs, block) ==> r == (AlreadyExists, cs)
    ensures !AlreadyConfirmed(cs, block) && col.hydrate(cs, block).None? ==> r == (TransactionsMissing, cs)
    ensures !AlreadyConfirmed(cs, block) && col.hydrate(cs, block).Some? ==>
      var added := col.processBlock(cs, col.hydrate(cs, block).value, false);
      && r.1 == added.1
      && (added.0 == Invalid ==> r.0 == TransactionsMissing)
      && (added.0 != Invalid ==> r.0 == added.0)
    ensures r.0 != Invalid
  {
    if AlreadyConfirmed(cs, block) then (AlreadyExists, cs)
    else match col.hydrate(cs, block)
      case None => (TransactionsMissing, cs)
      case Some(full) =>
        var (added, next) := col.processBlock(cs, full, false);
        if added == Invalid then (TransactionsMissing, next) else (added, next)
  }

  /** For a block already confirmed, the answer does not depend on the
      hydrator or the block processor at all. */
  lemma AddCompactBlockSkipsHydration(col: Collaborators, other: Collaborators, cs: ChainState, block: CompactBlock)
    requires AlreadyConfirmed(cs, block)
    ensures AddCompactBlock(col, cs, block) == AddCompactBlock(other, cs, block)
  {
  }

  /** `ProcessTransactionHashSet`: SUCCESS when the snapshot was installed
      and the confirmed chain moved to its block, INVALID otherwise. */
  method ProcessTransactionHashSet(c: Crypto, cs: ChainState, blockHash: Hash, load: BlockHeader -> Option<Snapshot>)
    returns (status: Status, next: ChainState, effects: seq<Effect>)
    requires Wf(cs)
    requires BatchVerifiersAreConjunctions(c)
    ensures status == Success || status == Invalid
    ensures status == Success <==> Succeeds(c, cs, blockHash, load)
    ensures status == Success ==>
      var header := cs.headers[blockHash];
      && next.manager == Open(load(header).value)
      && header.height < |next.confirmed|
      && (SharedAncestry(cs.candidate, cs.confirmed) ==>
            next.confirmed[..header.height + 1] == cs.candidate[..header.height + 1])
  {
    var ok;
    ok, next, effects := ProcessTxHashSet(c, cs, blockHash, load);
    status := if ok then Success else Invalid;
    if ok && SharedAncestry(cs.candidate, cs.confirmed) {
      UpdatedConfirmedFollowsCandidate(cs, cs.headers[blockHash]);
    }
  }

  /** `GetTipBlockHeader`: the named chain's header at its own height. */
  function GetTipBlockHeader(cs: ChainState, t: ChainType): (r: Option<BlockHeader>)
    requires Wf(cs)
    ensures r.Some? <==> ChainOf(cs, t)[|ChainOf(cs, t)| - 1] in cs.headers
    ensures r.Some? ==> r.value == cs.headers[ChainOf(cs, t)[|ChainOf(cs, t)| - 1]]
  {
    HeaderByHeight(cs, Height(cs, t), t)
  }

  /** `AddTransaction`: INVALID when there is no confirmed tip header, and
      otherwise SUCCESS exactly when the pool takes the transaction
      against that header. */
  function AddTransaction(col: Collaborators, cs: ChainState, tx: Transaction, pool: PoolType): (r: Status)
    requires Wf(cs)
    ensures r == Success || r == Invalid
    ensures r == Success <==>
      GetTipBlockHeader(cs, Confirmed).Some? && col.addToPool(tx, pool, GetTipBlockHeader(cs, Confirmed).value)
  {
    match HeaderByHeight(cs, Height(cs, Confirmed), Confirmed)
    case Some(tip) => if col.addToPool(tx, pool, tip) then Success else Invalid
    case None => Invalid
  }

  /** The pool decision reads the chain state only through the confirmed
      tip header: states that agree on it give the same answer. */
  lemma AddTransactionReadsOnlyConfirmedTip(col: Collaborators, cs: ChainState, other: ChainState,
                                            tx: Transaction, pool: PoolType)
    requires Wf(cs) && Wf(other)
    requires GetTipBlockHeader(cs, Confirmed) == GetTipBlockHeader(other, Confirmed)
    ensures AddTransaction(col, cs, tx, pool) == AddTransaction(col, other, tx, pool)
  {
  }

  /** Every stored block is stored under the hash of its header, and that
      header is the stored one. */
  predicate BlocksMatchHeaders(cs: ChainState)
  {
    forall h :: h in cs.blocks ==> h in cs.headers && cs.blocks[h].header == cs.headers[h]
  }

  /** `GetBlockByHeight`: through the confirmed chain's header at that
      height, then the block stored under that header's hash. */
  function GetBlockByHeight(cs: ChainState, height: nat): (r: Option<FullBlock>)
    ensures r.Some? ==> height < |cs.confirmed| && cs.confirmed[height] in cs.headers
    ensures HeadersKeyedByHash(cs) && height < |cs.confirmed| && cs.confirmed[height] in cs.headers ==>
      r == BlockByHash(cs, cs.confirmed[height])
  {
    match HeaderByHeight(cs, height, Confirmed)
    case Some(header) => BlockByHash(cs, header.hash)
    case None => None
  }

  /** With consistent stores, the block found at a height carries the
      confirmed chain's header at that height. */
  lemma GetBlockByHeightMatchesConfirmedHeader(cs: ChainState, height: nat)
    requires HeadersKeyedByHash(cs) && BlocksMatchHeaders(cs)
    ensures GetBlockByHeight(cs, height).Some? ==>
      && HeaderByHeight(cs, height, Confirmed) == Some(GetBlockByHeight(cs, height).value.header)
      && GetBlockByHeight(cs, height).value.header.hash == cs.confirmed[height]
  {
  }

  /** The header lookups `GetBlockHeadersByHash` makes, in request order. */
  function LookupAll(cs: ChainState, hashes: seq<Hash>): (r: seq<Option<BlockHeader>>)
    ensures |r| == |hashes|
    ensures forall i :: 0 <= i < |hashes| ==> r[i] == HeaderByHash(cs, hashes[i])
  {
    seq(|hashes|, i requires 0 <= i < |hashes| => HeaderByHash(cs, hashes[i]))
  }

  /** `GetBlockHeadersByHash`: the known headers among `hashes`, in request
      order, unknown hashes skipped. */
  method GetBlockHeadersByHash(cs: ChainState, hashes: seq<Hash>) returns (headers: seq<BlockHeader>)
    ensures headers == Somes(LookupAll(cs, hashes))
    ensures |headers| <= |hashes|
    ensures forall k :: 0 <= k < |headers| ==> headers[k] in cs.headers.Values
  {
    headers := [];
    var i := 0;
    while i < |hashes|
      invariant 0 <= i <= |hashes|
      invariant headers == Somes(LookupAll(cs, hashes)[..i])
    {
      var lookups := LookupAll(cs, hashes);
      assert lookups[..i + 1] == lookups[..i] + [lookups[i]];
      SomesSnoc(lookups[..i], lookups[i]);
      if hashes[i] in cs.headers {
        headers := headers + [cs.headers[hashes[i]]];
      }
      i := i + 1;
    }
    assert LookupAll(cs, hashes)[..|hashes|] == LookupAll(cs, hashes);
    FoundHeadersAreStored(cs, hashes);
  }

  /** The lookups find at most one header per hash, each a stored one. */
  lemma FoundHeadersAreStored(cs: ChainState, hashes: seq<Hash>)
    ensures |Somes(LookupAll(cs, hashes))| <= |hashes|
    ensures forall k :: 0 <= k < |Somes(LookupAll(cs, hashes))| ==> Somes(LookupAll(cs, hashes))[k] in cs.headers.Values
  {
    var lookups := LookupAll(cs, hashes);
    SomesAtIndices(lookups);
    forall k | 0 <= k < |Somes(lookups)|
      ensures Somes(lookups)[k] in cs.headers.Values
    {
      var j := SomeIndices(lookups)[k];
      assert lookups[j] == HeaderByHash(cs, hashes[j]) == Some(Somes(lookups)[k]);
    }
  }

  /** `ProcessNextOrphanBlock`: retries the orphan stored for the candidate
      block one above the confirmed tip. */
  function ProcessNextOrphanBlock(col: Collaborators, cs: ChainState): (r: (bool, ChainState))
    requires Wf(cs)
    ensures var next := HeaderByHeight(cs, Height(cs, Confirmed) + 1, Candidate);
      && (next.None? ==> r == (false, cs))
      && (next.Some? && (next.value.height, next.value.hash) !in cs.orphans ==> r == (false, cs))
      && (next.Some? && (next.value.height, next.value.hash) in cs.orphans ==>
            var processed := col.processBlock(cs, cs.orphans[(next.value.height, next.value.hash)], true);
            r == (processed.0 == Success, processed.1))
    ensures r.0 ==> |cs.confirmed| < |cs.candidate|
  {
    match HeaderByHeight(cs, Height(cs, Confirmed) + 1, Candidate)
    case None => (false, cs)
    case Some(header) =>
      if (header.height, header.hash) !in cs.orphans then (false, cs)
      else
        var (status, next) := col.processBlock(cs, cs.orphans[(header.height, header.hash)], true);
        (status == Success, next)
  }
}
