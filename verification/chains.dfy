/** Chain state: the candidate chain (best known headers) and the confirmed
    chain (blocks applied to the TxHashSet), each a sequence of block hashes
    indexed by height, over the stores that the lookups read. */
module Chains {
  import opened Wrappers
  import opened Types
  import opened Pmmr

  datatype ChainType = Candidate | Confirmed

  /** The slot `TxHashSetManager` keeps for the live TxHashSet. */
  datatype Manager = Closed | Open(txHashSet: Snapshot)

  datatype ChainState = ChainState(
    candidate: seq<Hash>,
    confirmed: seq<Hash>,
    headers: map<Hash, BlockHeader>,
    blocks: map<Hash, FullBlock>,
    orphans: map<(nat, Hash), FullBlock>,
    blockSums: map<Hash, BlockSums>,
    manager: Manager)

  /** Both chains start at the same genesis block. */
  predicate Wf(cs: ChainState)
  {
    |cs.candidate| > 0 && |cs.confirmed| > 0 && cs.candidate[0] == cs.confirmed[0]
  }

  function ChainOf(cs: ChainState, t: ChainType): seq<Hash>
  {
    match t
    case Candidate => cs.candidate
    case Confirmed => cs.confirmed
  }

  /** Every header is stored under its own hash. */
  predicate HeadersKeyedByHash(cs: ChainState)
  {
    forall h :: h in cs.headers ==> cs.headers[h].hash == h
  }

  /** `GetBlockHeaderByHash`: the stored header, none for an unknown hash. */
  function HeaderByHash(cs: ChainState, hash: Hash): (r: Option<BlockHeader>)
    ensures r.Some? <==> hash in cs.headers
    ensures r.Some? ==> r.value in cs.headers.Values
    ensures HeadersKeyedByHash(cs) && r.Some? ==> r.value.hash == hash
  {
    if hash in cs.headers then Some(cs.headers[hash]) else None
  }

  /** `GetBlockHeaderByHeight`: the stored header of the chain's block at `height`. */
  function HeaderByHeight(cs: ChainState, height: nat, t: ChainType): (r: Option<BlockHeader>)
    ensures r.Some? <==> height < |ChainOf(cs, t)| && ChainOf(cs, t)[height] in cs.headers
    ensures r.Some? ==> r.value in cs.headers.Values
    ensures HeadersKeyedByHash(cs) && r.Some? ==> r.value.hash == ChainOf(cs, t)[height]
  {
    var chain := ChainOf(cs, t);
    if height < |chain| then HeaderByHash(cs, chain[height]) else None
  }

  /** `GetHeight`: the height of a chain's tip, the last height the chain
      holds a block at. */
  function Height(cs: ChainState, t: ChainType): (h: nat)
    requires Wf(cs)
    ensures h < |ChainOf(cs, t)|
    ensures HeaderByHeight(cs, h + 1, t).None?
  {
    |ChainOf(cs, t)| - 1
  }

  /** `GetBlockByHash`. */
  function BlockByHash(cs: ChainState, hash: Hash): Option<FullBlock>
  {
    if hash in cs.blocks then Some(cs.blocks[hash]) else None
  }

  /** The highest height `<= k` at which both chains hold the same hash. */
  function CommonAtOrBelow(a: seq<Hash>, b: seq<Hash>, k: nat): (r: nat)
    requires k < |a| && k < |b| && a[0] == b[0]
    ensures r <= k && a[r] == b[r]
    ensures forall j :: r < j <= k ==> a[j] != b[j]
  {
    if a[k] == b[k] || k == 0 then k else CommonAtOrBelow(a, b, k - 1)
  }

  /** `FindCommonIndex`: the highest height at which both chains agree. */
  function FindCommonIndex(a: seq<Hash>, b: seq<Hash>): (r: nat)
    requires |a| > 0 && |b| > 0 && a[0] == b[0]
    ensures r < |a| && r < |b| && a[r] == b[r]
    ensures forall j :: r < j < |a| && j < |b| ==> a[j] != b[j]
  {
    CommonAtOrBelow(a, b, if |a| < |b| then |a| - 1 else |b| - 1)
  }

  /** Fork choice is deterministic: for two chains that agree up to height
      `fork` and differ at every height above it, the common index is `fork`
      whichever chain is asked first. */
  lemma FindCommonIndexIsForkPoint(a: seq<Hash>, b: seq<Hash>, fork: nat)
    requires fork < |a| && fork < |b|
    requires forall k :: 0 <= k <= fork ==> a[k] == b[k]
    requires forall k :: fork < k < |a| && k < |b| ==> a[k] != b[k]
    ensures FindCommonIndex(a, b) == fork
    ensures FindCommonIndex(b, a) == fork
  {
    assert a[fork] == b[fork] && b[fork] == a[fork];
  }

  /** A block hash fixes the whole path below it: whenever the two chains
      agree at a height they agree at every lower height (the block-index
      tree guarantees this through parent links). */
  ghost predicate SharedAncestry(a: seq<Hash>, b: seq<Hash>)
  {
    forall h, k :: 0 <= k <= h < |a| && h < |b| && a[h] == b[h] ==> a[k] == b[k]
  }

  /** `UpdateConfirmedChain`: rewinds the confirmed chain to its common
      ancestor with the candidate chain and extends it with the candidate
      blocks up to `header`. Fails, changing nothing, when the candidate
      block at the header's height is a different one. */
  function UpdateConfirmedChain(cs: ChainState, header: BlockHeader): (r: (bool, ChainState))
    requires Wf(cs)
    requires header.height < |cs.candidate|
    ensures !r.0 <==> cs.candidate[header.height] != header.hash
    ensures !r.0 ==> r.1 == cs
    ensures r.0 ==>
      var c := FindCommonIndex(cs.candidate, cs.confirmed);
      && r.1 == cs.(confirmed := r.1.confirmed)
      && |r.1.confirmed| == (if c < header.height then header.height else c) + 1
      && |r.1.confirmed| <= |cs.candidate|
      && (forall k :: 0 <= k <= c ==> r.1.confirmed[k] == cs.confirmed[k])
      && (forall k :: c <= k <= header.height ==> r.1.confirmed[k] == cs.candidate[k])
  {
    if cs.candidate[header.height] != header.hash then (false, cs)
    else
      var c := FindCommonIndex(cs.candidate, cs.confirmed);
      var rewound := cs.confirmed[..c + 1];
      var extended := if c < header.height then rewound + cs.candidate[c + 1..header.height + 1] else rewound;
      (true, cs.(confirmed := extended))
  }

  /** With shared ancestry, a successful update leaves the confirmed chain
      equal to the candidate chain at every height up to the header. */
  lemma UpdatedConfirmedFollowsCandidate(cs: ChainState, header: BlockHeader)
    requires Wf(cs)
    requires header.height < |cs.candidate|
    requires SharedAncestry(cs.candidate, cs.confirmed)
    requires UpdateConfirmedChain(cs, header).0
    ensures Wf(UpdateConfirmedChain(cs, header).1)
    ensures UpdateConfirmedChain(cs, header).1.confirmed[..header.height + 1] == cs.candidate[..header.height + 1]
  {
    var c := FindCommonIndex(cs.candidate, cs.confirmed);
    var next := UpdateConfirmedChain(cs, header).1;
    forall k | 0 <= k <= header.height
      ensures next.confirmed[k] == cs.candidate[k]
    {
      if k <= c {
        assert cs.candidate[c] == cs.confirmed[c];
        assert cs.candidate[k] == cs.confirmed[k];
      }
    }
  }
}
