/** `StateSyncer`: decides when a node far behind the header chain should
    ask a peer for a TxHashSet snapshot instead of downloading full blocks.
    The wall clock is an integer `now` in seconds; the peer calls are
    function parameters. */
module StateSyncer {
  import opened Wrappers
  import opened Types
  import opened Consensus

  /** Give up on a snapshot download after ten minutes. */
  const DOWNLOAD_TIMEOUT: nat := 600
  /** Try another peer after thirty seconds without a single byte. */
  const STALL_TIMEOUT: nat := 30

  datatype SyncStage = ProcessingTxHashSet | TxHashSetSyncFailed | OtherStage

  datatype SyncStatus = SyncStatus(stage: SyncStage, headerHeight: U64, blockHeight: U64, downloaded: U64)

  /** The syncer's own state: the requested snapshot height (0 before the
      first request), when it was requested and from which connection
      (0 for none). */
  datatype Syncer = Syncer(requestedHeight: U64, timeRequested: int, connectionId: U64)

  function Initial(now: int): (st: Syncer)
    ensures st.requestedHeight == 0 && st.connectionId == 0
  {
    Syncer(0, now, 0)
  }

  /** When a snapshot is due, stated over unbounded integers: the node is a
      full horizon behind its headers and has no snapshot request in flight
      that is still making progress. */
  ghost predicate SyncWanted(st: Syncer, ss: SyncStatus, now: int)
  {
    && ss.stage != ProcessingTxHashSet
    && (ss.stage == TxHashSetSyncFailed
        || (&& ss.blockHeight + CUT_THROUGH_HORIZON <= ss.headerHeight
            && (|| st.requestedHeight == 0
                || (&& ss.blockHeight < st.requestedHeight
                    && (|| now - st.timeRequested > DOWNLOAD_TIMEOUT
                        || (now - st.timeRequested > STALL_TIMEOUT && ss.downloaded == 0))))))
  }

  /** `IsStateSyncDue`, with its `uint64_t` subtraction. The horizon guard
      keeps that subtraction from wrapping, so the decision is the unbounded
      one. */
  function IsStateSyncDue(st: Syncer, ss: SyncStatus, now: int): (due: bool)
    ensures due <==> SyncWanted(st, ss, now)
  {
    if ss.stage == ProcessingTxHashSet then false
    else if ss.stage == TxHashSetSyncFailed then true
    else if ss.headerHeight < CUT_THROUGH_HORIZON then false
    else
      assert Sub64(ss.headerHeight, CUT_THROUGH_HORIZON) == ss.headerHeight - CUT_THROUGH_HORIZON;
      if ss.blockHeight > Sub64(ss.headerHeight, CUT_THROUGH_HORIZON) then false
      else if st.requestedHeight == 0 then true
      else if ss.blockHeight >= st.requestedHeight then false
      else if st.timeRequested + DOWNLOAD_TIMEOUT < now then true
      else if st.timeRequested + STALL_TIMEOUT < now then ss.downloaded == 0
      else false
  }

  /** Once due, a snapshot stays due as time passes. */
  lemma IsStateSyncDueStaysDue(st: Syncer, ss: SyncStatus, now: int, later: int)
    requires now <= later
    ensures IsStateSyncDue(st, ss, now) ==> IsStateSyncDue(st, ss, later)
  {
  }

  /** The `TxHashSetRequestMessage`: block hash and height of the snapshot. */
  datatype Request = Request(hash: Hash, height: U64)

  datatype RequestResult = RequestResult(ok: bool, syncer: Syncer, banned: Option<U64>, sent: Request)

  /** `RequestState` as written: asks the most-work peer (`send` returns
      the connection id it used, 0 when there was none) for the snapshot
      `STATE_SYNC_THRESHOLD` blocks below the header tip, banning the peer
      of the previous request. The source dereferences the candidate header
      at the requested height unchecked, hence the precondition; see
      `SyncFailedBelowThresholdLacksHeader` for a status that breaks it. */
  function RequestState(st: Syncer, ss: SyncStatus, now: int,
                        candidateAt: U64 -> Option<BlockHeader>, send: Request -> U64): (r: RequestResult)
    requires candidateAt(Sub64(ss.headerHeight, STATE_SYNC_THRESHOLD)).Some?
    ensures r.sent.height == Sub64(ss.headerHeight, STATE_SYNC_THRESHOLD)
    ensures ss.headerHeight >= STATE_SYNC_THRESHOLD ==> r.sent.height + STATE_SYNC_THRESHOLD == ss.headerHeight
    // Below the threshold (reachable after a failed download, which skips
    // the horizon guard) the requested height wraps to just under 2^64.
    ensures ss.headerHeight < STATE_SYNC_THRESHOLD ==> r.sent.height >= TWO_TO_64 - STATE_SYNC_THRESHOLD
    ensures r.sent.hash == candidateAt(r.sent.height).value.hash
    ensures r.banned.Some? <==> st.connectionId > 0
    ensures r.banned.Some? ==> r.banned.value == st.connectionId
    ensures r.syncer.connectionId == send(r.sent)
    ensures r.ok <==> r.syncer.connectionId > 0
    ensures r.ok ==> r.syncer.requestedHeight == r.sent.height && r.syncer.timeRequested == now
    ensures !r.ok ==> r.syncer.requestedHeight == st.requestedHeight && r.syncer.timeRequested == st.timeRequested
  {
    var height := Sub64(ss.headerHeight, STATE_SYNC_THRESHOLD);
    var request := Request(candidateAt(height).value.hash, height);
    var banned := if st.connectionId > 0 then Some(st.connectionId) else None;
    var id := send(request);
    if id > 0 then RequestResult(true, Syncer(height, now, id), banned, request)
    else RequestResult(false, st.(connectionId := id), banned, request)
  }

  /** Right after a successful request the snapshot is no longer due, unless
      the status reports a failed download. */
  lemma RequestStateSettles(st: Syncer, ss: SyncStatus, now: int,
                            candidateAt: U64 -> Option<BlockHeader>, send: Request -> U64)
    requires candidateAt(Sub64(ss.headerHeight, STATE_SYNC_THRESHOLD)).Some?
    requires RequestState(st, ss, now, candidateAt, send).ok
    requires ss.stage != TxHashSetSyncFailed
    ensures !IsStateSyncDue(RequestState(st, ss, now, candidateAt, send).syncer, ss, now)
  {
  }

  /** The candidate chain answers only heights up to the header tip. */
  ghost predicate LookupWithinTip(candidateAt: U64 -> Option<BlockHeader>, ss: SyncStatus)
  {
    forall h: U64 :: candidateAt(h).Some? ==> h <= ss.headerHeight
  }

  /** A failed download reported below `STATE_SYNC_THRESHOLD` headers makes
      a snapshot due, yet the wrapped height it asks for has no candidate
      header: `RequestState`'s precondition cannot hold, where the source
      dereferences a null header. */
  lemma SyncFailedBelowThresholdLacksHeader(st: Syncer, ss: SyncStatus, now: int,
                                            candidateAt: U64 -> Option<BlockHeader>)
    requires ss.stage == TxHashSetSyncFailed
    requires ss.headerHeight < STATE_SYNC_THRESHOLD
    requires LookupWithinTip(candidateAt, ss)
    ensures IsStateSyncDue(st, ss, now)
    ensures candidateAt(Sub64(ss.headerHeight, STATE_SYNC_THRESHOLD)).None?
  {
    assert Sub64(ss.headerHeight, STATE_SYNC_THRESHOLD) > ss.headerHeight;
  }

  /** `RequestState` with the candidate header checked: no request, and no
      change to the syncer, when the chain has no header at the requested
      height. */
  function RequestStateChecked(st: Syncer, ss: SyncStatus, now: int,
                               candidateAt: U64 -> Option<BlockHeader>, send: Request -> U64): (r: Option<RequestResult>)
    ensures r.None? <==> candidateAt(Sub64(ss.headerHeight, STATE_SYNC_THRESHOLD)).None?
    ensures r.Some? ==> r.value == RequestState(st, ss, now, candidateAt, send)
  {
    if candidateAt(Sub64(ss.headerHeight, STATE_SYNC_THRESHOLD)).Some? then Some(RequestState(st, ss, now, candidateAt, send))
    else None
  }

  /** Against a candidate chain that ends at the header tip, every request
      the checked version sends is exactly `STATE_SYNC_THRESHOLD` below the
      tip and names the candidate block there: the height never wraps. */
  lemma RequestStateCheckedNeverWraps(st: Syncer, ss: SyncStatus, now: int,
                                      candidateAt: U64 -> Option<BlockHeader>, send: Request -> U64)
    requires LookupWithinTip(candidateAt, ss)
    ensures var r := RequestStateChecked(st, ss, now, candidateAt, send);
      r.Some? ==>
        && r.value.sent.height + STATE_SYNC_THRESHOLD == ss.headerHeight
        && candidateAt(r.value.sent.height).Some?
        && r.value.sent.hash == candidateAt(r.value.sent.height).value.hash
  {
    var height := Sub64(ss.headerHeight, STATE_SYNC_THRESHOLD);
    if ss.headerHeight < STATE_SYNC_THRESHOLD {
      assert height > ss.headerHeight;
    }
  }

  datatype SyncResult = SyncResult(syncing: bool, syncer: Syncer, request: Option<RequestResult>)

  /** `SyncState`: requests a snapshot when one is due, through the checked
      request; reports whether block sync must wait, which it must while a
      snapshot is due or a requested one is above the block tip. */
  function SyncState(st: Syncer, ss: SyncStatus, now: int,
                     candidateAt: U64 -> Option<BlockHeader>, send: Request -> U64): (r: SyncResult)
    ensures r.request.Some? <==>
      IsStateSyncDue(st, ss, now) && candidateAt(Sub64(ss.headerHeight, STATE_SYNC_THRESHOLD)).Some?
    ensures r.request.Some? ==> r.request.value == RequestState(st, ss, now, candidateAt, send) && r.syncer == r.request.value.syncer
    ensures r.request.None? ==> r.syncer == st
    ensures r.syncing <==> IsStateSyncDue(st, ss, now) || ss.blockHeight < st.requestedHeight
  {
    if IsStateSyncDue(st, ss, now) then
      match RequestStateChecked(st, ss, now, candidateAt, send)
      case Some(req) => SyncResult(true, req.syncer, Some(req))
      case None => SyncResult(true, st, None)
    else
      SyncResult(ss.blockHeight < st.requestedHeight, st, None)
  }

  /** A successful request is not repeated by another `SyncState` at the
      same moment, unless the status reports a failed download. */
  lemma SyncStateSettles(st: Syncer, ss: SyncStatus, now: int,
                         candidateAt: U64 -> Option<BlockHeader>, send: Request -> U64)
    requires SyncState(st, ss, now, candidateAt, send).request.Some?
    requires SyncState(st, ss, now, candidateAt, send).request.value.ok
    requires ss.stage != TxHashSetSyncFailed
    ensures var next := SyncState(st, ss, now, candidateAt, send).syncer;
      && SyncState(next, ss, now, candidateAt, send).request.None?
      && SyncState(next, ss, now, candidateAt, send).syncer == next
  {
    RequestStateSettles(st, ss, now, candidateAt, send);
  }
}
