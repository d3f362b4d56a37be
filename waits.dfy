/**
  The four wait loops of the CC-pair manager. Each iteration makes one fetch
  (the next element of `fetches`), applies its test, and only then compares
  the elapsed time on the monotonic clock (the next element of `clock`) with
  the budget; the sleep between iterations is what moves the clock on and is
  not modelled otherwise. Each method returns how the wait ended and how many
  fetches it made, and is proved equal to the poller's reference meaning
  `Poll` applied to the verdicts of its test.
 */
module Waits {
  import opened Records
  import opened Poller
  import opened Completion

  /** Waits until some entry of the pair is idle with a last success strictly after `after`. */
  method WaitForIndexing(
    pair: TestCCPair, after: int, timeout: int,
    fetches: seq<Fetch<seq<IndexingStatus>>>, clock: seq<int>)
    returns (outcome: Outcome, fetchCount: nat)
    requires |clock| == |fetches| + 1
    ensures (outcome, fetchCount) == Poll(IndexingVerdicts(pair.id, after, fetches), clock, timeout, 0)
    ensures outcome == Done ==>
      1 <= fetchCount <= |fetches| && fetches[fetchCount - 1].Got? &&
      var listed := fetches[fetchCount - 1].value;
      exists m :: 0 <= m < |listed| && listed[m].ccPairId == pair.id && !listed[m].inProgress &&
        listed[m].lastSuccess.Some? && listed[m].lastSuccess.value > after
  {
    ghost var verdicts := IndexingVerdicts(pair.id, after, fetches);
    var start := clock[0];
    var i := 0;
    while i < |fetches|
      invariant 0 <= i <= |fetches|
      invariant Poll(verdicts, clock, timeout, i) == Poll(verdicts, clock, timeout, 0)
    {
      var fetched := fetches[i];
      if fetched.TransportFailed? {
        return Error(TransportError), i + 1;
      }
      var listed := fetched.value;
      var k := 0;
      while k < |listed|
        invariant 0 <= k <= |listed|
        invariant forall m :: 0 <= m < k ==> !FreshSuccess(listed[m], pair.id, after)
      {
        var entry := listed[k];
        if entry.ccPairId != pair.id || entry.inProgress {
          k := k + 1;
          continue;
        }
        if entry.lastSuccess.Some? && entry.lastSuccess.value > after {
          assert FreshSuccess(listed[k], pair.id, after);
          return Done, i + 1;
        }
        k := k + 1;
      }
      var elapsed := clock[i + 1] - start;
      if elapsed > timeout {
        return Timeout, i + 1;
      }
      i := i + 1;
    }
    return StillWaiting, |fetches|;
  }

  /** Waits until the last-pruned time is present and strictly after `after`. */
  method WaitForPrune(
    after: int, timeout: int, parseIso: string -> Option<int>,
    fetches: seq<Fetch<JsonValue>>, clock: seq<int>)
    returns (outcome: Outcome, fetchCount: nat)
    requires |clock| == |fetches| + 1
    ensures (outcome, fetchCount) == Poll(PruneVerdicts(after, parseIso, fetches), clock, timeout, 0)
    ensures outcome == Done ==>
      1 <= fetchCount <= |fetches| && fetches[fetchCount - 1].Got? &&
      LastPruned(fetches[fetchCount - 1].value, parseIso).Some? &&
      LastPruned(fetches[fetchCount - 1].value, parseIso).value > after
  {
    ghost var verdicts := PruneVerdicts(after, parseIso, fetches);
    var start := clock[0];
    var i := 0;
    while i < |fetches|
      invariant 0 <= i <= |fetches|
      invariant Poll(verdicts, clock, timeout, i) == Poll(verdicts, clock, timeout, 0)
    {
      var fetched := fetches[i];
      if fetched.TransportFailed? {
        return Error(TransportError), i + 1;
      }
      var lastPruned := LastPruned(fetched.value, parseIso);
      if lastPruned.Some? && lastPruned.value > after {
        return Done, i + 1;
      }
      var elapsed := clock[i + 1] - start;
      if elapsed > timeout {
        return Timeout, i + 1;
      }
      i := i + 1;
    }
    return StillWaiting, |fetches|;
  }

  /**
    Waits until the sync task succeeds; a missing task, or one registered
    too early, is an error at once rather than a timeout.
   */
  method WaitForSync(
    after: int, timeout: int,
    fetches: seq<Fetch<Option<SyncTask>>>, clock: seq<int>)
    returns (outcome: Outcome, fetchCount: nat)
    requires |clock| == |fetches| + 1
    ensures (outcome, fetchCount) == Poll(SyncVerdicts(after, fetches), clock, timeout, 0)
    ensures outcome == Error(SyncTaskNotFound) ==> fetches[fetchCount - 1] == Got(None)
    ensures outcome == Done ==>
      1 <= fetchCount <= |fetches| && fetches[fetchCount - 1].Got? && fetches[fetchCount - 1].value.Some? &&
      fetches[fetchCount - 1].value.value.status == Success &&
      fetches[fetchCount - 1].value.value.registerTime.Some? &&
      fetches[fetchCount - 1].value.value.registerTime.value >= after
  {
    ghost var verdicts := SyncVerdicts(after, fetches);
    var start := clock[0];
    var i := 0;
    while i < |fetches|
      invariant 0 <= i <= |fetches|
      invariant Poll(verdicts, clock, timeout, i) == Poll(verdicts, clock, timeout, 0)
    {
      var fetched := fetches[i];
      if fetched.TransportFailed? {
        return Error(TransportError), i + 1;
      }
      var task := fetched.value;
      if task.None? {
        return Error(SyncTaskNotFound), i + 1;
      }
      if task.value.registerTime.None? || task.value.registerTime.value < after {
        return Error(SyncTaskTooEarly), i + 1;
      }
      if task.value.status == Success {
        return Done, i + 1;
      }
      var elapsed := clock[i + 1] - start;
      if elapsed > timeout {
        return Timeout, i + 1;
      }
      i := i + 1;
    }
    return StillWaiting, |fetches|;
  }

  /** The scan of the per-id deletion mode: whether some entry still carries `id`. */
  method IdListed(id: int, ccPairs: seq<IndexingStatus>) returns (found: bool)
    ensures found <==> exists m :: 0 <= m < |ccPairs| && ccPairs[m].ccPairId == id
  {
    found := false;
    var k := 0;
    while k < |ccPairs|
      invariant 0 <= k <= |ccPairs|
      invariant forall m :: 0 <= m < k ==> ccPairs[m].ccPairId != id
    {
      if ccPairs[k].ccPairId == id {
        found := true;
        break;
      }
      k := k + 1;
    }
  }

  /**
    With a non-zero id, waits until no entry carries it; with no id or id 0,
    waits until no entry is DELETING. The budget is `maxDelay` (MAX_DELAY).
   */
  method WaitForDeletionCompletion(
    ccPairId: Option<int>, maxDelay: int,
    fetches: seq<Fetch<seq<IndexingStatus>>>, clock: seq<int>)
    returns (outcome: Outcome, fetchCount: nat)
    requires |clock| == |fetches| + 1
    ensures (outcome, fetchCount) == Poll(DeletionVerdicts(ccPairId, fetches), clock, maxDelay, 0)
    ensures outcome == Done ==>
      1 <= fetchCount <= |fetches| && fetches[fetchCount - 1].Got? &&
      var listed := fetches[fetchCount - 1].value;
      (ccPairId.Some? && ccPairId.value != 0 ==> forall m :: 0 <= m < |listed| ==> listed[m].ccPairId != ccPairId.value) &&
      (ccPairId.None? || ccPairId.value == 0 ==> forall m :: 0 <= m < |listed| ==> listed[m].status != Deleting)
  {
    ghost var verdicts := DeletionVerdicts(ccPairId, fetches);
    var start := clock[0];
    var i := 0;
    while i < |fetches|
      invariant 0 <= i <= |fetches|
      invariant Poll(verdicts, clock, maxDelay, i) == Poll(verdicts, clock, maxDelay, 0)
    {
      var fetched := fetches[i];
      if fetched.TransportFailed? {
        return Error(TransportError), i + 1;
      }
      var ccPairs := fetched.value;
      var done: bool;
      if ccPairId.Some? && ccPairId.value != 0 {
        var found := IdListed(ccPairId.value, ccPairs);
        done := !found;
      } else {
        done := forall m | 0 <= m < |ccPairs| :: ccPairs[m].status != Deleting;
      }
      assert done == DeletionDone(ccPairId, ccPairs);
      assert verdicts[i] == if done then Satisfied else NotYet;
      if done {
        return Done, i + 1;
      }
      if clock[i + 1] - start > maxDelay {
        return Timeout, i + 1;
      }
      i := i + 1;
    }
    return StillWaiting, |fetches|;
  }

  // ---- properties of whole waits ----

  /**
    Two fetches with the pair still in progress (the second already carrying
    a success time past `after`), then one with the run finished at `after + 10`:
    the indexing wait ends with Done after exactly three fetches.
   */
  lemma IndexingAfterThreeFetches(pair: TestCCPair, after: int, timeout: int, clock: seq<int>)
    requires |clock| == 4 && clock[1] - clock[0] <= timeout && clock[2] - clock[0] <= timeout
    ensures
      var busy := IndexingStatus(pair.id, pair.name, pair.connectorId, pair.credentialId,
        pair.accessType, pair.groups, Active, true, None);
      var fetches := [Got([busy]), Got([busy.(lastSuccess := Some(after + 20))]),
        Got([busy.(inProgress := false, lastSuccess := Some(after + 10))])];
      Poll(IndexingVerdicts(pair.id, after, fetches), clock, timeout, 0) == (Done, 3)
  {
    var busy := IndexingStatus(pair.id, pair.name, pair.connectorId, pair.credentialId,
      pair.accessType, pair.groups, Active, true, None);
    var fetches := [Got([busy]), Got([busy.(lastSuccess := Some(after + 20))]),
      Got([busy.(inProgress := false, lastSuccess := Some(after + 10))])];
    var vs := IndexingVerdicts(pair.id, after, fetches);
    assert [busy][0] == busy;
    assert vs[0] == NotYet && vs[1] == NotYet;
    assert FreshSuccess(fetches[2].value[0], pair.id, after);
    assert vs[2] == Satisfied;
    StopsAtFirstDecisive(vs, clock, timeout, 2);
  }

  /**
    Pair 42 listed as DELETING once, then an empty listing: the per-id wait
    and the global wait both end with Done after two fetches.
   */
  lemma DeletionOfFortyTwo(entry: IndexingStatus, maxDelay: int, clock: seq<int>)
    requires entry.ccPairId == 42 && entry.status == Deleting
    requires |clock| == 3 && clock[1] - clock[0] <= maxDelay
    ensures Poll(DeletionVerdicts(Some(42), [Got([entry]), Got([])]), clock, maxDelay, 0) == (Done, 2)
    ensures Poll(DeletionVerdicts(None, [Got([entry]), Got([])]), clock, maxDelay, 0) == (Done, 2)
  {
    var fetches: seq<Fetch<seq<IndexingStatus>>> := [Got([entry]), Got([])];
    var byId, global := DeletionVerdicts(Some(42), fetches), DeletionVerdicts(None, fetches);
    assert [entry][0] == entry;
    assert byId[0] == NotYet && byId[1] == Satisfied;
    assert global[0] == NotYet && global[1] == Satisfied;
    StopsAtFirstDecisive(byId, clock, maxDelay, 1);
    StopsAtFirstDecisive(global, clock, maxDelay, 1);
  }

  /**
    A fetch that finds no sync task ends the wait with SyncTaskNotFound, not a
    timeout, however much of the budget is left.
   */
  lemma MissingSyncTaskIsFatal(after: int, timeout: int, fetches: seq<Fetch<Option<SyncTask>>>, clock: seq<int>, k: nat)
    requires |clock| == |fetches| + 1 && k < |fetches| && fetches[k] == Got(None)
    requires forall j :: 0 <= j < k ==> Continues(SyncVerdicts(after, fetches), clock, timeout, j)
    ensures Poll(SyncVerdicts(after, fetches), clock, timeout, 0) == (Error(SyncTaskNotFound), k + 1)
  {
    StopsAtFirstDecisive(SyncVerdicts(after, fetches), clock, timeout, k);
  }

  /**
    A fetched task with no register time, or one strictly before `after`,
    ends the wait with SyncTaskTooEarly at that fetch, not a timeout and
    whatever its status, however much of the budget is left.
   */
  lemma StaleSyncTaskIsFatal(after: int, timeout: int, fetches: seq<Fetch<Option<SyncTask>>>, clock: seq<int>, k: nat)
    requires |clock| == |fetches| + 1 && k < |fetches|
    requires fetches[k].Got? && fetches[k].value.Some?
    requires fetches[k].value.value.registerTime.None? || fetches[k].value.value.registerTime.value < after
    requires forall j :: 0 <= j < k ==> Continues(SyncVerdicts(after, fetches), clock, timeout, j)
    ensures Poll(SyncVerdicts(after, fetches), clock, timeout, 0) == (Error(SyncTaskTooEarly), k + 1)
  {
    StopsAtFirstDecisive(SyncVerdicts(after, fetches), clock, timeout, k);
  }

  /**
    A task registered exactly at `after` is accepted: when it has succeeded
    the first fetch ends the wait with Done, even with the budget spent.
   */
  lemma SyncRegisteredAtAfterAccepted(after: int, timeout: int, clock: seq<int>)
    requires |clock| == 2
    ensures Poll(SyncVerdicts(after, [Got(Some(SyncTask(Success, Some(after))))]), clock, timeout, 0) == (Done, 1)
    ensures Poll(SyncVerdicts(after, [Got(Some(SyncTask(Success, Some(after - 1))))]), clock, timeout, 0)
      == (Error(SyncTaskTooEarly), 1)
  {
  }
}
