/**
  The tests the four wait loops apply to each fetched state, as verdicts for
  the poller. A failed service call is an error in every loop: the source
  raises it from the fetch and never retries.
 */
module Completion {
  import opened Records
  import opened Poller
  import Lookup

  // ---- indexing ----

  /**
    The entry reports a finished indexing run of pair `id` that succeeded
    strictly after `after`; an entry still in progress never does, whatever
    its last success time.
   */
  predicate FreshSuccess(entry: IndexingStatus, id: int, after: int) {
    entry.ccPairId == id && !entry.inProgress && entry.lastSuccess.Some? && entry.lastSuccess.value > after
  }

  predicate IndexingDone(id: int, after: int, listed: seq<IndexingStatus>) {
    exists i :: 0 <= i < |listed| && FreshSuccess(listed[i], id, after)
  }

  /**
    The indexing test on one fetched listing: it holds exactly when some entry
    of the pair is idle and has a last success strictly after `after`; a
    failed call is an error.
   */
  function IndexingVerdict(id: int, after: int, fetched: Fetch<seq<IndexingStatus>>): (v: Verdict)
    ensures v.Fatal? <==> fetched.TransportFailed?
    ensures v.Fatal? ==> v.reason == TransportError
    ensures v == Satisfied <==>
      fetched.Got? &&
      exists i :: 0 <= i < |fetched.value| && fetched.value[i].ccPairId == id &&
        !fetched.value[i].inProgress && fetched.value[i].lastSuccess.Some? &&
        fetched.value[i].lastSuccess.value > after
  {
    match fetched
    case TransportFailed => Fatal(TransportError)
    case Got(listed) => if IndexingDone(id, after, listed) then Satisfied else NotYet
  }

  function IndexingVerdicts(id: int, after: int, fetches: seq<Fetch<seq<IndexingStatus>>>): seq<Verdict>
  {
    seq(|fetches|, j requires 0 <= j < |fetches| => IndexingVerdict(id, after, fetches[j]))
  }

  /**
    A listing in which every entry of the pair is still in progress, or
    succeeded no later than `after`, never ends the indexing wait.
   */
  lemma IndexingNeedsFinishedFreshRun(id: int, after: int, listed: seq<IndexingStatus>)
    requires forall i :: 0 <= i < |listed| && listed[i].ccPairId == id ==>
      listed[i].inProgress || listed[i].lastSuccess.None? || listed[i].lastSuccess.value <= after
    ensures IndexingVerdict(id, after, Got(listed)) == NotYet
  {
  }

  // ---- pruning ----

  /** `last_pruned`: the parsed timestamp when the body is a string that parses, else absent. */
  function LastPruned(body: JsonValue, parseIso: string -> Option<int>): (r: Option<int>)
    ensures r.Some? <==> body.JsonString? && parseIso(body.text).Some?
    ensures r.Some? ==> r == parseIso(body.text)
  {
    match body
    case JsonOther => None
    case JsonString(text) => parseIso(text)
  }

  /**
    The prune test on one fetched body: it holds exactly when the last-pruned
    time is present and strictly after `after`; an absent time only means
    "not yet", and a failed call is an error.
   */
  function PruneVerdict(after: int, parseIso: string -> Option<int>, fetched: Fetch<JsonValue>): (v: Verdict)
    ensures v.Fatal? <==> fetched.TransportFailed?
    ensures v.Fatal? ==> v.reason == TransportError
    ensures v == Satisfied <==>
      fetched.Got? && LastPruned(fetched.value, parseIso).Some? && LastPruned(fetched.value, parseIso).value > after
  {
    match fetched
    case TransportFailed => Fatal(TransportError)
    case Got(body) =>
      var lastPruned := LastPruned(body, parseIso);
      if lastPruned.Some? && lastPruned.value > after then Satisfied else NotYet
  }

  function PruneVerdicts(after: int, parseIso: string -> Option<int>, fetches: seq<Fetch<JsonValue>>): seq<Verdict>
  {
    seq(|fetches|, j requires 0 <= j < |fetches| => PruneVerdict(after, parseIso, fetches[j]))
  }

  /**
    The prune wait ends only on a string body that parses to a time strictly
    after `after`; a body that is not a string, or does not parse, keeps it waiting.
   */
  lemma PruneNeedsParsedFreshTime(after: int, parseIso: string -> Option<int>, body: JsonValue)
    ensures PruneVerdict(after, parseIso, Got(body)) == Satisfied <==>
      body.JsonString? && parseIso(body.text).Some? && parseIso(body.text).value > after
    ensures PruneVerdict(after, parseIso, Got(body)) != Satisfied ==> PruneVerdict(after, parseIso, Got(body)) == NotYet
  {
  }

  // ---- permission sync ----

  /**
    A missing task, or one registered with no time or strictly before
    `after`, is an error at once; a task registered at `after` or later
    ends the wait once its status is SUCCESS.
   */
  function SyncVerdict(after: int, fetched: Fetch<Option<SyncTask>>): (v: Verdict)
    ensures v == Fatal(TransportError) <==> fetched.TransportFailed?
    ensures v == Fatal(SyncTaskNotFound) <==> fetched == Got(None)
    ensures v == Fatal(SyncTaskTooEarly) <==>
      fetched.Got? && fetched.value.Some? &&
      (fetched.value.value.registerTime.None? || fetched.value.value.registerTime.value < after)
    ensures v == Satisfied <==>
      fetched.Got? && fetched.value.Some? && fetched.value.value.status == Success &&
      fetched.value.value.registerTime.Some? && fetched.value.value.registerTime.value >= after
  {
    match fetched
    case TransportFailed => Fatal(TransportError)
    case Got(None) => Fatal(SyncTaskNotFound)
    case Got(Some(task)) =>
      if task.registerTime.None? || task.registerTime.value < after then Fatal(SyncTaskTooEarly)
      else if task.status == Success then Satisfied
      else NotYet
  }

  function SyncVerdicts(after: int, fetches: seq<Fetch<Option<SyncTask>>>): seq<Verdict>
  {
    seq(|fetches|, j requires 0 <= j < |fetches| => SyncVerdict(after, fetches[j]))
  }

  // ---- deletion ----

  /** `if cc_pair_id:` — an id selects the per-id mode only when present and non-zero. */
  predicate IdGiven(ccPairId: Option<int>) {
    ccPairId.Some? && ccPairId.value != 0
  }

  /**
    Per-id mode: no entry carries the id any more. Global mode: no entry is
    in the DELETING state.
   */
  predicate DeletionDone(ccPairId: Option<int>, listed: seq<IndexingStatus>) {
    if IdGiven(ccPairId) then forall i :: 0 <= i < |listed| ==> listed[i].ccPairId != ccPairId.value
    else forall i :: 0 <= i < |listed| ==> listed[i].status != Deleting
  }

  /**
    The deletion test on one fetched listing. With a non-zero id it holds
    exactly when `get_one` finds no entry for that id; otherwise exactly when
    no entry is DELETING. A failed call is an error.
   */
  function DeletionVerdict(ccPairId: Option<int>, fetched: Fetch<seq<IndexingStatus>>): (v: Verdict)
    ensures v.Fatal? <==> fetched.TransportFailed?
    ensures v.Fatal? ==> v.reason == TransportError
    ensures ccPairId.Some? && ccPairId.value != 0 ==>
      (v == Satisfied <==> fetched.Got? && Lookup.GetOne(ccPairId.value, fetched.value).None?)
    ensures ccPairId.None? || ccPairId.value == 0 ==>
      (v == Satisfied <==> fetched.Got? && forall i :: 0 <= i < |fetched.value| ==> fetched.value[i].status != Deleting)
  {
    match fetched
    case TransportFailed => Fatal(TransportError)
    case Got(listed) => if DeletionDone(ccPairId, listed) then Satisfied else NotYet
  }

  function DeletionVerdicts(ccPairId: Option<int>, fetches: seq<Fetch<seq<IndexingStatus>>>): seq<Verdict>
  {
    seq(|fetches|, j requires 0 <= j < |fetches| => DeletionVerdict(ccPairId, fetches[j]))
  }

  /**
    Id 0 is falsy and selects the global mode, exactly as no id does; and in
    per-id mode an entry of another pair that is still DELETING does not
    hold the wait up.
   */
  lemma DeletionModes(listed: seq<IndexingStatus>, id: int)
    ensures DeletionVerdict(Some(0), Got(listed)) == DeletionVerdict(None, Got(listed))
    ensures id != 0 ==>
      (DeletionVerdict(Some(id), Got(listed)) == Satisfied <==>
        forall i :: 0 <= i < |listed| ==> listed[i].ccPairId != id)
  {
  }
}
