/**
  The shape shared by every wait loop of the manager: fetch, test the fetched
  state, check the deadline, sleep, repeat. The fetched states are given as
  the sequence of verdicts the loop's test reaches on them, and the monotonic
  clock as the sequence of its readings: `clock[0]` is read before the loop and
  `clock[j + 1]` after the test on fetch `j` has failed. `Poll` is the
  reference meaning of such a loop; the methods in module Waits are proved
  equal to it.
 */
module Poller {

  /** Why a wait loop stops with an error instead of a timeout. */
  datatype Failure = TransportError | SyncTaskNotFound | SyncTaskTooEarly

  /** What a loop's test concludes about one fetched state. */
  datatype Verdict = Satisfied | NotYet | Fatal(reason: Failure)

  /**
    How a wait ends: its condition held, the time budget ran out, an error
    was raised, or (only because the readings given to the model are finite)
    the loop was still waiting when they ran out.
   */
  datatype Outcome = Done | Timeout | Error(reason: Failure) | StillWaiting

  /** The outcome when the loop stops on a verdict. */
  function Stop(v: Verdict): Outcome {
    match v
    case Satisfied => Done
    case NotYet => Timeout
    case Fatal(e) => Error(e)
  }

  /** Readings pair up with fetches: one before the loop, one after each failed test. */
  predicate Paired(verdicts: seq<Verdict>, clock: seq<int>) {
    |clock| == |verdicts| + 1
  }

  /** Iteration `j` neither stops on its verdict nor finds the time budget spent. */
  predicate Continues(verdicts: seq<Verdict>, clock: seq<int>, timeout: int, j: int)
    requires Paired(verdicts, clock) && 0 <= j < |verdicts|
  {
    verdicts[j] == NotYet && clock[j + 1] - clock[0] <= timeout
  }

  /**
    The loop run from iteration `k` on: the outcome and the number of fetches
    made in all. The test on a fetch comes before the deadline check, so a
    fetch that satisfies the test ends the wait however late it comes, and a
    timeout is raised only after a failed test whose elapsed time is strictly
    greater than the budget.
   */
  function Poll(verdicts: seq<Verdict>, clock: seq<int>, timeout: int, k: nat): (r: (Outcome, nat))
    requires Paired(verdicts, clock) && k <= |verdicts|
    decreases |verdicts| - k
    ensures k <= r.1 <= |verdicts|
    ensures r.0 == StillWaiting ==>
      r.1 == |verdicts| && forall j :: k <= j < |verdicts| ==> Continues(verdicts, clock, timeout, j)
    ensures r.0 != StillWaiting ==>
      && k < r.1
      && (forall j :: k <= j < r.1 - 1 ==> Continues(verdicts, clock, timeout, j))
      && !Continues(verdicts, clock, timeout, r.1 - 1)
      && r.0 == Stop(verdicts[r.1 - 1])
  {
    if k == |verdicts| then (StillWaiting, k)
    else
      match verdicts[k]
      case Satisfied => (Done, k + 1)
      case Fatal(e) => (Error(e), k + 1)
      case NotYet =>
        if clock[k + 1] - clock[0] > timeout then (Timeout, k + 1)
        else Poll(verdicts, clock, timeout, k + 1)
  }

  /**
    The loop stops at the first iteration that does not continue, with the
    outcome that iteration's verdict gives: in particular a satisfying fetch
    ends it with Done even once the budget is spent, and a fatal verdict ends
    it with that error even before the deadline.
   */
  lemma {:induction false} StopsAtFirstDecisive(verdicts: seq<Verdict>, clock: seq<int>, timeout: int, k: nat)
    requires Paired(verdicts, clock) && k < |verdicts|
    requires forall j :: 0 <= j < k ==> Continues(verdicts, clock, timeout, j)
    requires !Continues(verdicts, clock, timeout, k)
    ensures Poll(verdicts, clock, timeout, 0) == (Stop(verdicts[k]), k + 1)
  {
  }

  /**
    With a budget shorter than the time the first fetch and test take, a test
    that does not succeed ends the wait after that one fetch.
   */
  lemma ShortBudgetOneFetch(verdicts: seq<Verdict>, clock: seq<int>, timeout: int)
    requires Paired(verdicts, clock) && |verdicts| >= 1
    requires verdicts[0] != Satisfied && clock[1] - clock[0] > timeout
    ensures Poll(verdicts, clock, timeout, 0).1 == 1
    ensures verdicts[0] == NotYet ==> Poll(verdicts, clock, timeout, 0).0 == Timeout
  {
  }

  /**
    Once the loop has stopped, fetches and readings after the stopping point
    change nothing: a longer run agrees with the shorter one.
   */
  lemma {:induction false} LaterFetchesIrrelevant(
    verdicts: seq<Verdict>, clock: seq<int>, moreVerdicts: seq<Verdict>, moreClock: seq<int>,
    timeout: int, k: nat)
    requires Paired(verdicts, clock) && |moreClock| == |moreVerdicts| && k <= |verdicts|
    requires Poll(verdicts, clock, timeout, k).0 != StillWaiting
    ensures Poll(verdicts + moreVerdicts, clock + moreClock, timeout, k) == Poll(verdicts, clock, timeout, k)
    decreases |verdicts| - k
  {
    var vs, cs := verdicts + moreVerdicts, clock + moreClock;
    assert vs[k] == verdicts[k] && cs[k + 1] == clock[k + 1] && cs[0] == clock[0];
    if verdicts[k] == NotYet && clock[k + 1] - clock[0] <= timeout {
      LaterFetchesIrrelevant(verdicts, clock, moreVerdicts, moreClock, timeout, k + 1);
    }
  }
}
