# CC-pair manager: verification and wait loops

This project models the decision logic of the integration-test manager for
connector-credential pairs ("CC pairs") of the Danswer ingestion service. A
CC pair is one configured data source: a connector paired with a credential.
The manager creates pairs, triggers background work on them (indexing,
pruning, permission sync, deletion), and then polls the service until that
work is observed to have finished. The service calls themselves are not
modelled. Each fetch result enters the model as a value. The clock enters as
a sequence of readings.

Modules, one file each:

- `Records` (records.dfy): the pair handle, listing entries, the sync-task
  descriptor, and the result of one service call (`Fetch`: a decoded body or
  a failed call).
- `Lookup` (lookup.dfy): `get_one` as `GetOne`, the first listing entry with a
  given id. `verify` as `Verify`, which checks a listing for the presence of a
  pair with all its fields (groups compared as sets), or for its absence.
- `Creation` (creation.dfy): how a pair's name and group list are defaulted
  when it is created, and the handle built from the server's answer.
- `Poller` (poller.dfy): `Poll`, the reference meaning of every wait loop. It
  takes one verdict per fetch (`Satisfied`, `NotYet` or `Fatal`) and one
  clock reading per iteration. It returns the outcome and the number of
  fetches made. It also holds lemmas about stopping and timing.
- `Completion` (completion.dfy): the test each wait applies to a fetched state,
  as verdict functions.
- `Waits` (waits.dfy): the four `while True` loops as methods over injected
  fetch and clock sequences. Each method is proved equal to `Poll` applied to
  its own verdicts. The scenario lemmas are here too.

Two behaviours of the code are easy to misread, and the model keeps them as
written:

- `wait_for_sync` accepts a task whose register time is exactly `after`
  (`register_time < after` is the rejection test). The indexing and prune
  waits, by contrast, need a time strictly after `after`.
- `verify` raises a generic "not found" error when an entry has the right id
  but a wrong field. It does not report which field differed.

## Model

| member | source | states |
|---|---|---|
| `Lookup.GetOne` | backend/tests/integration/common_utils/managers/cc_pair.py:161-166 | The result is absent exactly when no entry has the id. Otherwise it is the entry at the first index carrying the id. |
| `Lookup.Verify` | backend/tests/integration/common_utils/managers/cc_pair.py:187-206 | Pair expected present: succeeds iff some entry matches on id, name, connector id, credential id, access type and group set. Otherwise it raises NotFound, whatever partial matches exist. Pair expected deleted: succeeds iff no entry has the id, else raises FoundButShouldBeDeleted. |
| `Lookup.GroupOrderIgnored` | backend/tests/integration/common_utils/managers/cc_pair.py:201 | Replacing the handle's groups with any list that has the same elements, in any order and with any repeats, leaves the verdict of `verify` unchanged. |
| `Lookup.SingleEntryVerify` | backend/tests/integration/common_utils/managers/cc_pair.py:196-203 | With a one-entry listing, a pair expected present verifies iff the entry has its id and fields and the same group elements. |
| `Lookup.ReorderedGroupsVerify` | backend/tests/integration/common_utils/managers/cc_pair.py:201 | Groups [1, 2] on the handle and [2, 1, 1] on the listing still verify. |
| `Creation.PairName` | backend/tests/integration/common_utils/managers/cc_pair.py:33 | A given non-empty name is followed by "-cc-pair" and nothing else. Otherwise the name is "test-cc-pair-" followed by the UUID text. Stated as prefix and suffix of the result. |
| `Creation.PairGroups` | backend/tests/integration/common_utils/managers/cc_pair.py:38 | `groups or []`: no list gives the empty list. A given list is sent unchanged, so an empty list is sent as empty. |
| `Creation.CreationRequest` | backend/tests/integration/common_utils/managers/cc_pair.py:33-39 | A given name can be read back from the sent name. A missing or empty name is sent as "test-cc-pair-" followed by the UUID text. The access type is sent as chosen. The group list sent is exactly the given list, or the empty list when none is given. |
| `Creation.CreatedPair` | backend/tests/integration/common_utils/managers/cc_pair.py:49-56 | The handle has the id the server answered, the connector and credential it was made from, and exactly the name, access type and groups of the request. |
| `Creation.GivenNameRecoverable` | backend/tests/integration/common_utils/managers/cc_pair.py:33 | A given non-empty name ends up whole in the pair name, followed by "-cc-pair", and can be read back from it. |
| `Creation.DefaultNamesFollowUuid` | backend/tests/integration/common_utils/managers/cc_pair.py:33 | Without a name, two generated pair names are equal iff their UUID texts are equal. Distinct UUIDs give distinct names. |
| `Creation.CreatedPairVerifies` | backend/tests/integration/common_utils/managers/cc_pair.py:33-56 | The handle returned by creation has the request's name and groups. So a listing entry that echoes the request, with groups in any order, makes `verify` succeed. |
| `Poller.Poll` | backend/tests/integration/common_utils/managers/cc_pair.py:236-261 | The loop stops at the first iteration that is not "test failed and elapsed time within budget". Done if the test held there, an error if it was fatal, Timeout if the elapsed time was strictly over budget. It reports the number of fetches up to and including that one. |
| `Poller.StopsAtFirstDecisive` | backend/tests/integration/common_utils/managers/cc_pair.py:236-261 | If every earlier iteration continued, the wait ends at iteration k with that iteration's verdict. A satisfying fetch gives Done even past the deadline. A fatal verdict gives an error even before it. |
| `Poller.ShortBudgetOneFetch` | backend/tests/integration/common_utils/managers/cc_pair.py:252-256 | When the first test fails and the first elapsed time is already over budget, the wait makes one fetch only. A merely unsatisfied test then gives Timeout. |
| `Poller.LaterFetchesIrrelevant` | backend/tests/integration/common_utils/managers/cc_pair.py:236-261 | Once the loop has stopped, appending more fetches and readings changes neither the outcome nor the fetch count. |
| `Completion.IndexingVerdict` | backend/tests/integration/common_utils/managers/cc_pair.py:238-250 | The indexing test holds iff some fetched entry has the pair's id, is not in progress, and has a last success strictly after `after`. A failed call is the only error. |
| `Completion.LastPruned` | backend/tests/integration/common_utils/managers/cc_pair.py:288-297 | The last-pruned time is present iff the body is a string that parses, and then it is the parsed time. |
| `Completion.PruneVerdict` | backend/tests/integration/common_utils/managers/cc_pair.py:309-311 | The prune test holds iff the last-pruned time is present and strictly after `after`. A failed call is the only error. |
| `Completion.SyncVerdict` | backend/tests/integration/common_utils/managers/cc_pair.py:361-370 | A fetch without a task gives SyncTaskNotFound. A task with no register time, or one strictly before `after`, gives SyncTaskTooEarly. The test holds iff the task is SUCCESS and registered at or after `after`. Each of these is an iff. |
| `Completion.DeletionVerdict` | backend/tests/integration/common_utils/managers/cc_pair.py:394-409 | With a non-zero id, the test holds iff `get_one` finds no entry for that id. With no id or id 0, it holds iff no entry is DELETING. A failed call is the only error. |
| `Completion.IndexingNeedsFinishedFreshRun` | backend/tests/integration/common_utils/managers/cc_pair.py:238-250 | A listing in which every entry of the pair is in progress, has no last success, or succeeded no later than `after` does not end the indexing wait. Equal to `after` counts as stale. |
| `Completion.PruneNeedsParsedFreshTime` | backend/tests/integration/common_utils/managers/cc_pair.py:288-311 | The prune test holds iff the body is a string that parses to a time strictly after `after`. A non-string or unparsable body only means "not yet". |
| `Completion.DeletionModes` | backend/tests/integration/common_utils/managers/cc_pair.py:395-409 | Id 0 selects the global mode, just like no id. With a non-zero id, the test holds iff no entry has that id. |
| `Waits.WaitForIndexing` | backend/tests/integration/common_utils/managers/cc_pair.py:227-261 | Equal to `Poll` over the indexing verdicts. Done only when the last fetch holds an entry of the pair that is not in progress and whose last success is strictly after `after`. |
| `Waits.WaitForPrune` | backend/tests/integration/common_utils/managers/cc_pair.py:300-322 | Equal to `Poll` over the prune verdicts. Done only when the last fetched last-pruned time is present and strictly after `after`. |
| `Waits.WaitForSync` | backend/tests/integration/common_utils/managers/cc_pair.py:352-381 | Equal to `Poll` over the sync verdicts. SyncTaskNotFound only on a fetch without a task. Done only on a SUCCESS task registered at or after `after`. |
| `Waits.IdListed` | backend/tests/integration/common_utils/managers/cc_pair.py:396-400 | The scan of the per-id deletion mode reports a hit iff some entry of the listing carries the id. |
| `Waits.WaitForDeletionCompletion` | backend/tests/integration/common_utils/managers/cc_pair.py:384-417 | Equal to `Poll` over the deletion verdicts, with budget MAX_DELAY. Done only when the last listing no longer has the id (non-zero id) or has no DELETING entry (no id, or id 0). |
| `Waits.IndexingAfterThreeFetches` | backend/tests/integration/common_utils/managers/cc_pair.py:236-250 | Two in-progress listings (the second with a success time past `after`), then a finished run at `after + 10`: Done after exactly three fetches. |
| `Waits.DeletionOfFortyTwo` | backend/tests/integration/common_utils/managers/cc_pair.py:393-409 | Pair 42 listed as DELETING, then an empty listing: both the per-id and the global wait end with Done after two fetches. |
| `Waits.MissingSyncTaskIsFatal` | backend/tests/integration/common_utils/managers/cc_pair.py:360-363 | A fetch that finds no sync task ends the wait with SyncTaskNotFound, not Timeout, even with budget left. |
| `Waits.StaleSyncTaskIsFatal` | backend/tests/integration/common_utils/managers/cc_pair.py:365-366 | A fetched task with no register time, or one strictly before `after`, ends the wait with SyncTaskTooEarly at that fetch. This holds whatever its status and before any timeout. |
| `Waits.SyncRegisteredAtAfterAccepted` | backend/tests/integration/common_utils/managers/cc_pair.py:365-370 | A succeeded task registered exactly at `after` gives Done on the first fetch. One registered a moment earlier gives SyncTaskTooEarly. |

## Left out

- HTTP requests, status raising, headers and the choice of acting user are network I/O. A failed call is modelled as `Fetch.TransportFailed`. It ends a wait with `Error(TransportError)`.
- `pause_cc_pair`, `delete`, `run_once`, `prune`, `sync` and `get_all` are single requests with no decision logic, so they are I/O only.
- `create_from_scratch` calls the connector and credential managers. Those are not part of this model. Only the defaulting in `_cc_pair_creator` is modelled.
- JSON and model decoding, and ISO-8601 parsing, are foreign library calls. Decoded bodies are inputs, and parsing is a parameter `parseIso: string -> Option<int>`.
- The UUID in a default name is a parameter `uuidText`.
- `time.monotonic` is a sequence of integer readings. `time.sleep` (5 units, or 2 for deletion) and `print` are dropped. Timeouts and elapsed times are integers, not floats.
- MAX_DELAY is defined in a constants file that is not part of this model. It is the parameter `maxDelay` of the deletion wait.
- The indexing, prune and sync waits default `timeout` to MAX_DELAY (cc_pair.py:231, 303, 355). In the model `timeout` is a required parameter with no default.
- `after`, `last_success`, `last_pruned` and `register_time` are Python datetimes. The model puts them as integers on one time line, so it does not capture the TypeError Python raises when a naive datetime is compared with a timezone-aware one.
- The source loops run until they stop, but the model's input is finite. When the fetches run out first, the model returns `StillWaiting`. `LaterFetchesIrrelevant` shows that extra input after a stop never changes the result.
- In the sync wait, `Got(None)` stands for the "no task" answer guarded against at cc_pair.py:362. In the source the fetch builds the descriptor straight from the body, so such an answer would surface as a decoding error. Either way it is an error, not a timeout.
