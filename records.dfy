/**
  The values the CC-pair test manager reads from and hands to the ingestion
  service: the handle on a created connector-credential pair, one entry of the
  indexing-status listing, the permission-sync task descriptor, and the raw
  results of the service calls the wait loops make.
 */
module Records {

  datatype Option<+T> = None | Some(value: T)

  /** Who may see the documents of a pair (the server's AccessType enum). */
  datatype AccessType = Public | Private | Sync

  /** Lifecycle state of a pair on the server (ConnectorCredentialPairStatus). */
  datatype PairStatus = Active | Paused | Deleting

  /** State of a background task (TaskStatus). */
  datatype TaskStatus = Pending | Started | Success | Failure

  /**
    The harness's handle on a pair it created (DATestCCPair): fixed at
    creation time and never updated afterwards.
   */
  datatype TestCCPair = TestCCPair(
    id: int,
    name: string,
    connectorId: int,
    credentialId: int,
    accessType: AccessType,
    groups: seq<int>)

  /**
    One entry of the indexing-status listing (ConnectorIndexingStatus),
    reduced to the fields the manager reads. Timestamps are integers on one
    common time line.
   */
  datatype IndexingStatus = IndexingStatus(
    ccPairId: int,
    name: string,
    connectorId: int,
    credentialId: int,
    accessType: AccessType,
    groups: seq<int>,
    status: PairStatus,
    inProgress: bool,
    lastSuccess: Option<int>)

  /** The permission-sync task descriptor (CeleryTaskStatus). */
  datatype SyncTask = SyncTask(status: TaskStatus, registerTime: Option<int>)

  /** The decoded body of the last-pruned endpoint: a JSON string or anything else. */
  datatype JsonValue = JsonString(text: string) | JsonOther

  /**
    The result of one call to the service: the decoded body, or a failed call
    (a non-success status, which the source raises immediately).
   */
  datatype Fetch<+T> = Got(value: T) | TransportFailed
}
