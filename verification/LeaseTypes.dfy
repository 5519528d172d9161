/** The values the lease protocol passes around: lease-table rows, the cached
    status of a shard, and the error results of the checkpointer. */
module LeaseTypes {

  datatype Option<+T> = None | Some(value: T)

  datatype Result<+T, +E> = Ok(value: T) | Err(error: E)

  // Identifiers are opaque.  The empty string of the program is Nobody / NoShard.
  datatype WorkerId = Nobody | Worker(id: nat)
  datatype ShardId = NoShard | Shard(id: nat)

  // Instants and durations are integers (nanoseconds).  0 is Go's zero time.
  type Time = int
  const ZERO_TIME: Time := 0

  // A checkpoint string: "", the sequence number of the index-th record of the
  // shard, or "SHARD_END".
  datatype Position = Unset | At(index: nat) | ShardEnd

  // One item of the lease table; a missing attribute is None.
  datatype Row = Row(
    owner: Option<WorkerId>,
    timeout: Option<Time>,
    checkpoint: Option<Position>,
    claim: Option<WorkerId>,
    parent: Option<ShardId>)

  // The lease part of a cached ShardStatus.
  datatype Cached = Cached(owner: WorkerId, timeout: Time, checkpoint: Position)

  // What a worker caches about a shard it has just discovered.
  const FRESH: Cached := Cached(Nobody, ZERO_TIME, Unset)

  datatype Config = Config(leaseDuration: nat, stealing: bool, claimTimeout: nat)

  datatype LeaseError =
    | ShardClaimed
    | LeaseNotAcquired
    | SequenceNotFound
    | ShardNotAssigned
    | Unavailable      // the table did not answer
    | NotAttempted     // the event loop passed the shard over

  /** How one request to the table fares: answered, never applied, or applied with the answer lost. */
  datatype Reply = Answered | Dropped | AnswerLost
}
