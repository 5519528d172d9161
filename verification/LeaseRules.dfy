/** What each operation of the DynamoDB checkpointer reads, requires and writes,
    as functions on rows and cached shard statuses. */
module LeaseRules {
  import opened LeaseTypes

  /** One conjunct of a DynamoDB condition expression. */
  datatype Clause =
    | RowExists
    | NoOwner
    | OwnerIs(owner: WorkerId)
    | TimeoutIs(timeout: Time)
    | NoClaim
    | ClaimIs(claim: WorkerId)
    | NoCheckpoint
    | CheckpointIs(checkpoint: Position)
    | CheckpointIsNot(other: Position)
    | NoParent
    | ParentIs(parent: ShardId)

  type Condition = seq<Clause>

  /** A conditional PutItem: the item replaces the whole row if the condition holds. */
  datatype Put = Put(condition: Condition, item: Row)

  function OwnerOf(row: Option<Row>): Option<WorkerId> {
    if row.Some? then row.value.owner else None
  }

  function TimeoutOf(row: Option<Row>): Option<Time> {
    if row.Some? then row.value.timeout else None
  }

  function CheckpointOf(row: Option<Row>): Option<Position> {
    if row.Some? then row.value.checkpoint else None
  }

  /** The shard was processed to its end. */
  predicate Finished(row: Option<Row>) {
    CheckpointOf(row) == Some(ShardEnd)
  }

  function ClaimOf(row: Option<Row>): Option<WorkerId> {
    if row.Some? then row.value.claim else None
  }

  predicate Satisfies(row: Option<Row>, clause: Clause) {
    match clause
    case RowExists => row.Some?
    case NoOwner => OwnerOf(row).None?
    case OwnerIs(w) => OwnerOf(row) == Some(w)
    case TimeoutIs(t) => TimeoutOf(row) == Some(t)
    case NoClaim => ClaimOf(row).None?
    case ClaimIs(w) => ClaimOf(row) == Some(w)
    case NoCheckpoint => CheckpointOf(row).None?
    case CheckpointIs(p) => CheckpointOf(row) == Some(p)
    // "<>" also holds of an attribute that is absent
    case CheckpointIsNot(p) => CheckpointOf(row) != Some(p)
    case NoParent => row.None? || row.value.parent.None?
    case ParentIs(s) => row.Some? && row.value.parent == Some(s)
  }

  predicate Holds(row: Option<Row>, condition: Condition) {
    forall i :: 0 <= i < |condition| ==> Satisfies(row, condition[i])
  }

  lemma HoldsAppend(row: Option<Row>, a: Condition, b: Condition)
    ensures Holds(row, a + b) <==> Holds(row, a) && Holds(row, b)
  {
    if Holds(row, a + b) {
      forall i | 0 <= i < |a| ensures Satisfies(row, a[i]) { assert a[i] == (a + b)[i]; }
      forall i | 0 <= i < |b| ensures Satisfies(row, b[i]) { assert b[i] == (a + b)[|a| + i]; }
    }
  }

  // ----- GetLease -----

  /** IsClaimRequestExpired: judged by the cached lease timeout, not by the row. */
  predicate ClaimExpired(cfg: Config, timeout: Time, now: Time) {
    timeout != ZERO_TIME && timeout < now - cfg.claimTimeout
  }

  /** The row carries a non-empty claim of somebody. */
  predicate Claimed(row: Option<Row>) {
    ClaimOf(row).Some? && ClaimOf(row).value != Nobody
  }

  predicate ForeignClaim(row: Option<Row>, me: WorkerId) {
    Claimed(row) && ClaimOf(row).value != me
  }

  predicate FullyLeased(row: Option<Row>) {
    OwnerOf(row).Some? && TimeoutOf(row).Some?
  }

  function OptionalPosition(p: Position): Option<Position> {
    if p == Unset then None else Some(p)
  }

  function OptionalParent(parent: ShardId): Option<ShardId> {
    if parent == NoShard then None else Some(parent)
  }

  /** The item GetLease writes: the cached checkpoint, and no claim. */
  function LeaseItem(me: WorkerId, newTimeout: Time, checkpoint: Position, parent: ShardId): Row {
    Row(Some(me), Some(newTimeout), OptionalPosition(checkpoint), None, OptionalParent(parent))
  }

  function LeaseCondition(cfg: Config, row: Option<Row>, me: WorkerId, expired: bool): Condition {
    (if FullyLeased(row)
     then [RowExists, OwnerIs(OwnerOf(row).value), TimeoutIs(TimeoutOf(row).value)]
     else [NoOwner]) +
    (if cfg.stealing && Claimed(row) && ClaimOf(row).value == me && !expired
     then [ClaimIs(me)]
     else [])
  }

  /** The decision GetLease takes on the row it read: refuse, or issue a conditional put. */
  function DecideLease(cfg: Config, row: Option<Row>, me: WorkerId, checkpoint: Position, parent: ShardId,
                       newTimeout: Time, expired: bool, now: Time): Result<Put, LeaseError>
  {
    if cfg.stealing && ForeignClaim(row, me) && !expired then
      Err(ShardClaimed)
    else if FullyLeased(row) && now < TimeoutOf(row).value && OwnerOf(row).value != me
            && !(cfg.stealing && expired) then
      Err(LeaseNotAcquired)
    else
      Ok(Put(LeaseCondition(cfg, row, me, expired), LeaseItem(me, newTimeout, checkpoint, parent)))
  }

  /** A worker may have the lease exactly when no other worker's live claim reserves the
      shard and the shard is unowned, its own, expired, or seen as claim-expired. */
  predicate MayLease(cfg: Config, row: Option<Row>, me: WorkerId, expired: bool, now: Time) {
    && !(cfg.stealing && ForeignClaim(row, me) && !expired)
    && (|| OwnerOf(row).None?
        || (&& TimeoutOf(row).Some?
            && (OwnerOf(row).value == me || TimeoutOf(row).value <= now || (cfg.stealing && expired))))
  }

  lemma LeaseConditionMeaning(cfg: Config, read: Option<Row>, me: WorkerId, expired: bool, row: Option<Row>)
    ensures Holds(row, LeaseCondition(cfg, read, me, expired)) <==>
            && (if FullyLeased(read) then OwnerOf(row) == OwnerOf(read) && TimeoutOf(row) == TimeoutOf(read)
                else OwnerOf(row).None?)
            && (cfg.stealing && Claimed(read) && ClaimOf(read).value == me && !expired ==> ClaimOf(row) == Some(me))
  {
    var a := if FullyLeased(read)
      then [RowExists, OwnerIs(OwnerOf(read).value), TimeoutIs(TimeoutOf(read).value)]
      else [NoOwner];
    var b := if cfg.stealing && Claimed(read) && ClaimOf(read).value == me && !expired then [ClaimIs(me)] else [];
    HoldsAppend(row, a, b);
    assert FullyLeased(read) ==>
           a[0] == RowExists && a[1] == OwnerIs(OwnerOf(read).value) && a[2] == TimeoutIs(TimeoutOf(read).value);
    assert !FullyLeased(read) ==> a[0] == NoOwner;
    assert b != [] ==> b[0] == ClaimIs(me);
  }

  /** Uncontended GetLease is exact, on every row; and unless the row has an owner but no
      timeout, the condition it builds is true of the row it read. */
  lemma LeaseExact(cfg: Config, row: Option<Row>, me: WorkerId, checkpoint: Position, parent: ShardId,
                   newTimeout: Time, expired: bool, now: Time)
    ensures var d := DecideLease(cfg, row, me, checkpoint, parent, newTimeout, expired, now);
            d.Ok? && Holds(row, d.value.condition) <==> MayLease(cfg, row, me, expired, now)
    ensures (OwnerOf(row).Some? ==> TimeoutOf(row).Some?) ==> Holds(row, LeaseCondition(cfg, row, me, expired))
  {
    LeaseConditionMeaning(cfg, row, me, expired, row);
  }

  /** The clock readings of one GetLease: at its start, at the claim test, at the lease test. */
  datatype LeaseClock = LeaseClock(start: Time, judged: Time, decided: Time)

  datatype LeaseEffect = LeaseEffect(row: Option<Row>, cached: Cached, result: Result<(), LeaseError>)

  /** What GetLease does to the row and to the cached status when no other write intervenes. */
  function LeaseCall(cfg: Config, row: Option<Row>, cached: Cached, parent: ShardId, me: WorkerId,
                     clock: LeaseClock, read: Reply, write: Reply): LeaseEffect
  {
    if read != Answered then
      LeaseEffect(row, cached, Err(Unavailable))
    else
      var newTimeout := clock.start + cfg.leaseDuration;
      var d := DecideLease(cfg, row, me, cached.checkpoint, parent, newTimeout,
                           ClaimExpired(cfg, cached.timeout, clock.judged), clock.decided);
      if d.Err? then
        LeaseEffect(row, cached, Err(d.error))
      else
        var holds := Holds(row, d.value.condition);
        LeaseEffect(if write != Dropped && holds then Some(d.value.item) else row,
                    if write == Answered && holds then cached.(owner := me, timeout := newTimeout) else cached,
                    if write != Answered then Err(Unavailable) else if holds then Ok(()) else Err(LeaseNotAcquired))
  }

  /** GetLease succeeds exactly when the table answers and the caller may have the lease; then
      the row and the cache agree on owner and timeout and the row carries no claim.  When it
      fails for any reason but a lost answer, nothing changes.  Attribute by attribute: what the
      row becomes, the recorded parent included, what is cached, and which error is returned. */
  lemma LeaseCallExact(cfg: Config, row: Option<Row>, cached: Cached, parent: ShardId, me: WorkerId,
                       clock: LeaseClock, read: Reply, write: Reply)
    ensures var e := LeaseCall(cfg, row, cached, parent, me, clock, read, write);
            && (e.result.Ok? <==> && read == Answered && write == Answered
                                  && MayLease(cfg, row, me, ClaimExpired(cfg, cached.timeout, clock.judged),
                                              clock.decided))
            && (e.result.Ok? ==> && e.cached == Cached(me, clock.start + cfg.leaseDuration, cached.checkpoint)
                                 && OwnerOf(e.row) == Some(e.cached.owner) && TimeoutOf(e.row) == Some(e.cached.timeout)
                                 && CheckpointOf(e.row) == OptionalPosition(cached.checkpoint) && ClaimOf(e.row).None?)
            && (e.result.Err? ==> e.cached == cached && (write != AnswerLost ==> e.row == row))
    ensures var e := LeaseCall(cfg, row, cached, parent, me, clock, read, write);
            var until := clock.start + cfg.leaseDuration;
            var expired := cached.timeout != 0 && cached.timeout + cfg.claimTimeout < clock.judged;
            var reserved := cfg.stealing && !expired && row.Some? && row.value.claim.Some?
                            && row.value.claim != Some(Nobody) && row.value.claim != Some(me);
            var leased := row.Some? && row.value.owner.Some? && row.value.owner != Some(me)
                          && row.value.timeout.Some? && clock.decided < row.value.timeout.value
                          && !(cfg.stealing && expired);
            var lands := read == Answered && write != Dropped && !reserved && !leased
                         && (row.Some? && row.value.owner.Some? ==> row.value.timeout.Some?);
            && e.row == (if lands
                         then Some(Row(Some(me), Some(until),
                                       if cached.checkpoint == Unset then None else Some(cached.checkpoint), None,
                                       if parent == NoShard then None else Some(parent)))
                         else row)
            && e.cached == (if lands && write == Answered then Cached(me, until, cached.checkpoint) else cached)
            && e.result == (if read != Answered then Err(Unavailable)
                            else if reserved then Err(ShardClaimed)
                            else if leased then Err(LeaseNotAcquired)
                            else if write != Answered then Err(Unavailable)
                            else if lands then Ok(()) else Err(LeaseNotAcquired))
  {
    LeaseExact(cfg, row, me, cached.checkpoint, parent, clock.start + cfg.leaseDuration,
               ClaimExpired(cfg, cached.timeout, clock.judged), clock.decided);
  }

  // ----- CheckpointSequence, FetchCheckpoint, RemoveLeaseOwner -----

  /** The item CheckpointSequence puts unconditionally: it carries no claim. */
  function CheckpointItem(cached: Cached, parent: ShardId): Row {
    Row(Some(cached.owner), Some(cached.timeout), Some(cached.checkpoint), None, OptionalParent(parent))
  }

  /** FetchCheckpoint gives up before refreshing anything when the row has no checkpoint. */
  predicate Fetchable(row: Option<Row>) {
    CheckpointOf(row).Some?
  }

  function Refreshed(cached: Cached, row: Option<Row>): Cached {
    if !Fetchable(row) then
      cached
    else
      Cached(
        if OwnerOf(row).Some? then OwnerOf(row).value else cached.owner,
        if TimeoutOf(row).Some? then TimeoutOf(row).value else cached.timeout,
        CheckpointOf(row).value)
  }

  /** What the table scan of syncLeases copies into the cache: never the timeout. */
  function Synced(cached: Cached, row: Option<Row>): Cached {
    if OwnerOf(row).Some? && CheckpointOf(row).Some? then
      cached.(owner := OwnerOf(row).value, checkpoint := CheckpointOf(row).value)
    else
      cached
  }

  /** The conditional update "remove AssignedTo" leaves every other attribute alone. */
  function OwnerRemoved(row: Option<Row>, me: WorkerId): Option<Row> {
    if OwnerOf(row) == Some(me) then Some(row.value.(owner := None)) else row
  }

  // ----- ClaimShard -----

  function ClaimCondition(cached: Cached, parent: ShardId): Condition {
    [RowExists, TimeoutIs(cached.timeout), NoClaim] +
    [if cached.owner == Nobody then NoOwner else OwnerIs(cached.owner)] +
    [if cached.checkpoint == Unset then NoCheckpoint
     else if cached.checkpoint == ShardEnd then CheckpointIsNot(ShardEnd)
     else CheckpointIs(cached.checkpoint)] +
    [if parent == NoShard then NoParent else ParentIs(parent)]
  }

  /** The put of ClaimShard, built from the refreshed cache. */
  function ClaimPut(cached: Cached, parent: ShardId, claimant: WorkerId): Put {
    Put(ClaimCondition(cached, parent),
        Row(if cached.owner == Nobody then None else Some(cached.owner), Some(cached.timeout),
            Some(cached.checkpoint), Some(claimant), OptionalParent(parent)))
  }

  lemma ClaimConditionMeaning(cached: Cached, parent: ShardId, row: Option<Row>)
    ensures Holds(row, ClaimCondition(cached, parent)) <==>
            && row.Some?
            && row.value.timeout == Some(cached.timeout)
            && row.value.claim.None?
            && row.value.owner == (if cached.owner == Nobody then None else Some(cached.owner))
            && (match cached.checkpoint
                case Unset => row.value.checkpoint.None?
                case ShardEnd => row.value.checkpoint != Some(ShardEnd)
                case At(_) => row.value.checkpoint == Some(cached.checkpoint))
            && row.value.parent == (if parent == NoShard then None else Some(parent))
  {
    var c := ClaimCondition(cached, parent);
    assert c[0] == RowExists && c[1] == TimeoutIs(cached.timeout) && c[2] == NoClaim;
    assert c[3] == if cached.owner == Nobody then NoOwner else OwnerIs(cached.owner);
    assert c[4] == if cached.checkpoint == Unset then NoCheckpoint
                   else if cached.checkpoint == ShardEnd then CheckpointIsNot(ShardEnd)
                   else CheckpointIs(cached.checkpoint);
    assert c[5] == if parent == NoShard then NoParent else ParentIs(parent);
    assert |c| == 6;
  }

  /** ClaimShard with no intervening write, on a row that has a checkpoint, succeeds exactly
      when the row has a timeout, no claim, an unfinished checkpoint and the recorded parent,
      and any missing owner is missing from the cache too; it then adds the claim and changes
      nothing else. */
  lemma ClaimExact(before: Cached, parent: ShardId, claimant: WorkerId, row: Option<Row>)
    requires Fetchable(row)
    ensures var cached := Refreshed(before, row);
            Holds(row, ClaimCondition(cached, parent)) <==>
              && row.value.timeout.Some? && row.value.claim.None?
              && row.value.checkpoint != Some(ShardEnd) && row.value.checkpoint != Some(Unset)
              && row.value.parent == (if parent == NoShard then None else Some(parent))
              && (if row.value.owner.Some? then row.value.owner != Some(Nobody) else before.owner == Nobody)
    ensures var cached := Refreshed(before, row);
            Holds(row, ClaimCondition(cached, parent)) ==>
              ClaimPut(cached, parent, claimant).item == row.value.(claim := Some(claimant))
  {
    ClaimConditionMeaning(Refreshed(before, row), parent, row);
  }
}
