/** The lease protocol as interleaved steps.  Every call a worker makes on the lease table is
    split where other workers, or other goroutines of the same worker, can intervene; any
    number of calls may be in flight. */
module Protocol {
  import opened LeaseTypes
  import opened LeaseRules

  /** A call in flight, and what it has computed so far. */
  datatype Call =
    | LeaseStarted(worker: WorkerId, newTimeout: Time)
    | LeaseRead(worker: WorkerId, newTimeout: Time, row: Option<Row>)
    | LeaseJudged(worker: WorkerId, newTimeout: Time, row: Option<Row>, expired: bool)
    | LeaseDecided(worker: WorkerId, newTimeout: Time, row: Option<Row>, expired: bool, put: Put)
    | LeaseLanded(worker: WorkerId, newTimeout: Time)
    | CheckpointMarshalled(worker: WorkerId, item: Row)
    | FetchRead(worker: WorkerId, row: Option<Row>)
    | SyncRead(worker: WorkerId, row: Option<Row>)
    | ClaimDecided(worker: WorkerId, put: Put)

  /** One shard's lease row, what each worker caches about the shard, and the calls in flight. */
  datatype LeaseState = LeaseState(row: Option<Row>, cache: map<WorkerId, Cached>, calls: map<nat, Call>)

  datatype LeaseOp =
    | Discover(worker: WorkerId)                          // a fresh ShardStatus enters the worker's cache
    | StartLease(id: nat, worker: WorkerId)               // GetLease: the new timeout is fixed
    | ReadLease(id: nat)                                  //   the row is read
    | JudgeClaim(id: nat)                                 //   the cached timeout is compared with the clock
    | DecideOnLease(id: nat)                              //   the lease is refused, or the put is built
    | PutLease(id: nat, answered: bool)                   //   the put reaches the table; its answer may be lost
    | AdoptLease(id: nat)                                 //   the cache takes over owner and timeout
    | SetCheckpoint(worker: WorkerId, position: Position) // the application checkpoints
    | MarshalCheckpoint(id: nat, worker: WorkerId)        // CheckpointSequence: the item is built
    | SaveCheckpoint(id: nat)                             //   the put reaches the table
    | ReadForFetch(id: nat, worker: WorkerId)             // FetchCheckpoint: the row is read
    | ApplyFetch(id: nat)                                 //   the cache is refreshed
    | ReadForSync(id: nat, worker: WorkerId)              // syncLeases: the table is scanned
    | ApplySync(id: nat)                                  //   the cache is refreshed
    | DecideClaim(id: nat, worker: WorkerId)              // ClaimShard, after its FetchCheckpoint: the put is built
    | PutClaim(id: nat)                                   //   the put reaches the table
    | ForgetOwner(worker: WorkerId)                       // releaseLease: the cached owner is cleared
    | RemoveOwner(worker: WorkerId)                       //   the owner is removed from the row
    | DeleteRow                                           // RemoveLeaseInfo
    | Abandon(id: nat)                                    // a call fails without effect

  predicate LeaseEnabled(l: LeaseState, op: LeaseOp) {
    match op
    case Discover(w) => w != Nobody
    case StartLease(id, w) => id !in l.calls && w in l.cache
    case ReadLease(id) => id in l.calls && l.calls[id].LeaseStarted?
    case JudgeClaim(id) => id in l.calls && l.calls[id].LeaseRead? && l.calls[id].worker in l.cache
    case DecideOnLease(id) => id in l.calls && l.calls[id].LeaseJudged? && l.calls[id].worker in l.cache
    case PutLease(id, _) => id in l.calls && l.calls[id].LeaseDecided? && l.calls[id].worker in l.cache
    case AdoptLease(id) => id in l.calls && l.calls[id].LeaseLanded? && l.calls[id].worker in l.cache
    case SetCheckpoint(w, p) => w in l.cache && p != Unset
    case MarshalCheckpoint(id, w) => id !in l.calls && w in l.cache
    case SaveCheckpoint(id) => id in l.calls && l.calls[id].CheckpointMarshalled?
    case ReadForFetch(id, w) => id !in l.calls && w in l.cache
    case ApplyFetch(id) => id in l.calls && l.calls[id].FetchRead? && l.calls[id].worker in l.cache
    case ReadForSync(id, w) => id !in l.calls && w in l.cache
    case ApplySync(id) => id in l.calls && l.calls[id].SyncRead? && l.calls[id].worker in l.cache
    case DecideClaim(id, w) => id !in l.calls && w in l.cache
    case PutClaim(id) => id in l.calls && l.calls[id].ClaimDecided?
    case ForgetOwner(w) => w in l.cache
    case RemoveOwner(w) => w in l.cache
    case DeleteRow => true
    case Abandon(id) => id in l.calls
  }

  function LeaseStep(cfg: Config, parent: ShardId, now: Time, l: LeaseState, op: LeaseOp): LeaseState
    requires LeaseEnabled(l, op)
  {
    match op
    case Discover(w) => l.(cache := l.cache[w := FRESH])
    case StartLease(id, w) => l.(calls := l.calls[id := LeaseStarted(w, now + cfg.leaseDuration)])
    case ReadLease(id) =>
      var c := l.calls[id];
      l.(calls := l.calls[id := LeaseRead(c.worker, c.newTimeout, l.row)])
    case JudgeClaim(id) =>
      var c := l.calls[id];
      l.(calls := l.calls[id := LeaseJudged(c.worker, c.newTimeout, c.row,
                                              ClaimExpired(cfg, l.cache[c.worker].timeout, now))])
    case DecideOnLease(id) =>
      var c := l.calls[id];
      var d := DecideLease(cfg, c.row, c.worker, l.cache[c.worker].checkpoint, parent, c.newTimeout, c.expired, now);
      if d.Ok? then l.(calls := l.calls[id := LeaseDecided(c.worker, c.newTimeout, c.row, c.expired, d.value)])
      else Done(l, id)
    case PutLease(id, answered) =>
      var c := l.calls[id];
      if !Holds(l.row, c.put.condition) then Done(l, id)
      else if answered then LeaseState(Some(c.put.item), l.cache, l.calls[id := LeaseLanded(c.worker, c.newTimeout)])
      else Done(l.(row := Some(c.put.item)), id)
    case AdoptLease(id) =>
      var c := l.calls[id];
      Done(l.(cache := l.cache[c.worker := l.cache[c.worker].(owner := c.worker, timeout := c.newTimeout)]), id)
    case SetCheckpoint(w, p) => l.(cache := l.cache[w := l.cache[w].(checkpoint := p)])
    case MarshalCheckpoint(id, w) =>
      l.(calls := l.calls[id := CheckpointMarshalled(w, CheckpointItem(l.cache[w], parent))])
    case SaveCheckpoint(id) => Done(l.(row := Some(l.calls[id].item)), id)
    case ReadForFetch(id, w) => l.(calls := l.calls[id := FetchRead(w, l.row)])
    case ApplyFetch(id) =>
      var c := l.calls[id];
      Done(l.(cache := l.cache[c.worker := Refreshed(l.cache[c.worker], c.row)]), id)
    case ReadForSync(id, w) => l.(calls := l.calls[id := SyncRead(w, l.row)])
    case ApplySync(id) =>
      var c := l.calls[id];
      Done(l.(cache := l.cache[c.worker := Synced(l.cache[c.worker], c.row)]), id)
    case DecideClaim(id, w) => l.(calls := l.calls[id := ClaimDecided(w, ClaimPut(l.cache[w], parent, w))])
    case PutClaim(id) =>
      var c := l.calls[id];
      Done(if Holds(l.row, c.put.condition) then l.(row := Some(c.put.item)) else l, id)
    case ForgetOwner(w) => l.(cache := l.cache[w := l.cache[w].(owner := Nobody)])
    case RemoveOwner(w) => l.(row := OwnerRemoved(l.row, w))
    case DeleteRow => l.(row := None)
    case Abandon(id) => Done(l, id)
  }

  function Done(l: LeaseState, id: nat): LeaseState {
    l.(calls := l.calls - {id})
  }

  // ----- The shard's records and its consumers -----

  datatype Phase =
    | Waiting             // in waitOnParentShard
    | Ready               // the wait is over; no shard iterator yet
    | Running(next: nat)  // the next record of the shard to deliver

  datatype Consumer = Consumer(worker: WorkerId, phase: Phase)

  /** Where a consumer starts on a shard without a checkpoint.  AtTimestamp carries the number
      of the first record at or after the timestamp. */
  datatype InitialPosition = TrimHorizon | Latest | AtTimestamp(first: nat)

  /** A shard's records are numbered from 0; record i has sequence number At(i). */
  datatype StreamState = StreamState(
    initial: InitialPosition,
    origin: nat,                     // where the last start without a checkpoint began
    length: nat,                     // records published so far
    closed: bool,                    // no more will be published
    consumers: map<nat, Consumer>,   // consumers running, on any worker
    delivered: set<nat>,             // records passed to ProcessRecords at least once
    started: bool,                   // some consumer has passed the wait on the parent
    ended: bool,                     // some processor was shut down with TERMINATE
    gap: bool)                       // some wait ended because the parent's row had no checkpoint

  datatype StreamOp =
    | Publish
    | Close
    | StartConsumer(id: nat, worker: WorkerId)
    | EndWait(id: nat)
    | TakePosition(id: nat)          // getStartingPosition, after its FetchCheckpoint
    | Deliver(id: nat, upTo: nat)    // one ProcessRecords call
    | Terminate(id: nat)             // the end of the shard was reached: Shutdown(TERMINATE)
    | StopConsumer(id: nat)          // any other exit

  function FirstOrigin(initial: InitialPosition): nat {
    if initial.AtTimestamp? then initial.first else 0
  }

  datatype Wait = NoParentShard | ParentFinished | ParentUnfinished | ParentUnrecorded

  /** What one poll of waitOnParentShard finds in the parent's row. */
  function PollParent(hasParent: bool, parentRow: Option<Row>): Wait {
    if !hasParent then NoParentShard
    else if !Fetchable(parentRow) then ParentUnrecorded
    else if CheckpointOf(parentRow) == Some(ShardEnd) then ParentFinished
    else ParentUnfinished
  }

  /** The wait ends exactly when the shard has no parent, the parent's checkpoint is SHARD_END, or
      the parent's row records no checkpoint; only the last of these is a gap. */
  lemma PollMeaning(hasParent: bool, row: Option<Row>)
    ensures var wait := PollParent(hasParent, row);
            && (wait == NoParentShard <==> !hasParent)
            && (wait == ParentFinished <==> hasParent && row.Some? && row.value.checkpoint == Some(ShardEnd))
            && (wait == ParentUnrecorded <==> hasParent && (row.None? || row.value.checkpoint.None?))
            && (wait == ParentUnfinished <==>
                hasParent && row.Some? && row.value.checkpoint.Some? && row.value.checkpoint != Some(ShardEnd))
    ensures forall cache, s: StreamState, id ::
              id in s.consumers && s.consumers[id].phase == Waiting ==>
                (StreamEnabled(cache, PollParent(hasParent, row), s, EndWait(id)) <==>
                 || !hasParent || row.None? || row.value.checkpoint.None? || row.value.checkpoint == Some(ShardEnd))
  {
  }

  /** The record numbers from lo up to, not including, hi. */
  function Span(lo: nat, hi: nat): (r: set<nat>)
    ensures forall i :: i in r <==> lo <= i < hi
  {
    if lo < hi then Span(lo, hi - 1) + {hi - 1} else {}
  }

  predicate StreamEnabled(cache: map<WorkerId, Cached>, poll: Wait, s: StreamState, op: StreamOp) {
    match op
    case Publish => !s.closed
    case Close => true
    case StartConsumer(id, w) => id !in s.consumers && w in cache
    case EndWait(id) => id in s.consumers && s.consumers[id].phase.Waiting? && poll != ParentUnfinished
    case TakePosition(id) => id in s.consumers && s.consumers[id].phase.Ready? && s.consumers[id].worker in cache
    case Deliver(id, upTo) => id in s.consumers && s.consumers[id].phase.Running?
      && s.consumers[id].phase.next <= upTo <= s.length
    case Terminate(id) => id in s.consumers && s.consumers[id].phase.Running?
      && s.length <= s.consumers[id].phase.next && s.closed
    case StopConsumer(id) => id in s.consumers
  }

  function StreamStep(cache: map<WorkerId, Cached>, poll: Wait, s: StreamState, op: StreamOp): StreamState
    requires StreamEnabled(cache, poll, s, op)
  {
    match op
    case Publish => s.(length := s.length + 1)
    case Close => s.(closed := true)
    case StartConsumer(id, w) => s.(consumers := s.consumers[id := Consumer(w, Waiting)])
    case EndWait(id) =>
      s.(consumers := s.consumers[id := s.consumers[id].(phase := Ready)],
         started := true, gap := s.gap || poll == ParentUnrecorded)
    case TakePosition(id) =>
      (match cache[s.consumers[id].worker].checkpoint
       case Unset =>
         var origin := if s.initial.Latest? then s.length else FirstOrigin(s.initial);
         s.(consumers := s.consumers[id := s.consumers[id].(phase := Running(origin))], origin := origin)
       case At(k) => s.(consumers := s.consumers[id := s.consumers[id].(phase := Running(k + 1))])
       // Kinesis rejects "SHARD_END" as a sequence number
       case ShardEnd => s.(consumers := s.consumers - {id}))
    case Deliver(id, upTo) =>
      s.(consumers := s.consumers[id := s.consumers[id].(phase := Running(upTo))],
         delivered := s.delivered + Span(s.consumers[id].phase.next, upTo))
    case Terminate(id) => s.(consumers := s.consumers - {id}, ended := true)
    case StopConsumer(id) => s.(consumers := s.consumers - {id})
  }

  /** What applications are trusted with: a checkpoint names a record that was delivered, and
      nil (SHARD_END) is passed only after a TERMINATE. */
  predicate Checkpointable(s: StreamState, p: Position) {
    match p
    case Unset => false
    case At(k) => k in s.delivered
    case ShardEnd => s.ended
  }

  // ----- The whole system -----

  datatype ShardState = ShardState(lease: LeaseState, stream: StreamState)

  datatype World = World(now: Time, shards: map<ShardId, ShardState>)

  datatype Step =
    | Tick(now: Time)
    | Lease(shard: ShardId, leaseOp: LeaseOp)
    | Stream(shard: ShardId, streamOp: StreamOp)

  /** The parent recorded for each shard; a shard that is no key has none. */
  type Parents = map<ShardId, ShardId>

  function ParentOf(parents: Parents, shard: ShardId): ShardId {
    if shard in parents then parents[shard] else NoShard
  }

  function RowOf(w: World, shard: ShardId): Option<Row> {
    if shard in w.shards then w.shards[shard].lease.row else None
  }

  function Poll(parents: Parents, w: World, shard: ShardId): Wait {
    var parent := ParentOf(parents, shard);
    PollParent(parent != NoShard, RowOf(w, parent))
  }

  predicate Enabled(parents: Parents, w: World, step: Step) {
    match step
    case Tick(t) => w.now <= t
    case Lease(shard, op) =>
      && shard in w.shards
      && LeaseEnabled(w.shards[shard].lease, op)
      && (op.SetCheckpoint? ==> Checkpointable(w.shards[shard].stream, op.position))
    case Stream(shard, op) =>
      && shard in w.shards
      && StreamEnabled(w.shards[shard].lease.cache, Poll(parents, w, shard), w.shards[shard].stream, op)
  }

  function Next(cfg: Config, parents: Parents, w: World, step: Step): World
    requires Enabled(parents, w, step)
  {
    match step
    case Tick(t) => w.(now := t)
    case Lease(shard, op) =>
      var s := w.shards[shard];
      w.(shards := w.shards[shard := s.(lease := LeaseStep(cfg, ParentOf(parents, shard), w.now, s.lease, op))])
    case Stream(shard, op) =>
      var s := w.shards[shard];
      w.(shards := w.shards[shard := s.(stream := StreamStep(s.lease.cache, Poll(parents, w, shard), s.stream, op))])
  }

  const NEW_LEASE := LeaseState(None, map[], map[])

  function NewStream(initial: InitialPosition): StreamState {
    StreamState(initial, FirstOrigin(initial), 0, false, map[], {}, false, false, false)
  }

  predicate Initial(w: World) {
    && ZERO_TIME < w.now
    && NoShard !in w.shards
    && forall s :: s in w.shards ==> w.shards[s] == ShardState(NEW_LEASE, NewStream(w.shards[s].stream.initial))
  }

  /** The worlds a sequence of steps passes through. */
  predicate IsRun(cfg: Config, parents: Parents, worlds: seq<World>, steps: seq<Step>) {
    && |worlds| == |steps| + 1
    && Initial(worlds[0])
    && forall i :: 0 <= i < |steps| ==>
         Enabled(parents, worlds[i], steps[i]) && worlds[i + 1] == Next(cfg, parents, worlds[i], steps[i])
  }
}
