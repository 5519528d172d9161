/** No record is skipped, and a parent shard is finished before its child is read: over every
    interleaved run, with no assumption on clocks, leases or mutual exclusion. */
module Delivery {
  import opened LeaseTypes
  import opened LeaseRules
  import opened Protocol

  /** Every record from the origin up to, not including, n has been delivered. */
  predicate DeliveredUpTo(s: StreamState, n: nat) {
    forall i :: s.origin <= i < n ==> i in s.delivered
  }

  /** It is safe to resume from this position: nothing at or before it is undelivered, and
      SHARD_END stands for the whole, closed shard. */
  predicate Safe(s: StreamState, p: Position) {
    match p
    case Unset => true
    case At(k) => DeliveredUpTo(s, k + 1)
    case ShardEnd => s.ended
  }

  predicate SafeRow(s: StreamState, row: Option<Row>) {
    CheckpointOf(row).Some? ==> Safe(s, CheckpointOf(row).value)
  }

  /** The positions a call in flight may still write to the table or to a cache. */
  predicate SafeCall(s: StreamState, c: Call) {
    match c
    case LeaseStarted(_, _) => true
    case LeaseRead(_, _, row) => SafeRow(s, row)
    case LeaseJudged(_, _, row, _) => SafeRow(s, row)
    case LeaseDecided(_, _, row, _, put) => SafeRow(s, row) && SafeRow(s, Some(put.item))
    case LeaseLanded(_, _) => true
    case CheckpointMarshalled(_, item) => SafeRow(s, Some(item))
    case FetchRead(_, row) => SafeRow(s, row)
    case SyncRead(_, row) => SafeRow(s, row)
    case ClaimDecided(_, put) => SafeRow(s, Some(put.item))
  }

  predicate SafeLease(s: StreamState, l: LeaseState) {
    && SafeRow(s, l.row)
    && (forall w :: w in l.cache ==> Safe(s, l.cache[w].checkpoint))
    && (forall id :: id in l.calls ==> SafeCall(s, l.calls[id]))
  }

  /** Deliveries leave no hole after the origin, each consumer continues where they are
      complete, and the shard has ended only once it is closed and delivered in full. */
  predicate SafeStream(s: StreamState) {
    && (if s.initial.Latest? then s.origin <= s.length else s.origin == FirstOrigin(s.initial))
    && (forall j :: j in s.delivered ==> j < s.length && DeliveredUpTo(s, j))
    && (forall id :: id in s.consumers && s.consumers[id].phase.Running? ==>
          DeliveredUpTo(s, s.consumers[id].phase.next))
    && (s.ended ==> s.closed && DeliveredUpTo(s, s.length))
    && ((s.ended || s.delivered != {} || exists id :: id in s.consumers && !s.consumers[id].phase.Waiting?)
        ==> s.started)
  }

  predicate SafeShard(s: ShardState) {
    SafeStream(s.stream) && SafeLease(s.stream, s.lease)
  }

  lemma CallAdded(s: StreamState, l: LeaseState, id: nat, c: Call)
    requires SafeLease(s, l) && SafeCall(s, c)
    ensures SafeLease(s, l.(calls := l.calls[id := c]))
  {
  }

  lemma CacheChanged(s: StreamState, l: LeaseState, w: WorkerId, cached: Cached)
    requires SafeLease(s, l) && Safe(s, cached.checkpoint)
    ensures SafeLease(s, l.(cache := l.cache[w := cached]))
  {
  }

  lemma CallDone(s: StreamState, l: LeaseState, id: nat)
    requires SafeLease(s, l)
    ensures SafeLease(s, Done(l, id))
  {
  }

  lemma DeliveredIsSafe(s: StreamState, p: Position)
    requires SafeStream(s) && Checkpointable(s, p)
    ensures Safe(s, p)
  {
    if p.At? {
      assert DeliveredUpTo(s, p.index);
    }
  }

  lemma PutIsSafe(cfg: Config, parent: ShardId, now: Time, s: StreamState, l: LeaseState, id: nat, answered: bool)
    requires SafeLease(s, l) && LeaseEnabled(l, PutLease(id, answered))
    ensures SafeLease(s, LeaseStep(cfg, parent, now, l, PutLease(id, answered)))
  {
    var c := l.calls[id];
    assert SafeCall(s, c);
  }

  lemma LeaseStepKeepsSafe(cfg: Config, parent: ShardId, now: Time, s: ShardState, op: LeaseOp)
    requires SafeShard(s) && LeaseEnabled(s.lease, op)
    requires op.SetCheckpoint? ==> Checkpointable(s.stream, op.position)
    ensures SafeLease(s.stream, LeaseStep(cfg, parent, now, s.lease, op))
  {
    var t, l, m := s.stream, s.lease, LeaseStep(cfg, parent, now, s.lease, op);
    match op
    case Discover(w) => CacheChanged(t, l, w, FRESH);
    case SetCheckpoint(w, p) =>
      DeliveredIsSafe(t, p);
      CacheChanged(t, l, w, m.cache[w]);
    case PutLease(id, answered) => PutIsSafe(cfg, parent, now, t, l, id, answered);
    case AdoptLease(id) => CacheChanged(t, l, l.calls[id].worker, m.cache[l.calls[id].worker]);
    case SaveCheckpoint(id) =>
      assert SafeCall(t, l.calls[id]);
      CallDone(t, l.(row := m.row), id);
    case ApplyFetch(id) =>
      assert SafeCall(t, l.calls[id]);
      CacheChanged(t, l, l.calls[id].worker, m.cache[l.calls[id].worker]);
    case ApplySync(id) =>
      assert SafeCall(t, l.calls[id]);
      CacheChanged(t, l, l.calls[id].worker, m.cache[l.calls[id].worker]);
    case PutClaim(id) =>
      assert SafeCall(t, l.calls[id]);
      CallDone(t, l.(row := m.row), id);
    case ForgetOwner(w) => CacheChanged(t, l, w, m.cache[w]);
    case RemoveOwner(w) =>
    case DeleteRow =>
    case ReadLease(id) => CallAdded(t, l, id, m.calls[id]);
    case JudgeClaim(id) =>
      assert SafeCall(t, l.calls[id]);
      CallAdded(t, l, id, m.calls[id]);
    case DecideOnLease(id) =>
      assert SafeCall(t, l.calls[id]);
      if id in m.calls {
        CallAdded(t, l, id, m.calls[id]);
      }
    case _ =>
  }

  /** What was safe stays safe as more is delivered. */
  lemma SafeGrows(s: StreamState, t: StreamState, l: LeaseState)
    requires SafeLease(s, l) && s.delivered <= t.delivered && s.origin <= t.origin && (s.ended ==> t.ended)
    ensures SafeLease(t, l)
  {
    forall n: nat | DeliveredUpTo(s, n) ensures DeliveredUpTo(t, n) { }
    forall p: Position | Safe(s, p) ensures Safe(t, p) { }
    forall id | id in l.calls ensures SafeCall(t, l.calls[id]) {
      assert SafeCall(s, l.calls[id]);
    }
  }

  /** A delivery fills the gap between where the consumer was and where it is now. */
  lemma DeliverKeepsSafe(poll: Wait, s: ShardState, id: nat, upTo: nat)
    requires SafeShard(s) && StreamEnabled(s.lease.cache, poll, s.stream, Deliver(id, upTo))
    ensures SafeStream(StreamStep(s.lease.cache, poll, s.stream, Deliver(id, upTo)))
  {
    var t := StreamStep(s.lease.cache, poll, s.stream, Deliver(id, upTo));
    assert DeliveredUpTo(s.stream, s.stream.consumers[id].phase.next);
    assert DeliveredUpTo(t, upTo);
  }

  /** A consumer starts behind a checkpoint up to which everything was delivered, or at the origin. */
  lemma PositionKeepsSafe(poll: Wait, s: ShardState, id: nat)
    requires SafeShard(s) && StreamEnabled(s.lease.cache, poll, s.stream, TakePosition(id))
    ensures SafeStream(StreamStep(s.lease.cache, poll, s.stream, TakePosition(id)))
  {
    assert Safe(s.stream, s.lease.cache[s.stream.consumers[id].worker].checkpoint);
  }

  lemma StreamStepKeepsSafe(poll: Wait, s: ShardState, op: StreamOp)
    requires SafeShard(s) && StreamEnabled(s.lease.cache, poll, s.stream, op)
    ensures SafeShard(s.(stream := StreamStep(s.lease.cache, poll, s.stream, op)))
  {
    SafeGrows(s.stream, StreamStep(s.lease.cache, poll, s.stream, op), s.lease);
    match op
    case TakePosition(id) => PositionKeepsSafe(poll, s, id);
    case Deliver(id, upTo) => DeliverKeepsSafe(poll, s, id, upTo);
    case _ =>
  }

  // ----- Whole runs -----

  lemma {:induction false} RunsAreSafe(cfg: Config, parents: Parents, worlds: seq<World>, steps: seq<Step>, i: nat,
                                       shard: ShardId)
    requires IsRun(cfg, parents, worlds, steps) && i < |worlds| && shard in worlds[i].shards
    ensures SafeShard(worlds[i].shards[shard])
  {
    if i > 0 {
      RunsAreSafe(cfg, parents, worlds, steps, i - 1, shard);
      var w, step := worlds[i - 1], steps[i - 1];
      if step.Lease? && step.shard == shard {
        LeaseStepKeepsSafe(cfg, ParentOf(parents, shard), w.now, w.shards[shard], step.leaseOp);
      } else if step.Stream? && step.shard == shard {
        StreamStepKeepsSafe(Poll(parents, w, shard), w.shards[shard], step.streamOp);
      }
    }
  }

  /** The position is written in the shard's row, in some worker's cache, or in a put or a
      refresh that has not landed yet. */
  predicate Recorded(l: LeaseState, p: Position) {
    || CheckpointOf(l.row) == Some(p)
    || (exists w :: w in l.cache && l.cache[w].checkpoint == p)
    || (exists id :: id in l.calls && InFlight(l.calls[id], p))
  }

  predicate InFlight(c: Call, p: Position) {
    match c
    case LeaseDecided(_, _, _, _, put) => put.item.checkpoint == Some(p)
    case CheckpointMarshalled(_, item) => item.checkpoint == Some(p)
    case FetchRead(_, row) => CheckpointOf(row) == Some(p)
    case SyncRead(_, row) => CheckpointOf(row) == Some(p)
    case ClaimDecided(_, put) => put.item.checkpoint == Some(p)
    case _ => false
  }

  /** No record is skipped: wherever a checkpoint is recorded, every record from the origin up
      to it has been delivered; SHARD_END anywhere means the shard is closed and was delivered
      in full; and a consumer only ever continues after records that were all delivered.  Under
      TRIM_HORIZON the origin is record 0; under LATEST it moves only when a consumer starts
      on a shard without a checkpoint. */
  lemma NoRecordSkipped(cfg: Config, parents: Parents, worlds: seq<World>, steps: seq<Step>, i: nat, shard: ShardId,
                        p: Position)
    requires IsRun(cfg, parents, worlds, steps) && i < |worlds| && shard in worlds[i].shards
    ensures var s := worlds[i].shards[shard];
            Recorded(s.lease, p) ==>
              && (p.At? ==> forall r :: s.stream.origin <= r <= p.index ==> r in s.stream.delivered)
              && (p.ShardEnd? ==> s.stream.closed)
              && (p.ShardEnd? ==> forall r :: s.stream.origin <= r < s.stream.length ==> r in s.stream.delivered)
    ensures var s := worlds[i].shards[shard].stream;
            && (s.initial.TrimHorizon? ==> s.origin == 0)
            && forall id, r :: (&& id in s.consumers && s.consumers[id].phase.Running?
                                && s.origin <= r < s.consumers[id].phase.next) ==> r in s.delivered
  {
    RunsAreSafe(cfg, parents, worlds, steps, i, shard);
    var s := worlds[i].shards[shard];
    if Recorded(s.lease, p) {
      assert Safe(s.stream, p) by {
        if id :| id in s.lease.calls && InFlight(s.lease.calls[id], p) {
          assert SafeCall(s.stream, s.lease.calls[id]);
        }
      }
    }
  }

  // ----- Lineage -----

  /** The shard has no recorded parent, or its parent is closed and was delivered in full. */
  predicate ParentDone(parents: Parents, w: World, shard: ShardId) {
    var parent := ParentOf(parents, shard);
    parent == NoShard || (parent in w.shards && w.shards[parent].stream.ended)
  }

  predicate InOrder(parents: Parents, w: World, shard: ShardId) {
    shard in w.shards && w.shards[shard].stream.started && !w.shards[shard].stream.gap ==> ParentDone(parents, w, shard)
  }

  lemma EndedStays(cfg: Config, parents: Parents, w: World, step: Step, shard: ShardId)
    requires Enabled(parents, w, step)
    ensures var w' := Next(cfg, parents, w, step);
            w'.shards.Keys == w.shards.Keys
    ensures var w' := Next(cfg, parents, w, step);
            shard in w.shards && w.shards[shard].stream.ended ==> w'.shards[shard].stream.ended
  {
  }

  lemma StepKeepsOrder(cfg: Config, parents: Parents, w: World, step: Step, shard: ShardId)
    requires Enabled(parents, w, step) && InOrder(parents, w, shard)
    requires var parent := ParentOf(parents, shard);
             parent in w.shards ==> SafeShard(w.shards[parent])
    ensures InOrder(parents, Next(cfg, parents, w, step), shard)
  {
    var parent, w' := ParentOf(parents, shard), Next(cfg, parents, w, step);
    EndedStays(cfg, parents, w, step, shard);
    EndedStays(cfg, parents, w, step, parent);
    if shard in w.shards && w'.shards[shard].stream.started && !w'.shards[shard].stream.gap {
      if w.shards[shard].stream.started && !w.shards[shard].stream.gap {
        assert ParentDone(parents, w, shard);
      } else {
        assert step.Stream? && step.shard == shard && step.streamOp.EndWait?;
        assert Poll(parents, w, shard).NoParentShard? || Poll(parents, w, shard).ParentFinished?;
      }
      assert ParentDone(parents, w', shard);
    }
  }

  lemma {:induction false} RunsAreInOrder(cfg: Config, parents: Parents, worlds: seq<World>, steps: seq<Step>, i: nat,
                                          shard: ShardId)
    requires IsRun(cfg, parents, worlds, steps) && i < |worlds|
    ensures InOrder(parents, worlds[i], shard)
  {
    if i > 0 {
      RunsAreInOrder(cfg, parents, worlds, steps, i - 1, shard);
      var parent := ParentOf(parents, shard);
      if parent in worlds[i - 1].shards {
        RunsAreSafe(cfg, parents, worlds, steps, i - 1, parent);
      }
      StepKeepsOrder(cfg, parents, worlds[i - 1], steps[i - 1], shard);
    }
  }

  /** A lineage: each shard is the recorded parent of the one before it. */
  predicate Lineage(parents: Parents, chain: seq<ShardId>) {
    && |chain| > 0
    && forall k :: 0 < k < |chain| ==> chain[k] != NoShard && ParentOf(parents, chain[k - 1]) == chain[k]
  }

  /** Parent before child, along any lineage: once a record of the youngest shard has been
      delivered (or merely its wait is over), every ancestor is closed and each of its records
      was delivered, provided no wait on the way ended because the parent's row had no checkpoint. */
  lemma {:induction false} AncestorsFirst(cfg: Config, parents: Parents, worlds: seq<World>, steps: seq<Step>, i: nat,
                                          chain: seq<ShardId>, k: nat)
    requires IsRun(cfg, parents, worlds, steps) && i < |worlds| && Lineage(parents, chain)
    requires 0 < k < |chain| && chain[0] in worlds[i].shards
    requires worlds[i].shards[chain[0]].stream.delivered != {} || worlds[i].shards[chain[0]].stream.started
    requires forall m :: 0 <= m < k ==> chain[m] in worlds[i].shards ==> !worlds[i].shards[chain[m]].stream.gap
    ensures chain[k] in worlds[i].shards
    ensures var s := worlds[i].shards[chain[k]].stream;
            s.ended && s.closed && forall r :: s.origin <= r < s.length ==> r in s.delivered
  {
    if k > 1 {
      AncestorsFirst(cfg, parents, worlds, steps, i, chain, k - 1);
    }
    RunsAreSafe(cfg, parents, worlds, steps, i, chain[k - 1]);
    RunsAreInOrder(cfg, parents, worlds, steps, i, chain[k - 1]);
    assert ParentOf(parents, chain[k - 1]) == chain[k];
    RunsAreSafe(cfg, parents, worlds, steps, i, chain[k]);
  }
}
