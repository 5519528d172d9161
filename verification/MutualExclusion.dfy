/** At most one worker holds a live lease on a shard, in every interleaved run whose workers
    keep the lease discipline, with lease stealing off or on. */
module MutualExclusion {
  import opened LeaseTypes
  import opened LeaseRules
  import opened Protocol

  /** The worker believes it owns the shard and its cached lease has not timed out. */
  predicate Live(now: Time, w: WorkerId, cached: Cached) {
    w != Nobody && cached.owner == w && now < cached.timeout
  }

  predicate Holder(l: LeaseState, now: Time, w: WorkerId) {
    w in l.cache && Live(now, w, l.cache[w])
  }

  /** The row names the worker as owner, with a timeout no earlier than the cached one. */
  predicate Backed(row: Option<Row>, w: WorkerId, cached: Cached) {
    OwnerOf(row) == Some(w) && TimeoutOf(row).Some? && cached.timeout <= TimeoutOf(row).value
  }

  predicate SameLease(a: Option<Row>, b: Option<Row>) {
    OwnerOf(a) == OwnerOf(b) && TimeoutOf(a) == TimeoutOf(b)
  }

  // ----- The lease discipline -----

  /** Every lease the worker still counts on, in its cache or landed but not yet adopted, has
      run out by then. */
  predicate CoveredBy(now: Time, l: LeaseState, w: WorkerId, until: Time) {
    && (w in l.cache && now < l.cache[w].timeout ==> l.cache[w].timeout <= until)
    && forall id :: (&& id in l.calls && l.calls[id].LeaseLanded? && l.calls[id].worker == w
                     && now < l.calls[id].newTimeout) ==> l.calls[id].newTimeout <= until
  }

  predicate NothingLanded(now: Time, l: LeaseState, w: WorkerId) {
    forall id :: id in l.calls && l.calls[id].LeaseLanded? && l.calls[id].worker == w ==> l.calls[id].newTimeout <= now
  }

  /** What a worker must check before a call takes effect.  Everything here is visible to the
      worker itself, or is the demand that one of its own two-part calls is not interrupted by
      another of its own calls. */
  predicate LeaseDisciplined(cfg: Config, now: Time, l: LeaseState, op: LeaseOp)
    requires LeaseEnabled(l, op)
  {
    match op
    // with stealing on: a claim counts as expired only on the timeout of the row that was read
    case JudgeClaim(id) =>
      var c := l.calls[id];
      cfg.stealing && ClaimExpired(cfg, l.cache[c.worker].timeout, now) && FullyLeased(c.row) ==>
        TimeoutOf(c.row).value == l.cache[c.worker].timeout
    // a put does not shorten a lease the worker counts on
    case PutLease(id, _) => CoveredBy(now, l, l.calls[id].worker, l.calls[id].newTimeout)
    // a checkpoint is saved only while the lease is live, and shortens none the worker counts on
    case SaveCheckpoint(id) =>
      var c := l.calls[id];
      && Holder(l, now, c.worker)
      && c.item.owner == Some(c.worker)
      && c.item.timeout.Some? && CoveredBy(now, l, c.worker, c.item.timeout.value)
    // a fetch that concerns the caller's own lease is one step, made while that lease is live
    case ApplyFetch(id) =>
      var c := l.calls[id];
      var own := l.cache[c.worker].owner == c.worker;
      && (own || OwnerOf(c.row) == Some(c.worker) || OwnerOf(l.row) == Some(c.worker) ==> SameLease(c.row, l.row))
      && (own ==> Holder(l, now, c.worker))
    // a sync that reports the caller as owner is one step
    case ApplySync(id) =>
      var c := l.calls[id];
      OwnerOf(c.row) == Some(c.worker) ==> SameLease(c.row, l.row)
    // the owner is removed only while the cache has forgotten it and no renewal is on its way there
    case RemoveOwner(w) => l.cache[w].owner != w && NothingLanded(now, l, w)
    case DeleteRow => false
    case _ => true
  }

  predicate Disciplined(cfg: Config, w: World, step: Step)
    requires step.Lease? ==> step.shard in w.shards && LeaseEnabled(w.shards[step.shard].lease, step.leaseOp)
  {
    step.Lease? ==> LeaseDisciplined(cfg, w.now, w.shards[step.shard].lease, step.leaseOp)
  }

  // ----- The inductive invariant -----

  /** A live holder is backed by the row; and when the row names a worker, the timeout in that
      worker's cache, live or not yet adopted, never runs past the row's. */
  predicate Exclusive(now: Time, row: Option<Row>, cache: map<WorkerId, Cached>) {
    && ZERO_TIME <= now
    && (OwnerOf(row).Some? ==> TimeoutOf(row).Some?)
    && forall w :: w in cache ==>
         && w != Nobody
         && (Live(now, w, cache[w]) ==> Backed(row, w, cache[w]))
         && (OwnerOf(row) == Some(w) && now < cache[w].timeout ==> Backed(row, w, cache[w]))
  }

  /** A pending lease put either demands an unowned row, or the very lease it read, which is
      the caller's own or has run out. */
  ghost predicate SoundPut(now: Time, me: WorkerId, newTimeout: Time, read: Option<Row>, put: Put) {
    && put.item.owner == Some(me)
    && put.item.timeout == Some(newTimeout)
    && (FullyLeased(read) ==> OwnerOf(read) == Some(me) || TimeoutOf(read).value <= now)
    && forall row :: Holds(row, put.condition) ==>
         if FullyLeased(read) then SameLease(row, read) else OwnerOf(row).None?
  }

  ghost predicate SoundCall(cfg: Config, now: Time, c: Call) {
    match c
    case LeaseStarted(_, _) => true
    case LeaseRead(_, _, _) => true
    case LeaseJudged(_, _, read, expired) =>
      cfg.stealing && expired && FullyLeased(read) ==> TimeoutOf(read).value <= now
    case LeaseDecided(me, newTimeout, read, _, put) => SoundPut(now, me, newTimeout, read, put)
    case LeaseLanded(_, _) => true
    case CheckpointMarshalled(_, _) => true
    case FetchRead(_, _) => true
    case SyncRead(_, _) => true
    case ClaimDecided(_, put) =>
      forall row :: Holds(row, put.condition) ==> SameLease(row, Some(put.item))
  }

  /** A landed lease that has not run out is backed by the row until its owner adopts it. */
  predicate LandedBacked(now: Time, row: Option<Row>, calls: map<nat, Call>) {
    forall id :: id in calls && calls[id].LeaseLanded? && now < calls[id].newTimeout ==>
      OwnerOf(row) == Some(calls[id].worker) && TimeoutOf(row).Some? && calls[id].newTimeout <= TimeoutOf(row).value
  }

  ghost predicate Sound(cfg: Config, now: Time, l: LeaseState) {
    && Exclusive(now, l.row, l.cache)
    && LandedBacked(now, l.row, l.calls)
    && forall id :: id in l.calls ==> SoundCall(cfg, now, l.calls[id])
  }

  // ----- Each effect on the row or a cache keeps exclusion -----

  /** A lease put that lands leaves every live holder, and every lease not yet adopted, backed. */
  lemma LeaseGranted(now: Time, l: LeaseState, me: WorkerId, newTimeout: Time, read: Option<Row>, put: Put)
    requires Exclusive(now, l.row, l.cache) && LandedBacked(now, l.row, l.calls) && me in l.cache
    requires SoundPut(now, me, newTimeout, read, put) && Holds(l.row, put.condition)
    requires CoveredBy(now, l, me, newTimeout)
    ensures Exclusive(now, Some(put.item), l.cache) && LandedBacked(now, Some(put.item), l.calls)
  {
    assert if FullyLeased(read) then SameLease(l.row, read) else OwnerOf(l.row).None?;
    assert forall w :: w in l.cache && w != me && Live(now, w, l.cache[w]) ==> Backed(l.row, w, l.cache[w]);
  }

  lemma DecisionIsSound(cfg: Config, now: Time, row: Option<Row>, me: WorkerId, checkpoint: Position, parent: ShardId,
                        newTimeout: Time, expired: bool)
    requires cfg.stealing && expired && FullyLeased(row) ==> TimeoutOf(row).value <= now
    ensures var d := DecideLease(cfg, row, me, checkpoint, parent, newTimeout, expired, now);
            d.Ok? ==> SoundPut(now, me, newTimeout, row, d.value)
  {
    forall r: Option<Row> | Holds(r, LeaseCondition(cfg, row, me, expired))
      ensures if FullyLeased(row) then SameLease(r, row) else OwnerOf(r).None?
    {
      LeaseConditionMeaning(cfg, row, me, expired, r);
    }
  }

  lemma ClaimKeepsLease(cached: Cached, parent: ShardId, claimant: WorkerId)
    ensures var put := ClaimPut(cached, parent, claimant);
            forall row :: Holds(row, put.condition) ==> SameLease(row, Some(put.item))
  {
    forall row: Option<Row> | Holds(row, ClaimCondition(cached, parent))
      ensures SameLease(row, Some(ClaimPut(cached, parent, claimant).item))
    {
      ClaimConditionMeaning(cached, parent, row);
    }
  }

  lemma CallAdded(cfg: Config, now: Time, l: LeaseState, id: nat, c: Call)
    requires Sound(cfg, now, l) && SoundCall(cfg, now, c) && !c.LeaseLanded?
    ensures Sound(cfg, now, l.(calls := l.calls[id := c]))
  {
  }

  lemma CallDone(cfg: Config, now: Time, l: LeaseState, id: nat)
    requires Sound(cfg, now, l)
    ensures Sound(cfg, now, Done(l, id))
  {
  }

  lemma PutKeepsSound(cfg: Config, parent: ShardId, now: Time, l: LeaseState, id: nat, answered: bool)
    requires Sound(cfg, now, l) && LeaseEnabled(l, PutLease(id, answered))
    requires LeaseDisciplined(cfg, now, l, PutLease(id, answered))
    ensures Sound(cfg, now, LeaseStep(cfg, parent, now, l, PutLease(id, answered)))
  {
    var c := l.calls[id];
    assert SoundCall(cfg, now, c);
    if Holds(l.row, c.put.condition) {
      LeaseGranted(now, l, c.worker, c.newTimeout, c.row, c.put);
    }
  }

  lemma SaveKeepsSound(cfg: Config, parent: ShardId, now: Time, l: LeaseState, id: nat)
    requires Sound(cfg, now, l) && LeaseEnabled(l, SaveCheckpoint(id))
             && LeaseDisciplined(cfg, now, l, SaveCheckpoint(id))
    ensures Sound(cfg, now, LeaseStep(cfg, parent, now, l, SaveCheckpoint(id)))
  {
    assert Backed(l.row, l.calls[id].worker, l.cache[l.calls[id].worker]);
  }

  /** The steps that change nothing but a cache: what it takes over is live only if the row backs it. */
  lemma CacheStepKeepsSound(cfg: Config, parent: ShardId, now: Time, l: LeaseState, op: LeaseOp)
    requires op.Discover? || op.AdoptLease? || op.SetCheckpoint? || op.ApplyFetch? || op.ApplySync? || op.ForgetOwner?
    requires Sound(cfg, now, l) && LeaseEnabled(l, op) && LeaseDisciplined(cfg, now, l, op)
    ensures Sound(cfg, now, LeaseStep(cfg, parent, now, l, op))
  {
  }

  /** One lease step on a shard keeps the invariant. */
  lemma LeaseStepKeepsSound(cfg: Config, parent: ShardId, now: Time, l: LeaseState, op: LeaseOp)
    requires Sound(cfg, now, l) && LeaseEnabled(l, op) && LeaseDisciplined(cfg, now, l, op)
    ensures Sound(cfg, now, LeaseStep(cfg, parent, now, l, op))
  {
    var m := LeaseStep(cfg, parent, now, l, op);
    match op
    case StartLease(id, _) => CallAdded(cfg, now, l, id, m.calls[id]);
    case ReadLease(id) => CallAdded(cfg, now, l, id, m.calls[id]);
    case JudgeClaim(id) => CallAdded(cfg, now, l, id, m.calls[id]);
    case DecideOnLease(id) =>
      var c := l.calls[id];
      assert SoundCall(cfg, now, c);
      DecisionIsSound(cfg, now, c.row, c.worker, l.cache[c.worker].checkpoint, parent, c.newTimeout, c.expired);
      if id in m.calls {
        CallAdded(cfg, now, l, id, m.calls[id]);
      } else {
        CallDone(cfg, now, l, id);
      }
    case PutLease(id, answered) => PutKeepsSound(cfg, parent, now, l, id, answered);
    case DecideClaim(id, w) =>
      ClaimKeepsLease(l.cache[w], parent, w);
      CallAdded(cfg, now, l, id, m.calls[id]);
    case PutClaim(id) =>
      assert SoundCall(cfg, now, l.calls[id]);
      CallDone(cfg, now, l.(row := m.row), id);
    case SaveCheckpoint(id) => SaveKeepsSound(cfg, parent, now, l, id);
    case MarshalCheckpoint(id, _) => CallAdded(cfg, now, l, id, m.calls[id]);
    case ReadForFetch(id, _) => CallAdded(cfg, now, l, id, m.calls[id]);
    case ReadForSync(id, _) => CallAdded(cfg, now, l, id, m.calls[id]);
    case Abandon(id) => CallDone(cfg, now, l, id);
    case RemoveOwner(_) =>
    case _ => CacheStepKeepsSound(cfg, parent, now, l, op);
  }

  lemma TimePassesSound(cfg: Config, now: Time, later: Time, l: LeaseState)
    requires Sound(cfg, now, l) && now <= later
    ensures Sound(cfg, later, l)
  {
    forall id | id in l.calls ensures SoundCall(cfg, later, l.calls[id]) {
      assert SoundCall(cfg, now, l.calls[id]);
    }
  }

  // ----- Whole runs -----

  ghost predicate AllSound(cfg: Config, w: World) {
    forall s :: s in w.shards ==> Sound(cfg, w.now, w.shards[s].lease)
  }

  lemma StepKeepsSound(cfg: Config, parents: Parents, w: World, step: Step)
    requires AllSound(cfg, w) && Enabled(parents, w, step) && Disciplined(cfg, w, step)
    ensures AllSound(cfg, Next(cfg, parents, w, step))
  {
    match step
    case Tick(t) =>
      forall s | s in w.shards ensures Sound(cfg, t, w.shards[s].lease) {
        TimePassesSound(cfg, w.now, t, w.shards[s].lease);
      }
    case Lease(shard, op) =>
      LeaseStepKeepsSound(cfg, ParentOf(parents, shard), w.now, w.shards[shard].lease, op);
    case Stream(shard, op) =>
  }

  predicate DisciplinedRun(cfg: Config, parents: Parents, worlds: seq<World>, steps: seq<Step>) {
    && IsRun(cfg, parents, worlds, steps)
    && forall i :: 0 <= i < |steps| ==> Disciplined(cfg, worlds[i], steps[i])
  }

  lemma {:induction false} RunsAreSound(cfg: Config, parents: Parents, worlds: seq<World>, steps: seq<Step>, i: nat)
    requires DisciplinedRun(cfg, parents, worlds, steps) && i < |worlds|
    ensures AllSound(cfg, worlds[i])
  {
    if i > 0 {
      RunsAreSound(cfg, parents, worlds, steps, i - 1);
      StepKeepsSound(cfg, parents, worlds[i - 1], steps[i - 1]);
    }
  }

  /** Mutual exclusion, with lease stealing off or on: at every moment of a disciplined run
      two live holders of one shard are the same worker, and the row names it as owner with a
      timeout that has not passed. */
  lemma AtMostOneHolder(cfg: Config, parents: Parents, worlds: seq<World>, steps: seq<Step>, i: nat,
                        shard: ShardId, w1: WorkerId, w2: WorkerId)
    requires DisciplinedRun(cfg, parents, worlds, steps) && i < |worlds| && shard in worlds[i].shards
    requires Holder(worlds[i].shards[shard].lease, worlds[i].now, w1)
    requires Holder(worlds[i].shards[shard].lease, worlds[i].now, w2)
    ensures w1 == w2
    ensures var row := RowOf(worlds[i], shard);
            OwnerOf(row) == Some(w1) && TimeoutOf(row).Some? && worlds[i].now < TimeoutOf(row).value
  {
    RunsAreSound(cfg, parents, worlds, steps, i);
    var l := worlds[i].shards[shard].lease;
    assert Backed(l.row, w1, l.cache[w1]) && Backed(l.row, w2, l.cache[w2]);
  }
}
