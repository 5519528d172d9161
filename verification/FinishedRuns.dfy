/** What can become of a finished row when the operations interleave.  Which writes undo SHARD_END
    is decided when they are built, by what the worker's cache says then. */
module FinishedRuns {
  import opened LeaseTypes
  import opened LeaseRules
  import opened Protocol
  import opened MutualExclusion

  // ----- What every run keeps of the puts in flight -----

  /** A lease put demands the lease that was read and names the caller as owner; a claim cannot
      land on a finished row. */
  ghost predicate WellBuilt(cfg: Config, c: Call) {
    match c
    case LeaseDecided(w, _, read, expired, put) =>
      put.condition == LeaseCondition(cfg, read, w, expired) && put.item.owner == Some(w) && put.item.claim.None?
    case ClaimDecided(_, put) => forall row :: Finished(row) ==> !Holds(row, put.condition)
    case _ => true
  }

  ghost predicate AllWellBuilt(cfg: Config, l: LeaseState) {
    forall id :: id in l.calls ==> WellBuilt(cfg, l.calls[id])
  }

  lemma ClaimsSpareFinished(cached: Cached, parent: ShardId, claimant: WorkerId)
    ensures forall row :: Finished(row) ==> !Holds(row, ClaimPut(cached, parent, claimant).condition)
  {
    forall row: Option<Row> | Finished(row) ensures !Holds(row, ClaimCondition(cached, parent)) {
      ClaimConditionMeaning(cached, parent, row);
    }
  }

  lemma LeaseStepBuildsWell(cfg: Config, parent: ShardId, now: Time, l: LeaseState, op: LeaseOp)
    requires AllWellBuilt(cfg, l) && LeaseEnabled(l, op)
    ensures AllWellBuilt(cfg, LeaseStep(cfg, parent, now, l, op))
  {
    if op.DecideClaim? {
      ClaimsSpareFinished(l.cache[op.worker], parent, op.worker);
    }
  }

  lemma {:induction false} RunsBuildWell(cfg: Config, parents: Parents, worlds: seq<World>, steps: seq<Step>, i: nat,
                                         shard: ShardId)
    requires IsRun(cfg, parents, worlds, steps) && i < |worlds| && shard in worlds[i].shards
    ensures AllWellBuilt(cfg, worlds[i].shards[shard].lease)
  {
    if i > 0 {
      RunsBuildWell(cfg, parents, worlds, steps, i - 1, shard);
      var w, step := worlds[i - 1], steps[i - 1];
      if step.Lease? && step.shard == shard {
        LeaseStepBuildsWell(cfg, ParentOf(parents, shard), w.now, w.shards[shard].lease, step.leaseOp);
      }
    }
  }

  /** In no run does a claim land on a finished row. */
  lemma FinishedIsNeverClaimed(cfg: Config, parents: Parents, worlds: seq<World>, steps: seq<Step>, i: nat,
                               shard: ShardId, id: nat)
    requires IsRun(cfg, parents, worlds, steps) && i < |steps| && steps[i] == Lease(shard, PutClaim(id))
    requires Finished(RowOf(worlds[i], shard))
    ensures RowOf(worlds[i + 1], shard) == RowOf(worlds[i], shard)
  {
    RunsBuildWell(cfg, parents, worlds, steps, i, shard);
    assert WellBuilt(cfg, worlds[i].shards[shard].lease.calls[id]);
  }

  // ----- The end is kept by workers that know of it -----

  /** What a worker can check before it writes: it decides on a lease only if GetLease refuses, or
      the row it read names it as owner and its cache says SHARD_END; no application checkpoints
      after nil; and the row is not deleted. */
  predicate RespectsEnd(cfg: Config, parent: ShardId, now: Time, l: LeaseState, op: LeaseOp)
    requires LeaseEnabled(l, op)
  {
    match op
    case DecideOnLease(id) =>
      var c := l.calls[id];
      || DecideLease(cfg, c.row, c.worker, l.cache[c.worker].checkpoint, parent, c.newTimeout, c.expired, now).Err?
      || (OwnerOf(c.row) == Some(c.worker) && FullyLeased(c.row) && l.cache[c.worker].checkpoint == ShardEnd)
    case MarshalCheckpoint(_, _) => false
    case DeleteRow => false
    case _ => true
  }

  /** A write that is already on its way carries SHARD_END, and renews the lease it read. */
  predicate Settled(c: Call) {
    && !c.CheckpointMarshalled?
    && (c.LeaseDecided? ==>
          c.put.item.checkpoint == Some(ShardEnd) && OwnerOf(c.row) == Some(c.worker) && FullyLeased(c.row))
  }

  predicate EndSettled(l: LeaseState) {
    Finished(l.row) && forall id :: id in l.calls ==> Settled(l.calls[id])
  }

  /** Nobody has gained the shard, and no claim was placed on it. */
  predicate NobodyGains(before: Option<Row>, after: Option<Row>) {
    && (OwnerOf(after) == OwnerOf(before) || OwnerOf(after).None?)
    && (ClaimOf(after) == ClaimOf(before) || ClaimOf(after).None?)
  }

  lemma PutOnSettled(cfg: Config, parent: ShardId, now: Time, l: LeaseState, id: nat, answered: bool)
    requires EndSettled(l) && AllWellBuilt(cfg, l) && LeaseEnabled(l, PutLease(id, answered))
    ensures var m := LeaseStep(cfg, parent, now, l, PutLease(id, answered));
            EndSettled(m) && NobodyGains(l.row, m.row)
  {
    var c := l.calls[id];
    assert WellBuilt(cfg, c) && Settled(c);
    LeaseConditionMeaning(cfg, c.row, c.worker, c.expired, l.row);
  }

  lemma LeaseStepKeepsEnd(cfg: Config, parent: ShardId, now: Time, l: LeaseState, op: LeaseOp)
    requires EndSettled(l) && AllWellBuilt(cfg, l) && LeaseEnabled(l, op) && RespectsEnd(cfg, parent, now, l, op)
    ensures var m := LeaseStep(cfg, parent, now, l, op);
            EndSettled(m) && NobodyGains(l.row, m.row)
  {
    match op
    case PutLease(id, answered) => PutOnSettled(cfg, parent, now, l, id, answered);
    case PutClaim(id) => assert WellBuilt(cfg, l.calls[id]);
    case _ =>
  }

  predicate StepRespectsEnd(cfg: Config, parents: Parents, w: World, step: Step, shard: ShardId)
    requires Enabled(parents, w, step)
  {
    step.Lease? && step.shard == shard ==>
      RespectsEnd(cfg, ParentOf(parents, shard), w.now, w.shards[shard].lease, step.leaseOp)
  }

  /** From a moment at which the row is finished and nothing in flight can undo it, for as long as
      workers respect the end, the row stays at SHARD_END, is not claimed, and nobody but the
      owner it had is ever its owner: in every interleaved run, with no assumption on clocks,
      live leases or mutual exclusion. */
  lemma {:induction false} EndIsKept(cfg: Config, parents: Parents, worlds: seq<World>, steps: seq<Step>, i: nat,
                                     j: nat, shard: ShardId)
    requires IsRun(cfg, parents, worlds, steps) && i <= j < |worlds|
    requires shard in worlds[i].shards && EndSettled(worlds[i].shards[shard].lease)
    requires forall k :: i <= k < j ==> StepRespectsEnd(cfg, parents, worlds[k], steps[k], shard)
    ensures shard in worlds[j].shards && EndSettled(worlds[j].shards[shard].lease)
    ensures NobodyGains(RowOf(worlds[i], shard), RowOf(worlds[j], shard))
    decreases j
  {
    if i < j {
      EndIsKept(cfg, parents, worlds, steps, i, j - 1, shard);
      RunsBuildWell(cfg, parents, worlds, steps, j - 1, shard);
      var w, step := worlds[j - 1], steps[j - 1];
      assert StepRespectsEnd(cfg, parents, w, step, shard);
      if step.Lease? && step.shard == shard {
        LeaseStepKeepsEnd(cfg, ParentOf(parents, shard), w.now, w.shards[shard].lease, step.leaseOp);
      }
    }
  }

  /** The owner's renewal respects the end: in a disciplined run, a worker whose lease was live
      when it read the row, and whose cache says SHARD_END when it decides, may put. */
  lemma LiveRenewalRespectsEnd(cfg: Config, parents: Parents, worlds: seq<World>, steps: seq<Step>, r: nat, d: nat,
                               shard: ShardId, id: nat)
    requires DisciplinedRun(cfg, parents, worlds, steps) && r <= d < |steps|
    requires shard in worlds[r].shards && Enabled(parents, worlds[d], steps[d])
             && steps[d] == Lease(shard, DecideOnLease(id))
    requires var l := worlds[d].shards[shard].lease;
             && l.calls[id].row == RowOf(worlds[r], shard)
             && Holder(worlds[r].shards[shard].lease, worlds[r].now, l.calls[id].worker)
             && l.cache[l.calls[id].worker].checkpoint == ShardEnd
    ensures StepRespectsEnd(cfg, parents, worlds[d], steps[d], shard)
  {
    var w := worlds[d].shards[shard].lease.calls[id].worker;
    AtMostOneHolder(cfg, parents, worlds, steps, r, shard, w, w);
  }

  // ----- Exactly which writes undo it -----

  /** The step builds a write of the row: a lease put, or the item of a checkpoint. */
  predicate Builds(step: Step, shard: ShardId, id: nat) {
    && step.Lease? && step.shard == shard
    && (step.leaseOp == DecideOnLease(id) || (step.leaseOp.MarshalCheckpoint? && step.leaseOp.id == id))
  }

  /** The last step before k that built what call id writes. */
  predicate BuiltAt(steps: seq<Step>, shard: ShardId, id: nat, d: nat, k: nat)
    requires k <= |steps|
  {
    d < k && Builds(steps[d], shard, id) && forall m :: d < m < k ==> !Builds(steps[m], shard, id)
  }

  /** It was built from a cache that did not say SHARD_END. */
  predicate Unaware(w: World, step: Step, shard: ShardId, id: nat) {
    && Builds(step, shard, id) && shard in w.shards && LeaseEnabled(w.shards[shard].lease, step.leaseOp)
    && var l := w.shards[shard].lease;
       l.cache[if step.leaseOp.MarshalCheckpoint? then step.leaseOp.worker else l.calls[id].worker]
         .checkpoint != ShardEnd
  }

  predicate Writes(c: Call) {
    c.LeaseDecided? || c.CheckpointMarshalled?
  }

  function ItemOf(c: Call): Row
    requires Writes(c)
  {
    if c.LeaseDecided? then c.put.item else c.item
  }

  predicate NothingStale(l: LeaseState) {
    forall id :: id in l.calls && Writes(l.calls[id]) ==> Finished(Some(ItemOf(l.calls[id])))
  }

  /** What one step does to the calls that write: one it builds says SHARD_END exactly if the cache
      it was built from does, and it changes no other. */
  lemma WriteAfterStep(cfg: Config, parents: Parents, w: World, step: Step, shard: ShardId, id: nat)
    requires Enabled(parents, w, step) && shard in w.shards
    requires var calls := Next(cfg, parents, w, step).shards[shard].lease.calls;
             id in calls && Writes(calls[id])
    ensures var calls := Next(cfg, parents, w, step).shards[shard].lease.calls;
            if Builds(step, shard, id) then Finished(Some(ItemOf(calls[id]))) <==> !Unaware(w, step, shard, id)
            else id in w.shards[shard].lease.calls && w.shards[shard].lease.calls[id] == calls[id]
  {
  }

  /** The pending write of call id at k was built at step d, or, without d, was pending at i already. */
  predicate Origin(worlds: seq<World>, steps: seq<Step>, i: nat, k: nat, shard: ShardId, id: nat, call: Call,
                   d: Option<nat>)
    requires |worlds| == |steps| + 1 && i <= k <= |steps| && Writes(call)
  {
    match d
    case Some(d) =>
      && i <= d && BuiltAt(steps, shard, id, d, k)
      && (Finished(Some(ItemOf(call))) <==> !Unaware(worlds[d], steps[d], shard, id))
    case None =>
      && shard in worlds[i].shards && id in worlds[i].shards[shard].lease.calls
      && worlds[i].shards[shard].lease.calls[id] == call
      && forall m :: i <= m < k ==> !Builds(steps[m], shard, id)
  }

  lemma OriginStays(worlds: seq<World>, steps: seq<Step>, i: nat, k: nat, shard: ShardId, id: nat, call: Call,
                    d: Option<nat>)
    requires |worlds| == |steps| + 1 && i <= k < |steps| && Writes(call)
    requires Origin(worlds, steps, i, k, shard, id, call, d) && !Builds(steps[k], shard, id)
    ensures Origin(worlds, steps, i, k + 1, shard, id, call, d)
  {
  }

  /** Where a pending write comes from. */
  lemma {:induction false} Provenance(cfg: Config, parents: Parents, worlds: seq<World>, steps: seq<Step>, i: nat,
                                      k: nat, shard: ShardId, id: nat)
    returns (d: Option<nat>)
    requires IsRun(cfg, parents, worlds, steps) && i <= k < |worlds| && shard in worlds[k].shards
    requires var calls := worlds[k].shards[shard].lease.calls;
             id in calls && Writes(calls[id])
    ensures Origin(worlds, steps, i, k, shard, id, worlds[k].shards[shard].lease.calls[id], d)
    decreases k
  {
    if i == k {
      return None;
    }
    var w, step := worlds[k - 1], steps[k - 1];
    assert Enabled(parents, w, step) && worlds[k] == Next(cfg, parents, w, step);
    assert worlds[k].shards.Keys == w.shards.Keys;
    WriteAfterStep(cfg, parents, w, step, shard, id);
    if Builds(step, shard, id) {
      return Some(k - 1);
    }
    d := Provenance(cfg, parents, worlds, steps, i, k - 1, shard, id);
    OriginStays(worlds, steps, i, k - 1, shard, id, worlds[k].shards[shard].lease.calls[id], d);
  }

  lemma {:induction false} ShardsStay(cfg: Config, parents: Parents, worlds: seq<World>, steps: seq<Step>, k: nat,
                                      shard: ShardId)
    requires IsRun(cfg, parents, worlds, steps) && k < |worlds|
    ensures forall m :: 0 <= m <= k ==> (shard in worlds[m].shards <==> shard in worlds[k].shards)
  {
    if k > 0 {
      ShardsStay(cfg, parents, worlds, steps, k - 1, shard);
      assert Enabled(parents, worlds[k - 1], steps[k - 1]);
      assert worlds[k].shards.Keys == worlds[k - 1].shards.Keys;
    }
  }

  /** What call id writes at step k was built since i, from a cache that did not say SHARD_END. */
  predicate Stale(worlds: seq<World>, steps: seq<Step>, i: nat, k: nat, shard: ShardId, id: nat)
    requires |worlds| == |steps| + 1 && i <= k <= |steps|
  {
    exists d :: i <= d < k && BuiltAt(steps, shard, id, d, k) && Unaware(worlds[d], steps[d], shard, id)
  }

  /** Step k deletes the row, or lands a stale write. */
  predicate Undoes(worlds: seq<World>, steps: seq<Step>, i: nat, k: nat, shard: ShardId)
    requires |worlds| == |steps| + 1 && i <= k < |steps|
    requires shard in worlds[k].shards
  {
    && steps[k].Lease? && steps[k].shard == shard && LeaseEnabled(worlds[k].shards[shard].lease, steps[k].leaseOp)
    && match steps[k].leaseOp
       case DeleteRow => true
       case PutLease(id, _) =>
         Holds(RowOf(worlds[k], shard), worlds[k].shards[shard].lease.calls[id].put.condition)
         && Stale(worlds, steps, i, k, shard, id)
       case SaveCheckpoint(id) => Stale(worlds, steps, i, k, shard, id)
       case _ => false
  }

  /** A pending write says something else than SHARD_END exactly if it is stale. */
  lemma StaleMeaning(cfg: Config, parents: Parents, worlds: seq<World>, steps: seq<Step>, i: nat, k: nat,
                     shard: ShardId, id: nat)
    requires IsRun(cfg, parents, worlds, steps) && i <= k < |worlds| && shard in worlds[k].shards
    requires shard in worlds[i].shards && NothingStale(worlds[i].shards[shard].lease)
    requires var calls := worlds[k].shards[shard].lease.calls;
             id in calls && Writes(calls[id])
    ensures Stale(worlds, steps, i, k, shard, id) <==> !Finished(Some(ItemOf(worlds[k].shards[shard].lease.calls[id])))
  {
    var d := Provenance(cfg, parents, worlds, steps, i, k, shard, id);
    if d.Some? {
      assert forall e :: i <= e < k && BuiltAt(steps, shard, id, e, k) ==> e == d.value;
    }
  }

  lemma UndoesMeaning(cfg: Config, parents: Parents, worlds: seq<World>, steps: seq<Step>, i: nat, k: nat,
                      shard: ShardId)
    requires IsRun(cfg, parents, worlds, steps) && i <= k < |steps| && shard in worlds[k].shards
    requires shard in worlds[i].shards && NothingStale(worlds[i].shards[shard].lease)
    requires Finished(RowOf(worlds[k], shard))
    ensures shard in worlds[k + 1].shards
    ensures Finished(RowOf(worlds[k + 1], shard)) <==> !Undoes(worlds, steps, i, k, shard)
  {
    var step := steps[k];
    assert Enabled(parents, worlds[k], step);
    if step.Lease? && step.shard == shard {
      match step.leaseOp
      case PutLease(id, _) => StaleMeaning(cfg, parents, worlds, steps, i, k, shard, id);
      case SaveCheckpoint(id) => StaleMeaning(cfg, parents, worlds, steps, i, k, shard, id);
      case PutClaim(id) => FinishedIsNeverClaimed(cfg, parents, worlds, steps, k, shard, id);
      case _ =>
    }
  }

  /** In every interleaved run, from a finished row that no write in flight can undo: the row stays
      finished exactly if it is not deleted and no write lands that was built, since then, by a
      worker whose cache did not say SHARD_END when it built it. */
  lemma {:induction false} FinishedExactly(cfg: Config, parents: Parents, worlds: seq<World>, steps: seq<Step>,
                                           i: nat, j: nat, shard: ShardId)
    requires IsRun(cfg, parents, worlds, steps) && i <= j < |worlds| && shard in worlds[i].shards
    requires Finished(RowOf(worlds[i], shard)) && NothingStale(worlds[i].shards[shard].lease)
    ensures forall k :: i <= k <= j ==> shard in worlds[k].shards
    ensures (forall k :: i <= k < j ==> !Undoes(worlds, steps, i, k, shard)) <==>
            forall k :: i <= k <= j ==> Finished(RowOf(worlds[k], shard))
    decreases j
  {
    ShardsStay(cfg, parents, worlds, steps, j, shard);
    if i < j {
      FinishedExactly(cfg, parents, worlds, steps, i, j - 1, shard);
      if Finished(RowOf(worlds[j - 1], shard)) {
        UndoesMeaning(cfg, parents, worlds, steps, i, j - 1, shard);
      }
    }
  }
}
