/** A claim placed by ClaimShard reserves the shard for the claimant. */
module Claims {
  import opened LeaseTypes
  import opened LeaseRules
  import opened Protocol

  // ----- What every run keeps, disciplined or not -----

  predicate Timed(row: Option<Row>) {
    OwnerOf(row).Some? ==> TimeoutOf(row).Some?
  }

  predicate RegularCall(c: Call) {
    match c
    case LeaseRead(_, _, row) => Timed(row)
    case LeaseJudged(_, _, row, _) => Timed(row)
    case LeaseDecided(_, _, row, _, put) => Timed(row) && Timed(Some(put.item)) && put.item.claim.None?
    case CheckpointMarshalled(_, item) => Timed(Some(item)) && item.claim.None?
    case ClaimDecided(_, put) => Timed(Some(put.item)) && NoClaim in put.condition && put.item.checkpoint.Some?
    case _ => true
  }

  predicate Regular(l: LeaseState) {
    Timed(l.row) && forall id :: id in l.calls ==> RegularCall(l.calls[id])
  }

  lemma LeaseStepKeepsRegular(cfg: Config, parent: ShardId, now: Time, l: LeaseState, op: LeaseOp)
    requires Regular(l) && LeaseEnabled(l, op)
    ensures Regular(LeaseStep(cfg, parent, now, l, op))
  {
    match op
    case DecideClaim(id, w) =>
      assert ClaimCondition(l.cache[w], parent)[2] == NoClaim;
    case JudgeClaim(id) =>
      assert RegularCall(l.calls[id]);
    case DecideOnLease(id) =>
      assert RegularCall(l.calls[id]);
    case PutLease(id, _) =>
      assert RegularCall(l.calls[id]);
    case SaveCheckpoint(id) =>
      assert RegularCall(l.calls[id]);
    case PutClaim(id) =>
      assert RegularCall(l.calls[id]);
    case _ =>
  }

  lemma {:induction false} RunsAreRegular(cfg: Config, parents: Parents, worlds: seq<World>, steps: seq<Step>, i: nat,
                                          shard: ShardId)
    requires IsRun(cfg, parents, worlds, steps) && i < |worlds| && shard in worlds[i].shards
    ensures Regular(worlds[i].shards[shard].lease)
  {
    if i > 0 {
      RunsAreRegular(cfg, parents, worlds, steps, i - 1, shard);
      var w, step := worlds[i - 1], steps[i - 1];
      if step.Lease? && step.shard == shard {
        LeaseStepKeepsRegular(cfg, ParentOf(parents, shard), w.now, w.shards[shard].lease, step.leaseOp);
      }
    }
  }

  // ----- The recorded parent -----

  /** The parent attribute is the shard's recorded parent, and missing exactly if there is none. */
  predicate NamesParent(row: Row, parent: ShardId) {
    if parent == NoShard then row.parent.None? else row.parent == Some(parent)
  }

  predicate KeepsParent(l: LeaseState, parent: ShardId) {
    && (l.row.Some? ==> NamesParent(l.row.value, parent))
    && forall id :: id in l.calls ==>
         match l.calls[id]
         case LeaseDecided(_, _, _, _, put) => NamesParent(put.item, parent)
         case CheckpointMarshalled(_, item) => NamesParent(item, parent)
         case ClaimDecided(_, put) => NamesParent(put.item, parent)
         case _ => true
  }

  lemma LeaseStepKeepsParent(cfg: Config, parent: ShardId, now: Time, l: LeaseState, op: LeaseOp)
    requires KeepsParent(l, parent) && LeaseEnabled(l, op)
    ensures KeepsParent(LeaseStep(cfg, parent, now, l, op), parent)
  {
  }

  lemma {:induction false} RunsKeepParent(cfg: Config, parents: Parents, worlds: seq<World>, steps: seq<Step>, i: nat,
                                          shard: ShardId)
    requires IsRun(cfg, parents, worlds, steps) && i < |worlds| && shard in worlds[i].shards
    ensures KeepsParent(worlds[i].shards[shard].lease, ParentOf(parents, shard))
  {
    if i > 0 {
      RunsKeepParent(cfg, parents, worlds, steps, i - 1, shard);
      var w, step := worlds[i - 1], steps[i - 1];
      if step.Lease? && step.shard == shard {
        LeaseStepKeepsParent(cfg, ParentOf(parents, shard), w.now, w.shards[shard].lease, step.leaseOp);
      }
    }
  }

  /** In every run a row carries the parent recorded for its shard, whoever wrote it last; a shard
      without a parent has none. */
  lemma RowsCarryParent(cfg: Config, parents: Parents, worlds: seq<World>, steps: seq<Step>, i: nat, shard: ShardId)
    requires IsRun(cfg, parents, worlds, steps) && i < |worlds| && shard in worlds[i].shards
    requires worlds[i].shards[shard].lease.row.Some?
    ensures var row := worlds[i].shards[shard].lease.row.value;
            if shard in parents && parents[shard] != NoShard then row.parent == Some(parents[shard])
            else row.parent == None
  {
    RunsKeepParent(cfg, parents, worlds, steps, i, shard);
  }

  /** So in every run a leased and checkpointed shard that is neither finished nor claimed, a child
      or not, can be claimed by anybody: after its fetch the put of ClaimShard succeeds, and changes
      nothing but the claim. */
  lemma LeasedShardCanBeClaimed(cfg: Config, parents: Parents, worlds: seq<World>, steps: seq<Step>, i: nat,
                                shard: ShardId, w: WorkerId)
    requires IsRun(cfg, parents, worlds, steps) && i < |worlds| && shard in worlds[i].shards
    requires w in worlds[i].shards[shard].lease.cache
    requires var row := worlds[i].shards[shard].lease.row;
             && row.Some? && row.value.owner.Some? && row.value.owner != Some(Nobody)
             && row.value.checkpoint.Some? && row.value.checkpoint.value.At? && row.value.claim.None?
    ensures var l, parent := worlds[i].shards[shard].lease, ParentOf(parents, shard);
            var put := ClaimPut(Refreshed(l.cache[w], l.row), parent, w);
            Holds(l.row, put.condition) && put.item == l.row.value.(claim := Some(w))
  {
    RowsCarryParent(cfg, parents, worlds, steps, i, shard);
    RunsAreRegular(cfg, parents, worlds, steps, i, shard);
    ClaimExact(worlds[i].shards[shard].lease.cache[w], ParentOf(parents, shard), w, worlds[i].shards[shard].lease.row);
  }

  /** On every row a run can reach, uncontended GetLease succeeds exactly when the caller may
      have the lease, and the condition it builds is true of the row it read. */
  lemma LeaseExactOnReachableRows(cfg: Config, parents: Parents, worlds: seq<World>, steps: seq<Step>, i: nat,
                                  shard: ShardId, me: WorkerId, checkpoint: Position, newTimeout: Time, expired: bool,
                                  now: Time)
    requires IsRun(cfg, parents, worlds, steps) && i < |worlds| && shard in worlds[i].shards
    ensures var row := RowOf(worlds[i], shard);
            && Timed(row)
            && Holds(row, LeaseCondition(cfg, row, me, expired))
            && var d := DecideLease(cfg, row, me, checkpoint, ParentOf(parents, shard), newTimeout, expired, now);
               (d.Ok? && Holds(row, d.value.condition) <==>
                && !(cfg.stealing && ForeignClaim(row, me) && !expired)
                && (|| OwnerOf(row).None? || OwnerOf(row) == Some(me)
                    || TimeoutOf(row).value <= now || (cfg.stealing && expired)))
  {
    RunsAreRegular(cfg, parents, worlds, steps, i, shard);
    LeaseExact(cfg, RowOf(worlds[i], shard), me, checkpoint, ParentOf(parents, shard), newTimeout, expired, now);
  }

  // ----- The reservation -----

  /** The call has read the row, if it is a lease call at all. */
  predicate HasRead(c: Call) {
    c.LeaseRead? || c.LeaseJudged? || c.LeaseDecided?
  }

  /** A lease call that has read the row read it with this claim; one of another worker that
      got as far as its put saw the claim as expired. */
  predicate SawClaim(claimant: WorkerId, c: Call) {
    && (HasRead(c) ==> ClaimOf(c.row) == Some(claimant))
    && (c.LeaseDecided? && c.worker != claimant ==> c.expired)
  }

  predicate Reserved(claimant: WorkerId, l: LeaseState) {
    && ClaimOf(l.row) == Some(claimant)
    && forall id :: id in l.calls ==> SawClaim(claimant, l.calls[id])
  }

  /** The only ways out of a claim: a put by the claimant, a put by a worker to whom the claim
      looked expired, a checkpoint write, or deletion of the row. */
  predicate MayEndClaim(claimant: WorkerId, l: LeaseState, op: LeaseOp)
    requires LeaseEnabled(l, op)
  {
    match op
    case PutLease(id, _) => l.calls[id].worker == claimant || l.calls[id].expired
    case SaveCheckpoint(_) => true
    case DeleteRow => true
    case _ => false
  }

  /** While the shard is reserved, any other step leaves claim, timeout and checkpoint alone,
      and at most removes the owner: in particular nobody's GetLease succeeds. */
  lemma LeaseStepKeepsClaim(cfg: Config, parent: ShardId, now: Time, l: LeaseState, op: LeaseOp, claimant: WorkerId)
    requires cfg.stealing && claimant != Nobody
    requires Regular(l) && Reserved(claimant, l) && LeaseEnabled(l, op) && !MayEndClaim(claimant, l, op)
    ensures var l' := LeaseStep(cfg, parent, now, l, op);
            && Reserved(claimant, l')
            && (l'.row == l.row || l'.row == Some(l.row.value.(owner := None)))
  {
    match op
    case PutClaim(id) =>
      assert RegularCall(l.calls[id]);
      assert !Satisfies(l.row, NoClaim);
    case _ =>
  }

  /** The step touches this shard and may end the claim. */
  predicate EndsClaim(claimant: WorkerId, w: World, step: Step, shard: ShardId)
    requires step.Lease? ==> step.shard in w.shards && LeaseEnabled(w.shards[step.shard].lease, step.leaseOp)
  {
    step.Lease? && step.shard == shard && MayEndClaim(claimant, w.shards[shard].lease, step.leaseOp)
  }

  /** From a moment at which the row carries a claim and no lease call straddles it (none has
      read the row yet), the claim stays, and nobody acquires or renews the lease, until the
      claimant puts, a checkpoint is written, a worker sees the claim as expired, or the row
      is deleted. */
  lemma {:induction false} ClaimReserves(cfg: Config, parents: Parents, worlds: seq<World>, steps: seq<Step>, i: nat,
                                         j: nat, shard: ShardId, claimant: WorkerId)
    requires cfg.stealing && claimant != Nobody
    requires IsRun(cfg, parents, worlds, steps) && i <= j < |worlds| && shard in worlds[i].shards
    requires ClaimOf(RowOf(worlds[i], shard)) == Some(claimant)
    requires forall id :: id in worlds[i].shards[shard].lease.calls ==>
             !HasRead(worlds[i].shards[shard].lease.calls[id])
    requires forall k :: i <= k < j ==> !EndsClaim(claimant, worlds[k], steps[k], shard)
    ensures shard in worlds[j].shards && Reserved(claimant, worlds[j].shards[shard].lease)
    ensures var before, after := RowOf(worlds[i], shard).value, RowOf(worlds[j], shard).value;
            after == before || after == before.(owner := None)
    decreases j
  {
    if i < j {
      ClaimReserves(cfg, parents, worlds, steps, i, j - 1, shard, claimant);
      RunsAreRegular(cfg, parents, worlds, steps, j - 1, shard);
      var w, step := worlds[j - 1], steps[j - 1];
      assert !EndsClaim(claimant, w, step, shard);
      if step.Lease? && step.shard == shard {
        LeaseStepKeepsClaim(cfg, ParentOf(parents, shard), w.now, w.shards[shard].lease, step.leaseOp, claimant);
      }
    }
  }
}
