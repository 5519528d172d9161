/** The DynamoDB checkpointer: its operations on the lease table and on cached shard statuses,
    each tied to the rules of module LeaseRules. */
module Checkpointer {
  import opened LeaseTypes
  import opened LeaseRules
  import opened Partition
  import opened Balance

  type Rows = map<ShardId, Row>

  function RowIn(rows: Rows, id: ShardId): Option<Row> {
    if id in rows then Some(rows[id]) else None
  }

  function WithRow(rows: Rows, id: ShardId, row: Option<Row>): Rows {
    if row.Some? then rows[id := row.value] else rows - {id}
  }

  /** The lease table: single items are read and replaced atomically. */
  class LeaseTable {
    var rows: Rows

    constructor ()
      ensures rows == map[]
    {
      rows := map[];
    }

    method GetItem(id: ShardId, reply: Reply) returns (r: Result<Option<Row>, LeaseError>)
      ensures r == if reply == Answered then Ok(RowIn(rows, id)) else Err(Unavailable)
    {
      if reply != Answered {
        return Err(Unavailable);
      }
      return Ok(RowIn(rows, id));
    }

    /** PutItem with a condition expression; [] puts unconditionally. */
    method PutItem(id: ShardId, condition: Condition, item: Row, reply: Reply) returns (r: Result<(), LeaseError>)
      modifies this
      ensures rows == if reply != Dropped && Holds(RowIn(old(rows), id), condition)
                      then old(rows)[id := item] else old(rows)
      ensures r == if reply != Answered then Err(Unavailable)
                   else if Holds(RowIn(old(rows), id), condition) then Ok(()) else Err(LeaseNotAcquired)
    {
      var holds := Holds(RowIn(rows, id), condition);
      if reply != Dropped && holds {
        rows := rows[id := item];
      }
      if reply != Answered {
        return Err(Unavailable);
      }
      r := if holds then Ok(()) else Err(LeaseNotAcquired);
    }
  }

  class DynamoCheckpoint {
    const table: LeaseTable
    const cfg: Config
    const workerId: WorkerId
    const syncInterval: nat
    var lastLeaseSync: Time

    constructor (table: LeaseTable, cfg: Config, workerId: WorkerId, syncInterval: nat)
      ensures this.table == table && this.cfg == cfg && this.workerId == workerId
      ensures this.syncInterval == syncInterval && lastLeaseSync == ZERO_TIME
    {
      this.table, this.cfg, this.workerId, this.syncInterval := table, cfg, workerId, syncInterval;
      lastLeaseSync := ZERO_TIME;
    }

    /** The part of GetLease between its read and its put. */
    method PrepareLease(shard: ShardStatus, newAssignTo: WorkerId, newLeaseTimeout: Time, current: Option<Row>,
                        isClaimRequestExpired: bool, now: Time)
      returns (r: Result<Put, LeaseError>)
      ensures r == DecideLease(cfg, current, newAssignTo, shard.checkpoint, shard.parent,
                               newLeaseTimeout, isClaimRequestExpired, now)
      ensures r.Ok? ==> r.value.item == Row(Some(newAssignTo), Some(newLeaseTimeout),
                                            if shard.checkpoint == Unset then None else Some(shard.checkpoint), None,
                                            if shard.parent == NoShard then None else Some(shard.parent))
    {
      var claimRequest := Nobody;
      if cfg.stealing {
        if ClaimOf(current).Some? && ClaimOf(current).value != Nobody {
          claimRequest := ClaimOf(current).value;
          if newAssignTo != claimRequest && !isClaimRequestExpired {
            return Err(ShardClaimed);
          }
        }
      }

      var condition: Condition;
      if TimeoutOf(current).None? || OwnerOf(current).None? {
        condition := [NoOwner];
      } else {
        var assignedTo, leaseTimeout := OwnerOf(current).value, TimeoutOf(current).value;
        if cfg.stealing {
          if now < leaseTimeout && assignedTo != newAssignTo && !isClaimRequestExpired {
            return Err(LeaseNotAcquired);
          }
        } else {
          if now < leaseTimeout && assignedTo != newAssignTo {
            return Err(LeaseNotAcquired);
          }
        }
        condition := [RowExists, OwnerIs(assignedTo), TimeoutIs(leaseTimeout)];
      }

      var item := Row(Some(newAssignTo), Some(newLeaseTimeout), None, None, None);
      if shard.parent != NoShard {
        item := item.(parent := Some(shard.parent));
      }
      if shard.checkpoint != Unset {
        item := item.(checkpoint := Some(shard.checkpoint));
      }

      assert condition + [] == condition;
      if cfg.stealing {
        if claimRequest != Nobody && claimRequest == newAssignTo && !isClaimRequestExpired {
          condition := condition + [ClaimIs(claimRequest)];
        }
      }
      return Ok(Put(condition, item));
    }

    method GetLease(shard: ShardStatus, newAssignTo: WorkerId, clock: LeaseClock, read: Reply, write: Reply)
      returns (r: Result<(), LeaseError>)
      modifies shard`assignedTo, shard`leaseTimeout, table
      ensures var e := LeaseCall(cfg, RowIn(old(table.rows), shard.id), old(shard.View()), shard.parent,
                                newAssignTo, clock, read, write);
              table.rows == WithRow(old(table.rows), shard.id, e.row) && shard.View() == e.cached && r == e.result
      ensures r.Ok? ==>
                && table.rows == old(table.rows)[shard.id := Row(
                     Some(newAssignTo), Some(clock.start + cfg.leaseDuration),
                     if shard.checkpoint == Unset then None else Some(shard.checkpoint), None,
                     if shard.parent == NoShard then None else Some(shard.parent))]
                && shard.assignedTo == newAssignTo && shard.leaseTimeout == clock.start + cfg.leaseDuration
      ensures r.Err? ==> shard.assignedTo == old(shard.assignedTo) && shard.leaseTimeout == old(shard.leaseTimeout)
      ensures r.Err? && write != AnswerLost ==> table.rows == old(table.rows)
    {
      LeaseCallExact(cfg, RowIn(table.rows, shard.id), shard.View(), shard.parent, newAssignTo, clock, read, write);
      var newLeaseTimeout := clock.start + cfg.leaseDuration;
      var current := table.GetItem(shard.id, read);
      if current.Err? {
        return Err(current.error);
      }
      var isClaimRequestExpired := shard.IsClaimRequestExpired(cfg, clock.judged);
      var put := PrepareLease(shard, newAssignTo, newLeaseTimeout, current.value, isClaimRequestExpired, clock.decided);
      if put.Err? {
        return Err(put.error);
      }
      r := table.PutItem(shard.id, put.value.condition, put.value.item, write);
      if r.Err? {
        return;
      }
      shard.assignedTo := newAssignTo;
      shard.leaseTimeout := newLeaseTimeout;
    }

    method CheckpointSequence(shard: ShardStatus, write: Reply) returns (r: Result<(), LeaseError>)
      modifies table
      ensures table.rows == if write == Dropped then old(table.rows)
                            else old(table.rows)[shard.id := CheckpointItem(shard.View(), shard.parent)]
      ensures write != Dropped ==>
                table.rows == old(table.rows)[shard.id := Row(
                  Some(shard.assignedTo), Some(shard.leaseTimeout), Some(shard.checkpoint), None,
                  if shard.parent == NoShard then None else Some(shard.parent))]
      ensures r.Ok? <==> write == Answered
    {
      var item := Row(Some(shard.assignedTo), Some(shard.leaseTimeout), Some(shard.checkpoint), None, None);
      if shard.parent != NoShard {
        item := item.(parent := Some(shard.parent));
      }
      r := table.PutItem(shard.id, [], item, write);
    }

    method FetchCheckpoint(shard: ShardStatus, read: Reply) returns (r: Result<(), LeaseError>)
      modifies shard`checkpoint, shard`assignedTo, shard`leaseTimeout
      ensures shard.View() == if read == Answered
                              then Refreshed(old(shard.View()), RowIn(table.rows, shard.id)) else old(shard.View())
      ensures r == if read != Answered then Err(Unavailable)
                   else if Fetchable(RowIn(table.rows, shard.id)) then Ok(()) else Err(SequenceNotFound)
      ensures r.Ok? <==> read == Answered && shard.id in table.rows && table.rows[shard.id].checkpoint.Some?
      ensures r.Ok? ==>
                var row := table.rows[shard.id];
                && shard.checkpoint == row.checkpoint.value
                && shard.assignedTo == (if row.owner.Some? then row.owner.value else old(shard.assignedTo))
                && shard.leaseTimeout == (if row.timeout.Some? then row.timeout.value else old(shard.leaseTimeout))
      ensures r.Err? ==> && shard.checkpoint == old(shard.checkpoint) && shard.assignedTo == old(shard.assignedTo)
                         && shard.leaseTimeout == old(shard.leaseTimeout)
    {
      var got := table.GetItem(shard.id, read);
      if got.Err? {
        return Err(got.error);
      }
      var row := got.value;
      if CheckpointOf(row).None? {
        return Err(SequenceNotFound);
      }
      shard.SetCheckpoint(CheckpointOf(row).value);
      if OwnerOf(row).Some? {
        shard.SetLeaseOwner(OwnerOf(row).value);
      }
      if TimeoutOf(row).Some? {
        shard.leaseTimeout := TimeoutOf(row).value;
      }
      return Ok(());
    }

    method RemoveLeaseInfo(id: ShardId, write: Reply) returns (r: Result<(), LeaseError>)
      modifies table
      ensures table.rows == if write == Dropped then old(table.rows) else old(table.rows) - {id}
      ensures r.Ok? <==> write == Answered
    {
      if write != Dropped {
        table.rows := table.rows - {id};
      }
      r := if write == Answered then Ok(()) else Err(Unavailable);
    }

    method RemoveLeaseOwner(id: ShardId, write: Reply) returns (r: Result<(), LeaseError>)
      modifies table
      ensures table.rows == if write == Dropped then old(table.rows)
                            else WithRow(old(table.rows), id, OwnerRemoved(RowIn(old(table.rows), id), workerId))
      ensures var owned := id in old(table.rows) && old(table.rows)[id].owner == Some(workerId);
              table.rows == if write != Dropped && owned
                            then old(table.rows)[id := old(table.rows)[id].(owner := None)] else old(table.rows)
      ensures r.Ok? <==> write == Answered && OwnerOf(RowIn(old(table.rows), id)) == Some(workerId)
    {
      var owned := id in table.rows && table.rows[id].owner == Some(workerId);
      if write != Dropped && owned {
        table.rows := table.rows[id := table.rows[id].(owner := None)];
      }
      r := if write == Answered && owned then Ok(()) else Err(Unavailable);
    }

    method ClaimShard(shard: ShardStatus, claimId: WorkerId, read: Reply, write: Reply)
      returns (r: Result<(), LeaseError>)
      modifies shard`checkpoint, shard`assignedTo, shard`leaseTimeout, table
      ensures var row := RowIn(old(table.rows), shard.id);
              var put := ClaimPut(shard.View(), shard.parent, claimId);
              && shard.View() == (if read == Answered then Refreshed(old(shard.View()), row) else old(shard.View()))
              && table.rows == (if read == Answered && write != Dropped && Holds(row, put.condition)
                                then old(table.rows)[shard.id := put.item] else old(table.rows))
              && (r.Ok? <==> read == Answered && write == Answered && Holds(row, put.condition))
      ensures table.rows == old(table.rows) ||
              table.rows == old(table.rows)[shard.id := Row(
                if shard.assignedTo == Nobody then None else Some(shard.assignedTo), Some(shard.leaseTimeout),
                Some(shard.checkpoint), Some(claimId), if shard.parent == NoShard then None else Some(shard.parent))]
      ensures r.Ok? && shard.id in old(table.rows) && old(table.rows)[shard.id].checkpoint.Some? ==>
                table.rows == old(table.rows)[shard.id := old(table.rows)[shard.id].(claim := Some(claimId))]
      ensures r.Ok? ==> && shard.id in old(table.rows) && old(table.rows)[shard.id].claim.None?
                        && shard.id in table.rows && table.rows[shard.id].claim == Some(claimId)
    {
      r := FetchCheckpoint(shard, read);
      if r.Err? && r.error != SequenceNotFound {
        return;
      }
      var condition := [RowExists, TimeoutIs(shard.leaseTimeout), NoClaim];
      var item := Row(None, Some(shard.leaseTimeout), Some(shard.checkpoint), Some(claimId), None);

      if shard.assignedTo == Nobody {
        condition := condition + [NoOwner];
      } else {
        item := item.(owner := Some(shard.assignedTo));
        condition := condition + [OwnerIs(shard.assignedTo)];
      }

      if shard.checkpoint == Unset {
        condition := condition + [NoCheckpoint];
      } else if shard.checkpoint == ShardEnd {
        condition := condition + [CheckpointIsNot(ShardEnd)];
      } else {
        condition := condition + [CheckpointIs(shard.checkpoint)];
      }

      if shard.parent == NoShard {
        condition := condition + [NoParent];
      } else {
        item := item.(parent := Some(shard.parent));
        condition := condition + [ParentIs(shard.parent)];
      }
      assert Put(condition, item) == ClaimPut(shard.View(), shard.parent, claimId);
      ClaimConditionMeaning(shard.View(), shard.parent, RowIn(table.rows, shard.id));
      r := table.PutItem(shard.id, condition, item, write);
    }

    // ----- syncLeases and ListActiveWorkers -----

    /** The scan is skipped while the last one is recent. */
    predicate SyncDue(now: Time)
      reads this
    {
      lastLeaseSync + syncInterval <= now
    }

    method SyncLeases(shards: map<ShardId, ShardStatus>, now: Time, read: Reply) returns (r: Result<(), LeaseError>)
      requires WellKeyed(shards)
      modifies this, shards.Values
      ensures lastLeaseSync == if old(lastLeaseSync) + syncInterval <= now then now else old(lastLeaseSync)
      ensures r == if old(lastLeaseSync) + syncInterval <= now && read != Answered then Err(Unavailable) else Ok(())
      ensures forall s :: s in shards ==>
                shards[s].View() == if old(SyncDue(now)) && read == Answered
                                    then Synced(old(shards[s].View()), RowIn(table.rows, s)) else old(shards[s].View())
      ensures forall s :: s in shards ==>
                var row := RowIn(table.rows, s);
                var scanned := old(lastLeaseSync) + syncInterval <= now && read == Answered
                               && row.Some? && row.value.owner.Some? && row.value.checkpoint.Some?;
                && shards[s].assignedTo == (if scanned then row.value.owner.value else old(shards[s].assignedTo))
                && shards[s].checkpoint == (if scanned then row.value.checkpoint.value else old(shards[s].checkpoint))
                && shards[s].leaseTimeout == old(shards[s].leaseTimeout)
    {
      if now < lastLeaseSync + syncInterval {
        return Ok(());
      }
      lastLeaseSync := now;
      if read != Answered {
        return Err(Unavailable);
      }
      var results := table.rows.Keys;
      ghost var done := {};
      while results != {}
        invariant done !! results && done + results == table.rows.Keys
        invariant lastLeaseSync == now
        invariant forall s :: s in shards && s in done ==>
                    shards[s].View() == Synced(old(shards[s].View()), RowIn(table.rows, s))
        invariant forall s :: s in shards && s !in done ==> shards[s].View() == old(shards[s].View())
        decreases results
      {
        var id :| id in results;
        var row := table.rows[id];
        if row.owner.Some? && row.checkpoint.Some? {
          if id in shards {
            shards[id].SetLeaseOwner(row.owner.value);
            shards[id].SetCheckpoint(row.checkpoint.value);
          }
        }
        results, done := results - {id}, done + {id};
      }
      return Ok(());
    }

    /** Lists the unfinished shards under their cached owners, or fails if one has none. */
    method ListActiveWorkers(shards: map<ShardId, ShardStatus>, now: Time, read: Reply)
      returns (r: Result<map<WorkerId, seq<ShardStatus>>, LeaseError>)
      requires WellKeyed(shards)
      modifies this, shards.Values
      ensures old(SyncDue(now)) && read != Answered ==> r == Err(Unavailable)
      ensures !(old(SyncDue(now)) && read != Answered) ==>
                (r.Err? <==> Nobody in Owners(Unfinished(shards))) && (r.Err? ==> r.error == ShardNotAssigned)
      ensures r.Ok? ==> Partitions(IdLists(r.value), Unfinished(shards)) && DrawnFrom(r.value, shards)
      ensures forall s :: s in shards ==>
                var row := RowIn(table.rows, s);
                var scanned := old(lastLeaseSync) + syncInterval <= now && read == Answered
                               && row.Some? && row.value.owner.Some? && row.value.checkpoint.Some?;
                && shards[s].assignedTo == (if scanned then row.value.owner.value else old(shards[s].assignedTo))
                && shards[s].checkpoint == (if scanned then row.value.checkpoint.value else old(shards[s].checkpoint))
                && shards[s].leaseTimeout == old(shards[s].leaseTimeout)
      ensures r.Err? <==> || (old(lastLeaseSync) + syncInterval <= now && read != Answered)
                          || exists s :: && s in shards && shards[s].checkpoint != ShardEnd
                                         && shards[s].assignedTo == Nobody
    {
      var synced := SyncLeases(shards, now, read);
      if synced.Err? {
        return Err(synced.error);
      }
      r := GroupByOwner(shards);
    }
  }

  /** The grouping loop of ListActiveWorkers. */
  method GroupByOwner(shards: map<ShardId, ShardStatus>)
    returns (r: Result<map<WorkerId, seq<ShardStatus>>, LeaseError>)
    requires WellKeyed(shards)
    ensures r.Err? <==> Nobody in Owners(Unfinished(shards))
    ensures r.Err? ==> r.error == ShardNotAssigned
    ensures r.Ok? ==> Partitions(IdLists(r.value), Unfinished(shards)) && DrawnFrom(r.value, shards)
    ensures r.Err? <==> exists s :: s in shards && shards[s].checkpoint != ShardEnd && shards[s].assignedTo == Nobody
    ensures r.Ok? ==> forall w :: w in r.value ==> w != Nobody && |r.value[w]| > 0
    ensures r.Ok? ==> forall w, i :: w in r.value && 0 <= i < |r.value[w]| ==>
              && r.value[w][i] in shards.Values && r.value[w][i].checkpoint != ShardEnd
              && r.value[w][i].assignedTo == w
    ensures r.Ok? ==> forall w, i, j :: w in r.value && 0 <= i < j < |r.value[w]| ==> r.value[w][i] != r.value[w][j]
    ensures r.Ok? ==> forall s :: s in shards && shards[s].checkpoint != ShardEnd ==>
              shards[s].assignedTo in r.value && shards[s] in r.value[shards[s].assignedTo]
  {
    var workers: map<WorkerId, seq<ShardStatus>> := map[];
    var todo := shards.Keys;
    ghost var all, seen := Unfinished(shards), map[];
    while todo != {}
      invariant todo <= shards.Keys
      invariant forall s :: s in seen <==> s in all && s !in todo
      invariant forall s :: s in seen ==> seen[s] == all[s] && seen[s] != Nobody
      invariant Partitions(IdLists(workers), seen) && DrawnFrom(workers, shards)
      decreases todo
    {
      var id :| id in todo;
      var shard := shards[id];
      todo := todo - {id};
      if shard.checkpoint != ShardEnd {
        var leaseOwner := shard.assignedTo;
        if leaseOwner == Nobody {
          assert id in all && all[id] == Nobody;
          return Err(ShardNotAssigned);
        }
        ghost var before, list := workers, if leaseOwner in workers then workers[leaseOwner] else [];
        if leaseOwner in workers {
          workers := workers[leaseOwner := workers[leaseOwner] + [shard]];
        } else {
          workers := workers[leaseOwner := [shard]];
        }
        ExtendLists(before, shards, seen, id, leaseOwner);
        assert [] + [shard] == [shard];
        seen := seen[id := leaseOwner];
      }
    }
    assert seen == all;
    ListsMeaning(workers, shards);
    return Ok(workers);
  }

  /** What a partition of the unfinished shards into lists is, status by status. */
  lemma ListsMeaning(workers: map<WorkerId, seq<ShardStatus>>, shards: map<ShardId, ShardStatus>)
    requires WellKeyed(shards)
    requires Partitions(IdLists(workers), Unfinished(shards)) && DrawnFrom(workers, shards)
    ensures forall w :: w in workers ==> |workers[w]| > 0
    ensures forall w, i :: w in workers && 0 <= i < |workers[w]| ==>
              && workers[w][i] in shards.Values && workers[w][i].checkpoint != ShardEnd
              && workers[w][i].assignedTo == w
    ensures forall w, i, j :: w in workers && 0 <= i < j < |workers[w]| ==> workers[w][i] != workers[w][j]
    ensures forall s :: s in shards && shards[s].checkpoint != ShardEnd ==>
              shards[s].assignedTo in workers && shards[s] in workers[shards[s].assignedTo]
  {
    var lists, a := IdLists(workers), Unfinished(shards);
    PartitionSizes(lists, a);
    forall w | w in workers ensures |workers[w]| > 0 {
      assert |lists[w]| == |workers[w]|;
    }
    forall w, i | w in workers && 0 <= i < |workers[w]| ensures workers[w][i].id in Owned(a, w) {
      assert lists[w][i] == workers[w][i].id;
    }
    forall w, i, j | w in workers && 0 <= i < j < |workers[w]| ensures workers[w][i] != workers[w][j] {
      assert lists[w][i] != lists[w][j];
    }
    forall s | s in shards && shards[s].checkpoint != ShardEnd
      ensures shards[s].assignedTo in workers && shards[s] in workers[shards[s].assignedTo]
    {
      EachIsListed(workers, shards, s);
    }
  }

  lemma EachIsListed(workers: map<WorkerId, seq<ShardStatus>>, shards: map<ShardId, ShardStatus>, s: ShardId)
    requires WellKeyed(shards) && s in shards && shards[s].checkpoint != ShardEnd
    requires Partitions(IdLists(workers), Unfinished(shards)) && DrawnFrom(workers, shards)
    ensures shards[s].assignedTo in workers && shards[s] in workers[shards[s].assignedTo]
  {
    var lists, w := IdLists(workers), shards[s].assignedTo;
    assert Unfinished(shards)[s] == w && w in lists;
    assert s in Owned(Unfinished(shards), w);
    var i :| 0 <= i < |lists[w]| && lists[w][i] == s;
    assert workers[w][i].id == s;
  }

  lemma ExtendLists(workers: map<WorkerId, seq<ShardStatus>>, shards: map<ShardId, ShardStatus>, seen: Assignment,
                    id: ShardId, w: WorkerId)
    requires WellKeyed(shards) && id in shards && id !in seen
    requires Partitions(IdLists(workers), seen) && DrawnFrom(workers, shards)
    ensures var longer := workers[w := (if w in workers then workers[w] else []) + [shards[id]]];
            Partitions(IdLists(longer), seen[id := w]) && DrawnFrom(longer, shards)
  {
    var list := if w in workers then workers[w] else [];
    PartitionsExtend(IdLists(workers), seen, id, w);
    assert Ids(list + [shards[id]]) == Ids(list) + [id];
    assert IdLists(workers[w := list + [shards[id]]]) == Extended(IdLists(workers), id, w);
  }

  function Unfinished(shards: map<ShardId, ShardStatus>): Assignment
    reads shards.Values
  {
    map s | s in shards && shards[s].checkpoint != ShardEnd :: shards[s].assignedTo
  }

  function IdLists(workers: map<WorkerId, seq<ShardStatus>>): Lists {
    map w | w in workers :: Ids(workers[w])
  }

  /** The lists hold the cached statuses themselves. */
  predicate DrawnFrom(workers: map<WorkerId, seq<ShardStatus>>, shards: map<ShardId, ShardStatus>) {
    forall w, i :: w in workers && 0 <= i < |workers[w]| ==>
      workers[w][i].id in shards && shards[workers[w][i].id] == workers[w][i]
  }

  /** Each cached status is filed under its own shard id. */
  predicate WellKeyed(shards: map<ShardId, ShardStatus>) {
    forall s :: s in shards ==> shards[s].id == s
  }

  function Ids(list: seq<ShardStatus>): seq<ShardId> {
    seq(|list|, i requires 0 <= i < |list| => list[i].id)
  }
}
