/** The worker: it keeps its cache of shards in step with the stream, acquires leases in its
    event loop, and steals shards to rebalance. */
module Workers {
  import opened LeaseTypes
  import opened LeaseRules
  import opened Partition
  import opened Checkpointer
  import opened Balance

  datatype ShardInfo = ShardInfo(id: ShardId, parent: ShardId)

  /** One answer of ListShards; every page but the last carries a token for the next. */
  datatype Page = Listed(shards: seq<ShardInfo>) | Failed

  function IdsOf(shards: seq<ShardInfo>): set<ShardId> {
    set i | 0 <= i < |shards| :: shards[i].id
  }

  predicate AllListed(pages: seq<Page>) {
    forall i :: 0 <= i < |pages| ==> pages[i].Listed?
  }

  function ListedIds(pages: seq<Page>): set<ShardId> {
    if pages == [] then {} else (if pages[0].Listed? then IdsOf(pages[0].shards) else {}) + ListedIds(pages[1..])
  }

  predicate ListedAs(pages: seq<Page>, info: ShardInfo) {
    pages != [] && ((pages[0].Listed? && info in pages[0].shards) || ListedAs(pages[1..], info))
  }

  /** The listed ids are those on any of the pages. */
  lemma {:induction false} ListedIdsMeaning(pages: seq<Page>)
    ensures forall s :: s in ListedIds(pages) <==>
              exists p, i :: && 0 <= p < |pages| && pages[p].Listed? && 0 <= i < |pages[p].shards|
                             && pages[p].shards[i].id == s
  {
    if pages != [] {
      ListedIdsMeaning(pages[1..]);
      forall s ensures s in ListedIds(pages) <==>
          exists p, i :: && 0 <= p < |pages| && pages[p].Listed? && 0 <= i < |pages[p].shards|
                         && pages[p].shards[i].id == s
      {
        if s in ListedIds(pages[1..]) {
          var p, i :| && 0 <= p < |pages[1..]| && pages[1..][p].Listed? && 0 <= i < |pages[1..][p].shards|
                      && pages[1..][p].shards[i].id == s;
          assert pages[p + 1].shards[i].id == s;
        }
        if p, i :| && 0 <= p < |pages| && pages[p].Listed? && 0 <= i < |pages[p].shards|
                   && pages[p].shards[i].id == s {
          assert p > 0 ==> pages[1..][p - 1].shards[i].id == s;
        }
      }
    }
  }

  /** Which shards the pages list, and which rows a sync with them leaves, page by page. */
  lemma PagesMeaning(pages: seq<Page>, cached: set<ShardId>, rows: Rows, removal: ShardId -> Reply)
    requires AllListed(pages)
    ensures forall s :: s in ListedIds(pages) <==>
              exists p, i :: 0 <= p < |pages| && 0 <= i < |pages[p].shards| && pages[p].shards[i].id == s
    ensures forall p, i :: 0 <= p < |pages| && pages[p].Listed? && 0 <= i < |pages[p].shards| ==>
              pages[p].shards[i].id in ListedIds(pages)
    ensures var left := rows - set s | s in cached && s !in ListedIds(pages) && removal(s) != Dropped;
            forall s :: s in rows ==>
              if s in left then left[s] == rows[s]
              else && s in cached && removal(s) != Dropped
                   && forall p, i :: 0 <= p < |pages| && 0 <= i < |pages[p].shards| ==> pages[p].shards[i].id != s
    ensures var left := rows - set s | s in cached && s !in ListedIds(pages) && removal(s) != Dropped;
            forall p, i :: 0 <= p < |pages| && pages[p].Listed? && 0 <= i < |pages[p].shards| ==>
              RowIn(left, pages[p].shards[i].id) == RowIn(rows, pages[p].shards[i].id)
  {
    ListedIdsMeaning(pages);
  }

  /** A shard is listed as this if it is, on any of the pages. */
  lemma {:induction false} ListedAsMeaning(pages: seq<Page>)
    ensures forall info :: ListedAs(pages, info) ==>
              exists p, i :: && 0 <= p < |pages| && pages[p].Listed? && 0 <= i < |pages[p].shards|
                             && pages[p].shards[i] == info
  {
    if pages != [] {
      ListedAsMeaning(pages[1..]);
      forall info | ListedAs(pages, info)
        ensures exists p, i :: && 0 <= p < |pages| && pages[p].Listed? && 0 <= i < |pages[p].shards|
                               && pages[p].shards[i] == info
      {
        if ListedAs(pages[1..], info) {
          var p, i :| && 0 <= p < |pages[1..]| && pages[1..][p].Listed? && 0 <= i < |pages[1..][p].shards|
                      && pages[1..][p].shards[i] == info;
          assert pages[p + 1].shards[i] == info;
        } else {
          var i :| 0 <= i < |pages[0].shards| && pages[0].shards[i] == info;
        }
      }
    }
  }

  /** A shard nobody has leased yet, as far as the worker knows. */
  predicate New(shard: ShardStatus)
    reads shard
  {
    shard.View() == FRESH && shard.claimRequest == Nobody
  }

  /** Entries that survive keep their status objects. */
  predicate Keeps(after: map<ShardId, ShardStatus>, before: map<ShardId, ShardStatus>) {
    forall s :: s in after && s in before ==> after[s] == before[s]
  }

  /** How the requests of one acquire step on one shard fare. */
  datatype AcquireNet = AcquireNet(fetch: Reply, read: Reply, write: Reply)

  /** The body of the event loop's acquisition for one shard: skip it if already owned, fetch,
      skip it if finished or reserved by a cached claim, else GetLease. */
  function AcquireCall(cfg: Config, row: Option<Row>, cached: Cached, parent: ShardId, claimRequest: WorkerId,
                       me: WorkerId, soon: Time, clock: LeaseClock, net: AcquireNet): LeaseEffect
  {
    if cached.owner == me then
      LeaseEffect(row, cached, Err(NotAttempted))
    else if net.fetch != Answered then
      LeaseEffect(row, cached, Err(Unavailable))
    else
      var refreshed := Refreshed(cached, row);
      if refreshed.checkpoint == ShardEnd
         || BeingStolen(cfg, refreshed.timeout, claimRequest, me, soon, clock.judged) then
        LeaseEffect(row, refreshed, Err(NotAttempted))
      else
        LeaseCall(cfg, row, refreshed, parent, me, clock, net.read, net.write)
  }

  predicate BeingStolen(cfg: Config, timeout: Time, claimRequest: WorkerId, me: WorkerId, soon: Time, now: Time) {
    && cfg.stealing && claimRequest != Nobody && claimRequest != me
    && timeout < soon && !ClaimExpired(cfg, timeout, now)
  }

  /** The acquire step never touches the row of a finished shard.  It succeeds exactly when the
      table answers and the shard is not cached as the worker's own, is unfinished after the
      fetch, is not reserved by another worker's cached claim, and may be leased; it then leases
      the shard to the worker at the fetched checkpoint. */
  lemma AcquireCallExact(cfg: Config, row: Option<Row>, cached: Cached, parent: ShardId, claimRequest: WorkerId,
                         me: WorkerId, soon: Time, clock: LeaseClock, net: AcquireNet)
    ensures var e := AcquireCall(cfg, row, cached, parent, claimRequest, me, soon, clock, net);
            var refreshed := Refreshed(cached, row);
            && (CheckpointOf(row) == Some(ShardEnd) ==> e.row == row && e.result.Err?)
            && (e.result.Ok? <==>
                  && net == AcquireNet(Answered, Answered, Answered)
                  && cached.owner != me && refreshed.checkpoint != ShardEnd
                  && !(&& cfg.stealing && claimRequest != Nobody && claimRequest != me
                       && refreshed.timeout < soon && !ClaimExpired(cfg, refreshed.timeout, clock.judged))
                  && MayLease(cfg, row, me, ClaimExpired(cfg, refreshed.timeout, clock.judged), clock.decided))
            && (e.result.Ok? ==>
                  && OwnerOf(e.row) == Some(me) && TimeoutOf(e.row) == Some(e.cached.timeout)
                  && e.cached == Cached(me, clock.start + cfg.leaseDuration, refreshed.checkpoint)
                  && CheckpointOf(e.row) == OptionalPosition(refreshed.checkpoint)
                  && (Fetchable(row) ==> refreshed.checkpoint == CheckpointOf(row).value))
            && (e.result.Err? ==>
                  && e.cached == (if cached.owner == me || net.fetch != Answered then cached else refreshed)
                  && (net.write != AnswerLost ==> e.row == row))
  {
    LeaseCallExact(cfg, row, Refreshed(cached, row), parent, me, clock, net.read, net.write);
  }

  class Worker {
    const workerId: WorkerId
    const maxLeases: nat
    const checkpointer: DynamoCheckpoint
    var shardStatus: map<ShardId, ShardStatus>

    constructor (workerId: WorkerId, maxLeases: nat, checkpointer: DynamoCheckpoint)
      ensures this.workerId == workerId && this.maxLeases == maxLeases && this.checkpointer == checkpointer
      ensures shardStatus == map[]
    {
      this.workerId, this.maxLeases, this.checkpointer := workerId, maxLeases, checkpointer;
      shardStatus := map[];
    }

    // ----- syncShard -----

    /** One page of ListShards: new shards enter the cache as they are seen. */
    method AddPage(shards: seq<ShardInfo>, shardInfo: set<ShardId>) returns (info: set<ShardId>)
      requires WellKeyed(shardStatus)
      modifies this`shardStatus
      ensures WellKeyed(shardStatus)
      ensures info == shardInfo + IdsOf(shards)
      ensures shardStatus.Keys == old(shardStatus).Keys + IdsOf(shards)
      ensures Keeps(shardStatus, old(shardStatus))
      ensures forall s :: s in shardStatus && s !in old(shardStatus) ==>
                fresh(shardStatus[s]) && New(shardStatus[s]) && ShardInfo(s, shardStatus[s].parent) in shards
    {
      info := shardInfo;
      var i := 0;
      while i < |shards|
        invariant 0 <= i <= |shards|
        invariant WellKeyed(shardStatus)
        invariant info == shardInfo + IdsOf(shards[..i])
        invariant shardStatus.Keys == old(shardStatus).Keys + IdsOf(shards[..i])
        invariant Keeps(shardStatus, old(shardStatus))
        invariant forall s :: s in shardStatus && s !in old(shardStatus) ==>
                    fresh(shardStatus[s]) && New(shardStatus[s]) && ShardInfo(s, shardStatus[s].parent) in shards
      {
        var s := shards[i];
        IdsOfStep(shards, i);
        info := info + {s.id};
        if s.id !in shardStatus {
          var status := new ShardStatus(s.id, s.parent);
          assert s == ShardInfo(s.id, status.parent);
          shardStatus := shardStatus[s.id := status];
        }
        i := i + 1;
      }
      assert shards[..i] == shards;
    }

    /** Lists the stream's shards page by page; what earlier pages added stays in the cache when
        a later page fails. */
    method GetShardIDs(pages: seq<Page>, shardInfo: set<ShardId>) returns (ok: bool, info: set<ShardId>)
      requires pages != [] && WellKeyed(shardStatus)
      modifies this`shardStatus
      ensures WellKeyed(shardStatus)
      ensures ok <==> AllListed(pages)
      ensures ok ==> info == shardInfo + ListedIds(pages)
      ensures old(shardStatus).Keys <= shardStatus.Keys
      ensures ok ==> shardStatus.Keys == old(shardStatus).Keys + ListedIds(pages)
      ensures Keeps(shardStatus, old(shardStatus))
      ensures forall s :: s in shardStatus && s !in old(shardStatus) ==>
                fresh(shardStatus[s]) && New(shardStatus[s]) && ListedAs(pages, ShardInfo(s, shardStatus[s].parent))
      decreases |pages|
    {
      if pages[0].Failed? {
        return false, shardInfo;
      }
      info := AddPage(pages[0].shards, shardInfo);
      ok := true;
      if |pages| > 1 {
        ghost var added := shardStatus;
        ok, info := GetShardIDs(pages[1..], info);
        assert AllListed(pages) <==> AllListed(pages[1..]) by {
          assert forall i :: 1 <= i < |pages| ==> pages[i] == pages[1..][i - 1];
        }
      }
    }

    /** Shard sync reconciles the cache with the stream: vanished shards leave the cache, and
        their lease rows are deleted; a failure on any page removes nothing. */
    method SyncShard(pages: seq<Page>, removal: ShardId -> Reply) returns (ok: bool)
      requires pages != [] && WellKeyed(shardStatus)
      modifies this`shardStatus, checkpointer.table
      ensures WellKeyed(shardStatus)
      ensures ok <==> AllListed(pages)
      ensures ok ==> shardStatus.Keys == ListedIds(pages)
      ensures !ok ==> old(shardStatus).Keys <= shardStatus.Keys
      ensures !ok ==> checkpointer.table.rows == old(checkpointer.table.rows)
      ensures Keeps(shardStatus, old(shardStatus))
      ensures forall s :: s in shardStatus && s !in old(shardStatus) ==>
                fresh(shardStatus[s]) && New(shardStatus[s]) && ListedAs(pages, ShardInfo(s, shardStatus[s].parent))
      ensures ok ==> checkpointer.table.rows ==
                       old(checkpointer.table.rows) -
                         set s | s in old(shardStatus) && s !in ListedIds(pages) && removal(s) != Dropped
      // the same page by page: the cache holds exactly the shards on the pages
      ensures ok <==> forall p :: 0 <= p < |pages| ==> pages[p].Listed?
      ensures ok ==> forall s :: s in shardStatus <==>
                exists p, i :: 0 <= p < |pages| && 0 <= i < |pages[p].shards| && pages[p].shards[i].id == s
      // a new one is as it was listed, held by nobody
      ensures forall s :: s in shardStatus && s !in old(shardStatus) ==>
                && shardStatus[s].assignedTo == Nobody && shardStatus[s].checkpoint == Unset
                && exists p, i :: && 0 <= p < |pages| && pages[p].Listed? && 0 <= i < |pages[p].shards|
                                  && pages[p].shards[i] == ShardInfo(s, shardStatus[s].parent)
      // what is on a page keeps its status and its row
      ensures forall p, i :: 0 <= p < |pages| && pages[p].Listed? && 0 <= i < |pages[p].shards| ==>
                var id := pages[p].shards[i].id;
                && (id in old(shardStatus) ==> id in shardStatus && shardStatus[id] == old(shardStatus)[id])
                && RowIn(checkpointer.table.rows, id) == RowIn(old(checkpointer.table.rows), id)
      // a row is deleted only if its shard was cached, is on no page, and the request got through
      ensures forall s :: s in old(checkpointer.table.rows) ==>
                if s in checkpointer.table.rows
                then checkpointer.table.rows[s] == old(checkpointer.table.rows)[s]
                else && ok && s in old(shardStatus) && removal(s) != Dropped
                     && forall p, i :: 0 <= p < |pages| && 0 <= i < |pages[p].shards| ==> pages[p].shards[i].id != s
      ensures checkpointer.table.rows.Keys <= old(checkpointer.table.rows).Keys
    {
      var info;
      ok, info := GetShardIDs(pages, {});
      ListedAsMeaning(pages);
      if !ok {
        return;
      }
      assert info == ListedIds(pages);
      ghost var listed := shardStatus;
      ghost var gone := RemoveVanished(info, removal);
      assert gone == set s | s in old(shardStatus) && s !in ListedIds(pages) && removal(s) != Dropped;
      PagesMeaning(pages, old(shardStatus).Keys, old(checkpointer.table.rows), removal);
    }

    /** The clean-up loop of syncShard. */
    method RemoveVanished(info: set<ShardId>, removal: ShardId -> Reply) returns (ghost gone: set<ShardId>)
      requires WellKeyed(shardStatus)
      modifies this`shardStatus, checkpointer.table
      ensures shardStatus == old(shardStatus) - (old(shardStatus).Keys - info)
      ensures gone == set s | s in old(shardStatus) && s !in info && removal(s) != Dropped
      ensures checkpointer.table.rows == old(checkpointer.table.rows) - gone
    {
      var todo := shardStatus.Keys;
      ghost var done := {};
      gone := {};
      while todo != {}
        invariant done !! todo && done + todo == old(shardStatus).Keys
        invariant shardStatus == old(shardStatus) - (done - info)
        invariant gone == set s | s in done && s !in info && removal(s) != Dropped
        invariant checkpointer.table.rows == old(checkpointer.table.rows) - gone
        decreases todo
      {
        var id :| id in todo;
        todo, done := todo - {id}, done + {id};
        if shardStatus[id].id !in info {
          shardStatus := shardStatus - {id};
          var removed := checkpointer.RemoveLeaseInfo(id, removal(id));
          gone := gone + if removal(id) != Dropped then {id} else {};
        }
      }
    }

    // ----- The event loop's acquisition -----

    /** The number of leases held, not counting finished shards. */
    function Held(): nat
      reads this, shardStatus.Values
    {
      Count(Unfinished(shardStatus), workerId)
    }

    method CountHeld() returns (counter: nat)
      ensures counter == Held()
      ensures counter == |set s | s in shardStatus && shardStatus[s].assignedTo == workerId
                                  && shardStatus[s].checkpoint != ShardEnd|
    {
      counter := 0;
      var todo := shardStatus.Keys;
      ghost var all, seen := Unfinished(shardStatus), map[];
      while todo != {}
        invariant todo <= shardStatus.Keys
        invariant forall s :: s in seen <==> s in all && s !in todo
        invariant forall s :: s in seen ==> seen[s] == all[s]
        invariant counter == Count(seen, workerId)
        decreases todo
      {
        var id :| id in todo;
        todo := todo - {id};
        if shardStatus[id].checkpoint != ShardEnd {
          OwnedWith(seen, id, shardStatus[id].assignedTo, workerId);
          seen := seen[id := shardStatus[id].assignedTo];
        }
        if shardStatus[id].assignedTo == workerId && shardStatus[id].checkpoint != ShardEnd {
          counter := counter + 1;
        }
      }
      assert seen == all;
      assert Owned(all, workerId) == set s | s in shardStatus && shardStatus[s].assignedTo == workerId
                                             && shardStatus[s].checkpoint != ShardEnd;
    }

    /** One pass of the event loop over the shards: at most one lease is gained, only below the
        cap, and every shard visited on the way went through the acquire step. */
    method AcquirePass(soon: Time, clock: ShardId -> LeaseClock, net: ShardId -> AcquireNet)
      returns (gained: Option<ShardId>, ghost visited: set<ShardId>)
      requires WellKeyed(shardStatus)
      modifies shardStatus.Values, checkpointer.table
      ensures visited <= shardStatus.Keys && (visited != {} ==> old(Held()) < maxLeases)
      ensures gained.Some? ==> gained.value in visited
      ensures forall s :: s in visited ==>
                Shows(s, AcquireCall(checkpointer.cfg, RowIn(old(checkpointer.table.rows), s),
                                     old(shardStatus[s].View()), shardStatus[s].parent,
                                     old(shardStatus[s].claimRequest), workerId, soon, clock(s), net(s)),
                      gained == Some(s))
      ensures gained.None? ==> visited == if old(Held()) < maxLeases then shardStatus.Keys else {}
      ensures forall s :: s in shardStatus && s !in visited ==> shardStatus[s].View() == old(shardStatus[s].View())
      ensures forall s :: s !in visited ==> RowIn(checkpointer.table.rows, s) == RowIn(old(checkpointer.table.rows), s)
    {
      var counter := CountHeld();
      if counter < maxLeases {
        gained, visited := TryEach(soon, clock, net);
      } else {
        gained, visited := None, {};
      }
    }

    /** Goes through the cached shards, in any order, until a lease is gained. */
    method TryEach(soon: Time, clock: ShardId -> LeaseClock, net: ShardId -> AcquireNet)
      returns (gained: Option<ShardId>, ghost visited: set<ShardId>)
      requires WellKeyed(shardStatus)
      modifies shardStatus.Values, checkpointer.table
      ensures visited <= shardStatus.Keys
      ensures if gained.Some? then gained.value in visited else visited == shardStatus.Keys
      ensures forall s :: s in visited ==>
                Shows(s, AcquireCall(checkpointer.cfg, RowIn(old(checkpointer.table.rows), s),
                                     old(shardStatus[s].View()), shardStatus[s].parent,
                                     old(shardStatus[s].claimRequest), workerId, soon, clock(s), net(s)),
                      gained == Some(s))
      ensures forall s :: s in shardStatus && s !in visited ==> shardStatus[s].View() == old(shardStatus[s].View())
      ensures forall s :: s !in visited ==> RowIn(checkpointer.table.rows, s) == RowIn(old(checkpointer.table.rows), s)
    {
      visited := {};
      ghost var effects := map s | s in shardStatus ::
        AcquireCall(checkpointer.cfg, RowIn(checkpointer.table.rows, s), shardStatus[s].View(), shardStatus[s].parent,
                    shardStatus[s].claimRequest, workerId, soon, clock(s), net(s));
      var todo := shardStatus.Keys;
      while todo != {}
        invariant visited !! todo && visited + todo == shardStatus.Keys
        invariant forall s :: s in visited ==> Shows(s, effects[s], false)
        invariant forall s :: s in todo ==>
                    shardStatus[s].View() == old(shardStatus[s].View())
                    && shardStatus[s].claimRequest == old(shardStatus[s].claimRequest)
        invariant forall s :: s !in visited ==>
                    RowIn(checkpointer.table.rows, s) == RowIn(old(checkpointer.table.rows), s)
        decreases todo
      {
        var id :| id in todo;
        todo, visited := todo - {id}, visited + {id};
        var ok := AcquireShard(shardStatus[id], soon, clock(id), net(id));
        assert Shows(id, effects[id], ok);
        if ok {
          return Some(id), visited;
        }
      }
      return None, visited;
    }

    /** The shard's row and cached lease are what the call left, and this was its success. */
    predicate Shows(s: ShardId, e: LeaseEffect, success: bool)
      requires s in shardStatus
      reads this, checkpointer.table, shardStatus.Values
    {
      && shardStatus[s].View() == e.cached
      && RowIn(checkpointer.table.rows, s) == e.row
      && (success <==> e.result.Ok?)
    }

    method AcquireShard(shard: ShardStatus, soon: Time, clock: LeaseClock, net: AcquireNet) returns (ok: bool)
      modifies shard, checkpointer.table
      ensures var e := AcquireCall(checkpointer.cfg, RowIn(old(checkpointer.table.rows), shard.id),
                                  old(shard.View()), shard.parent,
                                   old(shard.claimRequest), workerId, soon, clock, net);
              && shard.View() == e.cached
              && RowIn(checkpointer.table.rows, shard.id) == e.row
              && (ok <==> e.result.Ok?)
      ensures forall s :: s != shard.id ==> RowIn(checkpointer.table.rows, s) == RowIn(old(checkpointer.table.rows), s)
      ensures shard.claimRequest == old(shard.claimRequest)
    {
      if shard.assignedTo == workerId {
        return false;
      }
      var fetched := checkpointer.FetchCheckpoint(shard, net.fetch);
      if fetched.Err? && fetched.error != SequenceNotFound {
        return false;
      }
      if shard.checkpoint == ShardEnd {
        return false;
      }
      if checkpointer.cfg.stealing && shard.claimRequest != Nobody {
        var expired := shard.IsClaimRequestExpired(checkpointer.cfg, clock.judged);
        if shard.leaseTimeout < soon && !expired && shard.claimRequest != workerId {
          return false;
        }
      }
      var leased := checkpointer.GetLease(shard, workerId, clock, net.read, net.write);
      ok := leased.Ok?;
    }

    // ----- rebalance -----

    /** The choice rebalance makes on the lists of active workers: a shard of a fullest other
        worker above the average, exactly when this worker is below it. */
    method ChooseShard(workers: map<WorkerId, seq<ShardStatus>>, ghost a: Assignment)
      returns (choice: Option<ShardStatus>)
      requires Partitions(IdLists(workers), a) && Nobody !in Owners(a)
      ensures choice.Some? <==> WantsMore(a, workerId, maxLeases)
      ensures choice.Some? ==> Steals(a, workerId, maxLeases, choice.value.id)
      ensures choice.Some? ==> exists w :: w in workers && choice.value in workers[w]
    {
      var below, optimalShards := BelowAverage(workers, a);
      if !below {
        return None;
      }

      var workerSteal := FindVictim(workers, a, optimalShards);
      ListsMatch(workers, a);
      var list := workers[workerSteal];
      var randIndex :| 0 <= randIndex < |list|;
      assert a[list[randIndex].id] == workerSteal;
      return Some(list[randIndex]);
    }

    /** Whether this worker should steal, and the average if it should. */
    method BelowAverage(workers: map<WorkerId, seq<ShardStatus>>, ghost a: Assignment)
      returns (below: bool, optimalShards: nat)
      requires Partitions(IdLists(workers), a)
      ensures below <==> WantsMore(a, workerId, maxLeases)
      ensures below ==> optimalShards == Optimal(a, workerId)
    {
      ListsMatch(workers, a);
      var numShards := CountShards(workers, a);
      var numWorkers := |workers|;
      if numWorkers >= numShards {
        return false, 0;
      }

      var numCurrentShards := 0;
      CountPositive(a, workerId);
      if workerId !in workers {
        numWorkers := numWorkers + 1;
        assert |Team(a, workerId)| == |Owners(a)| + 1;
      } else {
        numCurrentShards := |workers[workerId]|;
        assert Team(a, workerId) == Owners(a);
      }
      AverageIsQuotient(numShards, numWorkers);
      optimalShards := numShards / numWorkers;
      if numCurrentShards >= optimalShards || numCurrentShards == maxLeases {
        return false, 0;
      }
      return true, optimalShards;
    }

    /** The worker to steal from. */
    method FindVictim(workers: map<WorkerId, seq<ShardStatus>>, ghost a: Assignment, optimalShards: nat)
      returns (workerSteal: WorkerId)
      requires Partitions(IdLists(workers), a) && Nobody !in Owners(a)
      requires WantsMore(a, workerId, maxLeases) && optimalShards == Optimal(a, workerId)
      ensures Victim(a, workerId, workerSteal)
    {
      workerSteal := FindFullest(workers, a, optimalShards);
      // the "not all shards are allocated" exit
      if workerSteal == Nobody {
        ghost var v := VictimExists(a, workerId, maxLeases);
        assert false;
      }
    }

    /** Adds up the lengths of the lists. */
    method CountShards(workers: map<WorkerId, seq<ShardStatus>>, ghost a: Assignment) returns (numShards: nat)
      requires Partitions(IdLists(workers), a)
      ensures numShards == |a|
    {
      PartitionSizes(IdLists(workers), a);
      assert workers.Keys == IdLists(workers).Keys;
      numShards := 0;
      var todo := workers.Keys;
      while todo != {}
        invariant todo <= workers.Keys
        invariant numShards + Sum(Lengths(IdLists(workers)), todo) == |a|
        decreases todo
      {
        var w :| w in todo;
        SumPick(Lengths(IdLists(workers)), todo, w);
        numShards := numShards + |workers[w]|;
        todo := todo - {w};
      }
    }

    /** Looks for a fullest other worker above the average, whatever the order of the map. */
    method FindFullest(workers: map<WorkerId, seq<ShardStatus>>, ghost a: Assignment, optimalShards: nat)
      returns (workerSteal: WorkerId)
      requires Partitions(IdLists(workers), a) && Nobody !in Owners(a)
      ensures if workerSteal == Nobody then forall w :: w in Owners(a) && w != workerId ==> Count(a, w) <= optimalShards
              else && workerSteal in Owners(a) && workerSteal != workerId && optimalShards < Count(a, workerSteal)
                   && forall w :: w in Owners(a) && w != workerId ==> Count(a, w) <= Count(a, workerSteal)
    {
      ListsMatch(workers, a);
      workerSteal := Nobody;
      var most := optimalShards;
      var todo := workers.Keys;
      while todo != {}
        invariant todo <= workers.Keys
        invariant if workerSteal == Nobody then most == optimalShards
                  else workerSteal in workers && workerSteal != workerId
                       && optimalShards < most == |workers[workerSteal]|
        invariant forall w :: w in workers && w !in todo && w != workerId ==> |workers[w]| <= most
        decreases todo
      {
        var w :| w in todo;
        todo := todo - {w};
        if w != workerId && |workers[w]| > most {
          workerSteal, most := w, |workers[w]|;
        }
      }
    }

    /** The unfinished shards and their owners, as rebalance sees them: if its sync is due and
        answered, as the table shows them, and as the cache has them where the table shows none. */
    ghost function SeenOwners(now: Time, scan: Reply): Assignment
      reads this, checkpointer, checkpointer.table, shardStatus.Values
    {
      var views := map s | s in shardStatus ::
        if checkpointer.SyncDue(now) && scan == Answered
        then Synced(shardStatus[s].View(), RowIn(checkpointer.table.rows, s)) else shardStatus[s].View();
      map s | s in views && views[s].checkpoint != ShardEnd :: views[s].owner
    }

    /** What SeenOwners holds, shard by shard: the owner and checkpoint of a row just scanned that
        has both, and the cached ones otherwise. */
    lemma SeenOwnersMeaning(now: Time, scan: Reply)
      ensures SeenOwners(now, scan).Keys <= shardStatus.Keys
      ensures forall s :: s in shardStatus ==>
                var row := RowIn(checkpointer.table.rows, s);
                var scanned := checkpointer.lastLeaseSync + checkpointer.syncInterval <= now && scan == Answered
                               && row.Some? && row.value.owner.Some? && row.value.checkpoint.Some?;
                var a := SeenOwners(now, scan);
                && (s in a <==> ShardEnd != if scanned then row.value.checkpoint.value else shardStatus[s].checkpoint)
                && (s in a ==> a[s] == if scanned then row.value.owner.value else shardStatus[s].assignedTo)
      ensures checkpointer.lastLeaseSync + checkpointer.syncInterval <= now && scan == Answered ==>
                var a, rows := SeenOwners(now, scan), checkpointer.table.rows;
                forall s :: s in a && s in rows && rows[s].owner.Some? && rows[s].checkpoint.Some? ==>
                  rows[s].owner == Some(a[s]) && rows[s].checkpoint != Some(ShardEnd)
    {
    }

    /** Syncs the cache and lists the active workers. */
    method ListOwners(now: Time, scan: Reply)
      returns (r: Result<map<WorkerId, seq<ShardStatus>>, LeaseError>, ghost a: Assignment)
      requires WellKeyed(shardStatus)
      modifies checkpointer, shardStatus.Values
      ensures a == old(SeenOwners(now, scan))
      // an owner the table has just shown replaces the cached one
      ensures old(checkpointer.lastLeaseSync) + checkpointer.syncInterval <= now && scan == Answered ==>
                var rows := old(checkpointer.table.rows);
                forall s :: s in a && s in rows && rows[s].owner.Some? && rows[s].checkpoint.Some? ==>
                  rows[s].owner == Some(a[s]) && rows[s].checkpoint != Some(ShardEnd)
      ensures r.Ok? <==> !(old(checkpointer.SyncDue(now)) && scan != Answered) && Nobody !in Owners(a)
      ensures r.Ok? ==> Partitions(IdLists(r.value), a) && DrawnFrom(r.value, shardStatus)
    {
      a := SeenOwners(now, scan);
      SeenOwnersMeaning(now, scan);
      r := checkpointer.ListActiveWorkers(shardStatus, now, scan);
      ghost var listed := Unfinished(shardStatus);
      assert forall s :: s in shardStatus ==> (s in listed <==> s in a) && (s in a ==> listed[s] == a[s]);
      SameAssignment(listed, a, shardStatus.Keys);
    }

    /** Syncs the cache, lists the active workers, and chooses the shard to steal, if any. */
    method PickShard(now: Time, scan: Reply) returns (r: Result<Option<ShardStatus>, LeaseError>, ghost a: Assignment)
      requires WellKeyed(shardStatus)
      modifies checkpointer, shardStatus.Values
      ensures a == old(SeenOwners(now, scan))
      // an owner the table has just shown replaces the cached one
      ensures old(checkpointer.lastLeaseSync) + checkpointer.syncInterval <= now && scan == Answered ==>
                var rows := old(checkpointer.table.rows);
                forall s :: s in a && s in rows && rows[s].owner.Some? && rows[s].checkpoint.Some? ==>
                  rows[s].owner == Some(a[s]) && rows[s].checkpoint != Some(ShardEnd)
      ensures r.Ok? <==> !(old(checkpointer.SyncDue(now)) && scan != Answered) && Nobody !in Owners(a)
      ensures r.Ok? ==> (r.value.Some? <==> WantsMore(a, workerId, maxLeases))
      ensures r.Ok? && r.value.Some? ==>
                && r.value.value.id in shardStatus && shardStatus[r.value.value.id] == r.value.value
                && Steals(a, workerId, maxLeases, r.value.value.id)
      // when the sync has seen the owner of every unfinished row, the robbed worker has two more rows
      ensures r.Ok? && r.value.Some? && Shown(a, old(checkpointer.table.rows)) ==>
                HasFewer(old(checkpointer.table.rows), workerId, a[r.value.value.id])
    {
      var workers;
      workers, a := ListOwners(now, scan);
      if workers.Err? {
        return Err(workers.error), a;
      }
      var choice := ChooseShard(workers.value, a);
      if choice.Some? && Shown(a, checkpointer.table.rows) {
        StealsFromFuller(a, checkpointer.table.rows, workerId, maxLeases, choice.value.id);
      }
      return Ok(choice), a;
    }

    /** The one difference between the tables is this worker's claim on the shard, whose condition held. */
    predicate ClaimedBy(before: Rows, after: Rows, shard: ShardStatus)
      reads shard
    {
      var put := ClaimPut(shard.View(), shard.parent, workerId);
      Holds(RowIn(before, shard.id), put.condition) && after == before[shard.id := put.item]
    }

    /** Claims the shard for this worker. */
    method PlaceClaim(shard: ShardStatus, read: Reply, write: Reply) returns (r: Result<(), LeaseError>)
      modifies shard`checkpoint, shard`assignedTo, shard`leaseTimeout, checkpointer.table
      ensures r.Ok? ==> && shard.id in old(checkpointer.table.rows)
                        && ClaimedBy(old(checkpointer.table.rows), checkpointer.table.rows, shard)
      ensures r.Ok? && old(checkpointer.table.rows)[shard.id].checkpoint.Some? ==>
                checkpointer.table.rows == old(checkpointer.table.rows)[shard.id :=
                  old(checkpointer.table.rows)[shard.id].(claim := Some(workerId))]
      ensures r.Err? ==> || checkpointer.table.rows == old(checkpointer.table.rows)
                         || ClaimedBy(old(checkpointer.table.rows), checkpointer.table.rows, shard)
      ensures r.Err? && write != AnswerLost ==> checkpointer.table.rows == old(checkpointer.table.rows)
      ensures forall s :: s != shard.id ==>
                RowIn(checkpointer.table.rows, s) == RowIn(old(checkpointer.table.rows), s)
    {
      r := checkpointer.ClaimShard(shard, workerId, read, write);
    }

    /** Claims the chosen shard, if this worker should steal: a is the assignment of unfinished
        shards to owners that the synced cache shows (SeenOwners).  A failed call has left the table
        alone, or, if only the answer was lost, placed the one claim that is due. */
    method Rebalance(now: Time, scan: Reply, read: Reply, write: Reply)
      returns (r: Result<Option<ShardId>, LeaseError>, ghost a: Assignment)
      requires WellKeyed(shardStatus)
      modifies checkpointer, shardStatus.Values, checkpointer.table
      ensures a == old(SeenOwners(now, scan))
      // an owner the table has just shown replaces the cached one
      ensures old(checkpointer.lastLeaseSync) + checkpointer.syncInterval <= now && scan == Answered ==>
                var rows := old(checkpointer.table.rows);
                forall s :: s in a && s in rows && rows[s].owner.Some? && rows[s].checkpoint.Some? ==>
                  rows[s].owner == Some(a[s]) && rows[s].checkpoint != Some(ShardEnd)
      ensures r.Ok? && r.value.Some? ==> r.value.value in old(checkpointer.table.rows)
      ensures r.Ok? && r.value.Some? && old(checkpointer.table.rows)[r.value.value].checkpoint.Some? ==>
                checkpointer.table.rows == old(checkpointer.table.rows)[r.value.value :=
                  old(checkpointer.table.rows)[r.value.value].(claim := Some(workerId))]
      ensures r.Ok? ==> Nobody !in Owners(a) && (r.value.Some? <==> WantsMore(a, workerId, maxLeases))
      ensures r.Ok? && r.value.Some? ==>
                && r.value.value in shardStatus && Steals(a, workerId, maxLeases, r.value.value)
                && ClaimedBy(old(checkpointer.table.rows), checkpointer.table.rows, shardStatus[r.value.value])
      // when the sync has seen the owner of every unfinished row, the robbed worker has two more rows
      ensures r.Ok? && r.value.Some? && Shown(a, old(checkpointer.table.rows)) ==>
                HasFewer(old(checkpointer.table.rows), workerId, a[r.value.value])
      ensures r.Ok? && r.value.None? ==> checkpointer.table.rows == old(checkpointer.table.rows)
      ensures r.Err? ==>
                || checkpointer.table.rows == old(checkpointer.table.rows)
                || exists s :: && s in shardStatus && Steals(a, workerId, maxLeases, s)
                               && ClaimedBy(old(checkpointer.table.rows), checkpointer.table.rows, shardStatus[s])
      ensures r.Err? && write != AnswerLost ==> checkpointer.table.rows == old(checkpointer.table.rows)
      ensures forall s :: s !in shardStatus ==>
                RowIn(checkpointer.table.rows, s) == RowIn(old(checkpointer.table.rows), s)
    {
      var picked;
      picked, a := PickShard(now, scan);
      if picked.Err? {
        return Err(picked.error), a;
      }
      if picked.value.None? {
        return Ok(None), a;
      }
      var shard := picked.value.value;
      var claimed := PlaceClaim(shard, read, write);
      r := if claimed.Err? then Err(claimed.error) else Ok(Some(shard.id));
    }
  }

  lemma SameAssignment(a: Assignment, b: Assignment, shards: set<ShardId>)
    requires a.Keys <= shards && b.Keys <= shards
    requires forall s :: s in shards ==> (s in a <==> s in b) && (s in b ==> a[s] == b[s])
    ensures a == b
  {
    assert a.Keys == b.Keys;
  }

  /** The assignment holds the unfinished rows of the table, under the owners they name. */
  ghost predicate Shown(a: Assignment, rows: Rows) {
    && (forall s :: s in a <==> s in rows && rows[s].checkpoint != Some(ShardEnd))
    && forall s :: s in a ==> rows[s].owner == Some(a[s])
  }

  /** One worker owns at least two unfinished rows less than the other. */
  predicate HasFewer(rows: Rows, me: WorkerId, v: WorkerId) {
    |set s | s in rows && rows[s].owner == Some(me) && rows[s].checkpoint != Some(ShardEnd)| + 2 <=
    |set s | s in rows && rows[s].owner == Some(v) && rows[s].checkpoint != Some(ShardEnd)|
  }

  /** A steal on owners that the table confirms takes from a worker with at least two more rows. */
  lemma StealsFromFuller(a: Assignment, rows: Rows, me: WorkerId, cap: nat, shard: ShardId)
    requires Steals(a, me, cap, shard)
    requires forall s :: s in a <==> s in rows && rows[s].checkpoint != Some(ShardEnd)
    requires forall s :: s in a ==> rows[s].owner == Some(a[s])
    ensures |set s | s in rows && rows[s].owner == Some(me) && rows[s].checkpoint != Some(ShardEnd)| + 2 <=
            |set s | s in rows && rows[s].owner == Some(a[shard]) && rows[s].checkpoint != Some(ShardEnd)|
    ensures HasFewer(rows, me, a[shard])
  {
    var v := a[shard];
    StealDrops(a, me, cap, shard, Owners(a) + {me});
    assert Owned(a, me) == set s | s in rows && rows[s].owner == Some(me) && rows[s].checkpoint != Some(ShardEnd);
    assert Owned(a, v) == set s | s in rows && rows[s].owner == Some(v) && rows[s].checkpoint != Some(ShardEnd);
  }

  lemma ListsMatch(workers: map<WorkerId, seq<ShardStatus>>, a: Assignment)
    requires Partitions(IdLists(workers), a)
    ensures workers.Keys == Owners(a) && |workers| == |Owners(a)|
    ensures forall w :: w in workers ==> |workers[w]| == Count(a, w) > 0
    ensures forall w, i :: w in workers && 0 <= i < |workers[w]| ==> workers[w][i].id in a && a[workers[w][i].id] == w
  {
    PartitionSizes(IdLists(workers), a);
    assert workers.Keys == IdLists(workers).Keys;
    forall w | w in workers ensures |workers[w]| == Count(a, w) > 0 {
      assert |IdLists(workers)[w]| == |workers[w]|;
    }
    forall w, i | w in workers && 0 <= i < |workers[w]| ensures workers[w][i].id in Owned(a, w) {
      assert IdLists(workers)[w][i] == workers[w][i].id;
    }
  }

  lemma IdsOfStep(shards: seq<ShardInfo>, i: nat)
    requires i < |shards|
    ensures IdsOf(shards[..i + 1]) == IdsOf(shards[..i]) + {shards[i].id}
  {
    forall s ensures s in IdsOf(shards[..i + 1]) <==> s in IdsOf(shards[..i]) + {shards[i].id} {
      if s in IdsOf(shards[..i]) {
        var j :| 0 <= j < i && shards[..i][j].id == s;
        assert shards[..i + 1][j].id == s;
      }
      assert shards[..i + 1][i].id == shards[i].id;
      if s in IdsOf(shards[..i + 1]) {
        var j :| 0 <= j < i + 1 && shards[..i + 1][j].id == s;
        assert j < i ==> shards[..i][j].id == s;
      }
    }
  }
}
