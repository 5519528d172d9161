/** The leases a worker gains and the consumers it runs. */
module Crew {
  import opened LeaseTypes
  import opened LeaseRules
  import opened Partition
  import opened Checkpointer
  import opened Protocol
  import opened Workers
  import opened Consumers
  import RateLimit

  /** The counts of leases gained and lost, and the consumers running. */
  datatype Tally<C> = Tally(gained: nat, lost: nat, running: set<C>)

  /** What can happen: a pass over the shards gains a lease, for which a consumer is started, or
      gains none; or a consumer leaves. */
  datatype Turn<C> = Gains(consumer: C) | GainsNothing | Leaves(consumer: C)

  predicate CanHappen<C(==)>(t: Tally<C>, turn: Turn<C>) {
    match turn
    case Gains(c) => c !in t.running
    case GainsNothing => true
    case Leaves(c) => c in t.running
  }

  function Tallied<C(==)>(t: Tally<C>, turn: Turn<C>): Tally<C> {
    match turn
    case Gains(c) => Tally(t.gained + 1, t.lost, t.running + {c})
    case GainsNothing => t
    case Leaves(c) => Tally(t.gained, t.lost + 1, t.running - {c})
  }

  predicate IsLife<C(==)>(tallies: seq<Tally<C>>, turns: seq<Turn<C>>) {
    && |tallies| == |turns| + 1
    && tallies[0] == Tally(0, 0, {})
    && forall i :: 0 <= i < |turns| ==>
         CanHappen(tallies[i], turns[i]) && tallies[i + 1] == Tallied(tallies[i], turns[i])
  }

  function Started<C>(turns: seq<Turn<C>>, i: nat): (cs: set<C>)
    requires i <= |turns|
    ensures forall k :: 0 <= k < i && turns[k].Gains? ==> turns[k].consumer in cs
  {
    if i == 0 then {} else Started(turns, i - 1) + if turns[i - 1].Gains? then {turns[i - 1].consumer} else {}
  }

  /** Over a worker's whole life, the leases gained, less those lost, are the consumers running;
      and only consumers that were started are. */
  lemma {:induction false} GainedLessLost<C>(tallies: seq<Tally<C>>, turns: seq<Turn<C>>, i: nat)
    requires IsLife(tallies, turns) && i < |tallies|
    ensures tallies[i].gained - tallies[i].lost == |tallies[i].running|
    ensures tallies[i].running <= Started(turns, i)
  {
    if i > 0 {
      GainedLessLost(tallies, turns, i - 1);
      assert CanHappen(tallies[i - 1], turns[i - 1]);
    }
  }

  /** A worker and the consumers it has started. */
  class Crew {
    const worker: Worker
    var leasesGained: nat
    var leasesLost: nat
    var running: set<ShardConsumer>

    function View(): Tally<ShardConsumer>
      reads this
    {
      Tally(leasesGained, leasesLost, running)
    }

    constructor (worker: Worker)
      ensures this.worker == worker && View() == Tally(0, 0, {})
    {
      this.worker := worker;
      leasesGained, leasesLost, running := 0, 0, {};
    }

    /** The acquisition of the event loop: a lease gained is counted, and a consumer of its shard
        is started. */
    method Acquire(soon: Time, clock: ShardId -> LeaseClock, net: ShardId -> AcquireNet, now: Time, maxRetryCount: nat,
                   callEvenIfEmpty: bool, initialPosition: InitialPosition)
      returns (ghost turn: Turn<ShardConsumer>)
      requires WellKeyed(worker.shardStatus)
      modifies this`leasesGained, this`running, worker.shardStatus.Values, worker.checkpointer.table
      ensures turn.Gains? || turn.GainsNothing?
      ensures CanHappen(old(View()), turn) && View() == Tallied(old(View()), turn)
      ensures turn.Gains? ==>
                && fresh(turn.consumer) && turn.consumer.trace == [] && turn.consumer.leasesLost == 0
                && turn.consumer.shard in worker.shardStatus.Values
                && turn.consumer.shard.assignedTo == worker.workerId
                && OwnerOf(RowIn(worker.checkpointer.table.rows, turn.consumer.shard.id)) == Some(worker.workerId)
    {
      turn := GainsNothing;
      var gained;
      ghost var visited;
      gained, visited := worker.AcquirePass(soon, clock, net);
      if gained.Some? {
        var id := gained.value;
        AcquireCallExact(worker.checkpointer.cfg, RowIn(old(worker.checkpointer.table.rows), id),
                         old(worker.shardStatus[id].View()), worker.shardStatus[id].parent,
                         old(worker.shardStatus[id].claimRequest), worker.workerId, soon, clock(id), net(id));
        leasesGained := leasesGained + 1;
        var limiter := new RateLimit.PollingShardConsumer(now);
        var consumer := new ShardConsumer(worker.shardStatus[id], worker.checkpointer, limiter, maxRetryCount,
                                          callEvenIfEmpty, initialPosition);
        running := running + {consumer};
        turn := Gains(consumer);
      }
    }

    /** A polling consumer runs; if it returns, it has released its lease once, and leaves. */
    method RunPolling(consumer: ShardConsumer, polls: seq<ParentPoll>, fetch: Reply, latest: nat, connected: bool,
                      turns: seq<PollTurn>, release: Reply)
      returns (r: Run)
      requires consumer in running && consumer.trace == []
      modifies this`leasesLost, this`running, consumer, consumer.shard, consumer.limiter, consumer.checkpointer.table
      ensures View() == if r.Exited? then Tallied(old(View()), Leaves(consumer)) else old(View())
      ensures leasesLost - old(leasesLost) == consumer.leasesLost - old(consumer.leasesLost)
    {
      var before := consumer.leasesLost;
      ghost var first, next, wait, asked;
      r, first, next, wait, asked := consumer.PollingGetRecords(polls, fetch, latest, connected, turns, release);
      leasesLost := leasesLost + (consumer.leasesLost - before);
      if r.Exited? {
        running := running - {consumer};
      }
    }

    /** The same for a fan-out consumer. */
    method RunFanOut(consumer: ShardConsumer, polls: seq<ParentPoll>, fetch: Reply, latest: nat, connected: bool,
                     turns: seq<FanOutTurn>, release: Reply)
      returns (r: Run)
      requires consumer in running && consumer.trace == []
      modifies this`leasesLost, this`running, consumer, consumer.shard, consumer.checkpointer.table
      ensures View() == if r.Exited? then Tallied(old(View()), Leaves(consumer)) else old(View())
      ensures leasesLost - old(leasesLost) == consumer.leasesLost - old(consumer.leasesLost)
    {
      var before := consumer.leasesLost;
      ghost var first, next, wait, taken;
      r, first, next, wait, taken := consumer.FanOutGetRecords(polls, fetch, latest, connected, turns, release);
      leasesLost := leasesLost + (consumer.leasesLost - before);
      if r.Exited? {
        running := running - {consumer};
      }
    }
  }
}
