/** The checkpointer's operations, when no other step intervenes, are runs of the protocol's steps,
    whatever becomes of their requests and however the clock advances meanwhile; and the event
    loop's acquisition of one shard is a step of the histories of finished shards. */
module Refinement {
  import opened LeaseTypes
  import opened LeaseRules
  import opened Protocol
  import Workers
  import FinishedShards

  /** A step, and what the clock says when it is taken. */
  datatype Timed = Timed(now: Time, op: LeaseOp)

  /** The steps one after another. */
  function Steps(cfg: Config, parent: ShardId, l: LeaseState, ops: seq<Timed>): Option<LeaseState>
    decreases |ops|
  {
    if ops == [] then Some(l)
    else if LeaseEnabled(l, ops[0].op)
    then Steps(cfg, parent, LeaseStep(cfg, parent, ops[0].now, l, ops[0].op), ops[1..])
    else None
  }

  lemma StepsOne(cfg: Config, parent: ShardId, now: Time, l: LeaseState, op: LeaseOp)
    requires LeaseEnabled(l, op)
    ensures Steps(cfg, parent, l, [Timed(now, op)]) == Some(LeaseStep(cfg, parent, now, l, op))
  {
    assert [Timed(now, op)][1..] == [];
  }

  lemma {:induction false} StepsAppend(cfg: Config, parent: ShardId, l: LeaseState, a: seq<Timed>, b: seq<Timed>)
    requires Steps(cfg, parent, l, a).Some?
    ensures Steps(cfg, parent, l, a + b) == Steps(cfg, parent, Steps(cfg, parent, l, a).value, b)
    decreases |a|
  {
    if a == [] {
      assert a + b == b;
    } else {
      StepsAppend(cfg, parent, LeaseStep(cfg, parent, a[0].now, l, a[0].op), a[1..], b);
      assert (a + b)[1..] == a[1..] + b;
    }
  }

  /** One more step. */
  lemma StepsThen(cfg: Config, parent: ShardId, l: LeaseState, a: seq<Timed>, m: LeaseState, now: Time, op: LeaseOp)
    requires Steps(cfg, parent, l, a) == Some(m) && LeaseEnabled(m, op)
    ensures Steps(cfg, parent, l, a + [Timed(now, op)]) == Some(LeaseStep(cfg, parent, now, m, op))
  {
    StepsOne(cfg, parent, now, m, op);
    StepsAppend(cfg, parent, l, a, [Timed(now, op)]);
  }

  /** The worker's row and cached status after the steps; every other cache, and every call that
      was in flight before, is as it was. */
  predicate Leaves(o: Option<LeaseState>, l: LeaseState, w: WorkerId, row: Option<Row>, cached: Cached) {
    o == Some(LeaseState(row, l.cache[w := cached], l.calls))
  }

  // ----- GetLease -----

  /** The steps of GetLease, as call id, up to the decision. */
  function BeforePut(id: nat, w: WorkerId, clock: LeaseClock): seq<Timed> {
    [Timed(clock.start, StartLease(id, w))] + [Timed(clock.start, ReadLease(id))] +
    [Timed(clock.judged, JudgeClaim(id))] + [Timed(clock.decided, DecideOnLease(id))]
  }

  /** The steps of its put. */
  function ThePut(id: nat, clock: LeaseClock, write: Reply, holds: bool): seq<Timed> {
    match write
    case Dropped => [Timed(clock.decided, Abandon(id))]
    case AnswerLost => [Timed(clock.decided, PutLease(id, false))]
    case Answered =>
      [Timed(clock.decided, PutLease(id, true))] + if holds then [Timed(clock.decided, AdoptLease(id))] else []
  }

  function Decision(cfg: Config, parent: ShardId, l: LeaseState, w: WorkerId,
                    clock: LeaseClock): Result<Put, LeaseError>
    requires w in l.cache
  {
    DecideLease(cfg, l.row, w, l.cache[w].checkpoint, parent, clock.start + cfg.leaseDuration,
                ClaimExpired(cfg, l.cache[w].timeout, clock.judged), clock.decided)
  }

  function LeaseSteps(cfg: Config, parent: ShardId, l: LeaseState, id: nat, w: WorkerId, clock: LeaseClock,
                      read: Reply, write: Reply): seq<Timed>
    requires w in l.cache
  {
    var d := Decision(cfg, parent, l, w, clock);
    if read != Answered then [Timed(clock.start, StartLease(id, w))] + [Timed(clock.start, Abandon(id))]
    else if d.Err? then BeforePut(id, w, clock)
    else BeforePut(id, w, clock) + ThePut(id, clock, write, Holds(l.row, d.value.condition))
  }

  /** Started, read and judged. */
  function Judged(cfg: Config, l: LeaseState, id: nat, w: WorkerId, clock: LeaseClock): LeaseState
    requires w in l.cache
  {
    l.(calls := l.calls[id := LeaseJudged(w, clock.start + cfg.leaseDuration, l.row,
                                          ClaimExpired(cfg, l.cache[w].timeout, clock.judged))])
  }

  /** The put decided on. */
  function Decided(cfg: Config, l: LeaseState, id: nat, w: WorkerId, clock: LeaseClock, put: Put): LeaseState
    requires w in l.cache
  {
    l.(calls := l.calls[id := LeaseDecided(w, clock.start + cfg.leaseDuration, l.row,
                                           ClaimExpired(cfg, l.cache[w].timeout, clock.judged), put)])
  }

  lemma ReadAndJudge(cfg: Config, parent: ShardId, l: LeaseState, id: nat, w: WorkerId, clock: LeaseClock)
    requires id !in l.calls && w in l.cache
    ensures Steps(cfg, parent, l, [Timed(clock.start, StartLease(id, w))] + [Timed(clock.start, ReadLease(id))] +
                                  [Timed(clock.judged, JudgeClaim(id))]) == Some(Judged(cfg, l, id, w, clock))
  {
    var l1 := LeaseStep(cfg, parent, clock.start, l, StartLease(id, w));
    var l2 := LeaseStep(cfg, parent, clock.start, l1, ReadLease(id));
    StepsOne(cfg, parent, clock.start, l, StartLease(id, w));
    StepsThen(cfg, parent, l, [Timed(clock.start, StartLease(id, w))], l1, clock.start, ReadLease(id));
    StepsThen(cfg, parent, l, [Timed(clock.start, StartLease(id, w))] + [Timed(clock.start, ReadLease(id))], l2,
              clock.judged, JudgeClaim(id));
    assert LeaseStep(cfg, parent, clock.judged, l2, JudgeClaim(id)).calls == Judged(cfg, l, id, w, clock).calls;
  }

  lemma Decide(cfg: Config, parent: ShardId, l: LeaseState, id: nat, w: WorkerId, clock: LeaseClock)
    requires id !in l.calls && w in l.cache
    ensures var d := Decision(cfg, parent, l, w, clock);
            Steps(cfg, parent, l, BeforePut(id, w, clock)) ==
              Some(if d.Ok? then Decided(cfg, l, id, w, clock, d.value) else l)
  {
    var l3 := Judged(cfg, l, id, w, clock);
    ReadAndJudge(cfg, parent, l, id, w, clock);
    StepsThen(cfg, parent, l, [Timed(clock.start, StartLease(id, w))] + [Timed(clock.start, ReadLease(id))] +
                              [Timed(clock.judged, JudgeClaim(id))], l3, clock.decided, DecideOnLease(id));
    var l4, d := LeaseStep(cfg, parent, clock.decided, l3, DecideOnLease(id)), Decision(cfg, parent, l, w, clock);
    assert l4.calls == if d.Ok? then Decided(cfg, l, id, w, clock, d.value).calls else l.calls;
  }

  lemma PutSteps(cfg: Config, parent: ShardId, l: LeaseState, id: nat, w: WorkerId, clock: LeaseClock, put: Put,
                 write: Reply)
    requires id !in l.calls && w in l.cache
    ensures var holds := Holds(l.row, put.condition);
            Leaves(Steps(cfg, parent, Decided(cfg, l, id, w, clock, put), ThePut(id, clock, write, holds)), l, w,
                   if write != Dropped && holds then Some(put.item) else l.row,
                   if write == Answered && holds
                   then l.cache[w].(owner := w, timeout := clock.start + cfg.leaseDuration) else l.cache[w])
  {
    var m := Decided(cfg, l, id, w, clock, put);
    assert m.calls - {id} == l.calls && l.cache[w := l.cache[w]] == l.cache;
    match write
    case Dropped => StepsOne(cfg, parent, clock.decided, m, Abandon(id));
    case AnswerLost => StepsOne(cfg, parent, clock.decided, m, PutLease(id, false));
    case Answered =>
      StepsOne(cfg, parent, clock.decided, m, PutLease(id, true));
      if Holds(l.row, put.condition) {
        var n := LeaseStep(cfg, parent, clock.decided, m, PutLease(id, true));
        assert n.calls - {id} == l.calls;
        StepsThen(cfg, parent, m, [Timed(clock.decided, PutLease(id, true))], n, clock.decided, AdoptLease(id));
      } else {
        assert [Timed(clock.decided, PutLease(id, true))] + [] == [Timed(clock.decided, PutLease(id, true))];
      }
  }

  /** GetLease, for every fate of its two requests and every advance of the clock. */
  lemma GetLeaseRefines(cfg: Config, parent: ShardId, l: LeaseState, id: nat, w: WorkerId, clock: LeaseClock,
                        read: Reply, write: Reply)
    requires id !in l.calls && w in l.cache
    ensures var e := LeaseCall(cfg, l.row, l.cache[w], parent, w, clock, read, write);
            Leaves(Steps(cfg, parent, l, LeaseSteps(cfg, parent, l, id, w, clock, read, write)), l, w, e.row, e.cached)
  {
    var d := Decision(cfg, parent, l, w, clock);
    assert l.cache[w := l.cache[w]] == l.cache;
    if read != Answered {
      var m := LeaseStep(cfg, parent, clock.start, l, StartLease(id, w));
      assert m.calls - {id} == l.calls;
      StepsOne(cfg, parent, clock.start, l, StartLease(id, w));
      StepsThen(cfg, parent, l, [Timed(clock.start, StartLease(id, w))], m, clock.start, Abandon(id));
    } else {
      Decide(cfg, parent, l, id, w, clock);
      if d.Ok? {
        var put := ThePut(id, clock, write, Holds(l.row, d.value.condition));
        PutSteps(cfg, parent, l, id, w, clock, d.value, write);
        StepsAppend(cfg, parent, l, BeforePut(id, w, clock), put);
      }
    }
  }

  // ----- ClaimShard and checkpoints: these read no clock -----

  function ClaimSteps(id: nat, w: WorkerId, now: Time, read: Reply, write: Reply): seq<Timed> {
    [Timed(now, ReadForFetch(id, w))] +
    if read != Answered then [Timed(now, Abandon(id))]
    else [Timed(now, ApplyFetch(id))] +
         ([Timed(now, DecideClaim(id, w))] + [Timed(now, if write == Dropped then Abandon(id) else PutClaim(id))])
  }

  lemma PutClaimSteps(cfg: Config, parent: ShardId, now: Time, l: LeaseState, id: nat, w: WorkerId, write: Reply)
    requires id !in l.calls && w in l.cache
    ensures var put := ClaimPut(l.cache[w], parent, w);
            Steps(cfg, parent, l,
                  [Timed(now, DecideClaim(id, w))] +
                   [Timed(now, if write == Dropped then Abandon(id) else PutClaim(id))]) ==
              Some(if write != Dropped && Holds(l.row, put.condition) then l.(row := Some(put.item)) else l)
  {
    var l1 := LeaseStep(cfg, parent, now, l, DecideClaim(id, w));
    assert l1.calls - {id} == l.calls;
    StepsOne(cfg, parent, now, l, DecideClaim(id, w));
    StepsThen(cfg, parent, l, [Timed(now, DecideClaim(id, w))], l1, now,
              if write == Dropped then Abandon(id) else PutClaim(id));
  }

  /** ClaimShard: the fetch, then the conditional put, for every fate of its two requests. */
  lemma ClaimShardRefines(cfg: Config, parent: ShardId, now: Time, l: LeaseState, id: nat, w: WorkerId,
                          read: Reply, write: Reply)
    requires id !in l.calls && w in l.cache
    ensures var cached := if read == Answered then Refreshed(l.cache[w], l.row) else l.cache[w];
            var put := ClaimPut(cached, parent, w);
            Leaves(Steps(cfg, parent, l, ClaimSteps(id, w, now, read, write)), l, w,
                   if read == Answered && write != Dropped && Holds(l.row, put.condition)
                      then Some(put.item) else l.row,
                   cached)
  {
    var l1 := LeaseStep(cfg, parent, now, l, ReadForFetch(id, w));
    assert l1.calls - {id} == l.calls && l.cache[w := l.cache[w]] == l.cache;
    StepsOne(cfg, parent, now, l, ReadForFetch(id, w));
    if read != Answered {
      StepsThen(cfg, parent, l, [Timed(now, ReadForFetch(id, w))], l1, now, Abandon(id));
    } else {
      var fetched := LeaseState(l.row, l.cache[w := Refreshed(l.cache[w], l.row)], l.calls);
      var claim := [Timed(now, DecideClaim(id, w))] +
                   [Timed(now, if write == Dropped then Abandon(id) else PutClaim(id))];
      StepsThen(cfg, parent, l, [Timed(now, ReadForFetch(id, w))], l1, now, ApplyFetch(id));
      PutClaimSteps(cfg, parent, now, fetched, id, w, write);
      StepsAppend(cfg, parent, l, [Timed(now, ReadForFetch(id, w))] + [Timed(now, ApplyFetch(id))], claim);
      assert [Timed(now, ReadForFetch(id, w))] + ([Timed(now, ApplyFetch(id))] + claim) ==
             [Timed(now, ReadForFetch(id, w))] + [Timed(now, ApplyFetch(id))] + claim;
    }
  }

  /** An application's checkpoint: the cache, then the item, then the unconditional put, which may
      be dropped. */
  lemma CheckpointRefines(cfg: Config, parent: ShardId, now: Time, l: LeaseState, id: nat, w: WorkerId, p: Position,
                          write: Reply)
    requires id !in l.calls && w in l.cache && p != Unset
    ensures var cached := l.cache[w].(checkpoint := p);
            var last := if write == Dropped then Abandon(id) else SaveCheckpoint(id);
            Leaves(Steps(cfg, parent, l, [Timed(now, SetCheckpoint(w, p))] + [Timed(now, MarshalCheckpoint(id, w))] +
                                         [Timed(now, last)]),
                   l, w, if write == Dropped then l.row else Some(CheckpointItem(cached, parent)), cached)
  {
    var last := if write == Dropped then Abandon(id) else SaveCheckpoint(id);
    var l1 := LeaseStep(cfg, parent, now, l, SetCheckpoint(w, p));
    var l2 := LeaseStep(cfg, parent, now, l1, MarshalCheckpoint(id, w));
    assert l2.calls - {id} == l.calls;
    StepsOne(cfg, parent, now, l, SetCheckpoint(w, p));
    StepsThen(cfg, parent, l, [Timed(now, SetCheckpoint(w, p))], l1, now, MarshalCheckpoint(id, w));
    StepsThen(cfg, parent, l, [Timed(now, SetCheckpoint(w, p))] + [Timed(now, MarshalCheckpoint(id, w))],
              l2, now, last);
  }

  // ----- The cache refreshed, and the lease released -----

  /** FetchCheckpoint: a row with a checkpoint refreshes the cache, attribute by attribute. */
  lemma FetchRefines(cfg: Config, parent: ShardId, now: Time, l: LeaseState, id: nat, w: WorkerId)
    requires id !in l.calls && w in l.cache
    ensures var cached := l.cache[w];
            Leaves(Steps(cfg, parent, l, [Timed(now, ReadForFetch(id, w))] + [Timed(now, ApplyFetch(id))]), l, w, l.row,
                   if l.row.Some? && l.row.value.checkpoint.Some?
                   then Cached(if l.row.value.owner.Some? then l.row.value.owner.value else cached.owner,
                               if l.row.value.timeout.Some? then l.row.value.timeout.value else cached.timeout,
                               l.row.value.checkpoint.value)
                   else cached)
  {
    var l1 := LeaseStep(cfg, parent, now, l, ReadForFetch(id, w));
    assert l1.calls - {id} == l.calls && l.cache[w := l.cache[w]] == l.cache;
    StepsOne(cfg, parent, now, l, ReadForFetch(id, w));
    StepsThen(cfg, parent, l, [Timed(now, ReadForFetch(id, w))], l1, now, ApplyFetch(id));
  }

  /** The scan of syncLeases, for one shard: a row with an owner and a checkpoint replaces both in
      the cache, and never the timeout. */
  lemma SyncRefines(cfg: Config, parent: ShardId, now: Time, l: LeaseState, id: nat, w: WorkerId)
    requires id !in l.calls && w in l.cache
    ensures var cached := l.cache[w];
            Leaves(Steps(cfg, parent, l, [Timed(now, ReadForSync(id, w))] + [Timed(now, ApplySync(id))]), l, w, l.row,
                   if l.row.Some? && l.row.value.owner.Some? && l.row.value.checkpoint.Some?
                   then Cached(l.row.value.owner.value, cached.timeout, l.row.value.checkpoint.value)
                   else cached)
  {
    var l1 := LeaseStep(cfg, parent, now, l, ReadForSync(id, w));
    assert l1.calls - {id} == l.calls && l.cache[w := l.cache[w]] == l.cache;
    StepsOne(cfg, parent, now, l, ReadForSync(id, w));
    StepsThen(cfg, parent, l, [Timed(now, ReadForSync(id, w))], l1, now, ApplySync(id));
  }

  /** releaseLease: the cached owner is forgotten, then the worker's own name leaves the row,
      unless the request is dropped. */
  lemma ReleaseRefines(cfg: Config, parent: ShardId, now: Time, l: LeaseState, w: WorkerId, write: Reply)
    requires w in l.cache
    ensures var ops := [Timed(now, ForgetOwner(w))] + if write == Dropped then [] else [Timed(now, RemoveOwner(w))];
            Leaves(Steps(cfg, parent, l, ops), l, w,
                   if write != Dropped && l.row.Some? && l.row.value.owner == Some(w)
                   then Some(l.row.value.(owner := None)) else l.row,
                   Cached(Nobody, l.cache[w].timeout, l.cache[w].checkpoint))
  {
    var l1 := LeaseStep(cfg, parent, now, l, ForgetOwner(w));
    StepsOne(cfg, parent, now, l, ForgetOwner(w));
    if write == Dropped {
      assert [Timed(now, ForgetOwner(w))] + [] == [Timed(now, ForgetOwner(w))];
    } else {
      StepsThen(cfg, parent, l, [Timed(now, ForgetOwner(w))], l1, now, RemoveOwner(w));
    }
  }

  // ----- The event loop's acquisition -----

  /** The event loop's acquisition of one shard, unless the answer of its put is lost: nothing when
      the shard is skipped or the fetch fails; a fetch when it stops there; otherwise the atomic
      acquire step. */
  lemma AcquireRefines(cfg: Config, parent: ShardId, s: FinishedShards.Snapshot, w: WorkerId, claimRequest: WorkerId,
                       soon: Time, net: Workers.AcquireNet)
    requires FinishedShards.Possible(cfg, s, FinishedShards.Acquire(w)) && net.write != AnswerLost
    ensures var e := Workers.AcquireCall(cfg, s.row, s.cache[w], parent, claimRequest, w, soon,
                                 LeaseClock(s.now, s.now, s.now), net);
            var after := FinishedShards.Snapshot(s.now, e.row, s.cache[w := e.cached]);
            if s.cache[w].owner == w || net.fetch != Answered then after == s
            else if net.read == Answered && net.write == Answered &&
                    !Workers.BeingStolen(cfg, Refreshed(s.cache[w], s.row).timeout, claimRequest, w, soon, s.now)
            then after == FinishedShards.Act(cfg, parent, s, FinishedShards.Acquire(w))
            else after == FinishedShards.Act(cfg, parent, s, FinishedShards.Fetch(w))
  {
    assert s.cache[w := s.cache[w]] == s.cache;
  }
}
