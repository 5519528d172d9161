/** Concrete runs showing that the hypotheses of the theorems are needed: in each, one clause of
    the lease discipline is broken once, or one race happens, and the guarantee fails. */
module Scenarios {
  import opened LeaseTypes
  import opened LeaseRules
  import opened Protocol
  import opened MutualExclusion

  const A := Worker(1)
  const B := Worker(2)
  const C := Worker(3)
  const S := Shard(1)

  /** A run built one step at a time. */
  datatype Trace = Start(world: World) | Then(before: Trace, step: Step)

  /** Where the trace ends, if every step of it was possible. */
  function Outcome(cfg: Config, parents: Parents, t: Trace): Option<World> {
    match t
    case Start(w) => if Initial(w) then Some(w) else None
    case Then(before, step) =>
      var o := Outcome(cfg, parents, before);
      if o.Some? && Enabled(parents, o.value, step) then Some(Next(cfg, parents, o.value, step)) else None
  }

  /** The steps of the trace that broke the lease discipline. */
  function Breaches(cfg: Config, parents: Parents, t: Trace): seq<LeaseOp>
    requires Outcome(cfg, parents, t).Some?
  {
    match t
    case Start(_) => []
    case Then(before, step) =>
      Breaches(cfg, parents, before) +
      if Disciplined(cfg, Outcome(cfg, parents, before).value, step) then [] else [step.leaseOp]
  }

  /** A trace is a run, and a disciplined one if it has no breaches. */
  lemma {:induction false} TraceIsRun(cfg: Config, parents: Parents, t: Trace)
    returns (worlds: seq<World>, steps: seq<Step>)
    requires Outcome(cfg, parents, t).Some?
    ensures IsRun(cfg, parents, worlds, steps) && Some(worlds[|steps|]) == Outcome(cfg, parents, t)
    ensures Breaches(cfg, parents, t) == [] ==> DisciplinedRun(cfg, parents, worlds, steps)
  {
    match t
    case Start(w) =>
      worlds, steps := [w], [];
    case Then(before, step) =>
      worlds, steps := TraceIsRun(cfg, parents, before);
      worlds, steps := worlds + [Outcome(cfg, parents, t).value], steps + [step];
  }

  // ----- Runs of one shard without a parent -----

  function Solo(now: Time, l: LeaseState, s: StreamState): World {
    World(now, map[S := ShardState(l, s)])
  }

  predicate Ends(cfg: Config, t: Trace, now: Time, l: LeaseState, s: StreamState, breaches: seq<LeaseOp>) {
    Outcome(cfg, map[], t) == Some(Solo(now, l, s)) && Breaches(cfg, map[], t) == breaches
  }

  lemma Wait(cfg: Config, t: Trace, now: Time, l: LeaseState, s: StreamState, b: seq<LeaseOp>, later: Time)
    returns (u: Trace)
    requires Ends(cfg, t, now, l, s, b) && now <= later
    ensures Ends(cfg, u, later, l, s, b)
  {
    u := Then(t, Tick(later));
  }

  lemma Do(cfg: Config, t: Trace, now: Time, l: LeaseState, s: StreamState, b: seq<LeaseOp>, op: LeaseOp)
    returns (u: Trace, m: LeaseState)
    requires Ends(cfg, t, now, l, s, b)
    requires LeaseEnabled(l, op) && (op.SetCheckpoint? ==> Checkpointable(s, op.position))
    ensures u == Then(t, Lease(S, op)) && m == LeaseStep(cfg, NoShard, now, l, op)
    ensures Ends(cfg, u, now, m, s, if LeaseDisciplined(cfg, now, l, op) then b else b + [op])
  {
    u, m := Then(t, Lease(S, op)), LeaseStep(cfg, NoShard, now, l, op);
    assert Next(cfg, map[], Solo(now, l, s), Lease(S, op)) == Solo(now, m, s);
  }

  lemma Consume(cfg: Config, t: Trace, now: Time, l: LeaseState, s: StreamState, b: seq<LeaseOp>, op: StreamOp)
    returns (u: Trace, r: StreamState)
    requires Ends(cfg, t, now, l, s, b) && StreamEnabled(l.cache, NoParentShard, s, op)
    ensures r == StreamStep(l.cache, NoParentShard, s, op) && Ends(cfg, u, now, l, r, b)
  {
    u, r := Then(t, Stream(S, op)), StreamStep(l.cache, NoParentShard, s, op);
    assert Next(cfg, map[], Solo(now, l, s), Stream(S, op)) == Solo(now, l, r);
  }

  /** The worker's GetLease up to its put, as call 0. */
  lemma Prepare(cfg: Config, t: Trace, now: Time, l: LeaseState, s: StreamState, b: seq<LeaseOp>, w: WorkerId)
    returns (u: Trace, m: LeaseState)
    requires Ends(cfg, t, now, l, s, b) && 0 !in l.calls && w in l.cache
    requires MayLease(cfg, l.row, w, false, now)
    requires cfg.stealing ==> !ClaimExpired(cfg, l.cache[w].timeout, now)
    ensures var until := now + cfg.leaseDuration;
            var expired := ClaimExpired(cfg, l.cache[w].timeout, now);
            m == l.(calls := l.calls[0 := LeaseDecided(w, until, l.row, expired,
                                                       Put(LeaseCondition(cfg, l.row, w, expired),
                                                           LeaseItem(w, until, l.cache[w].checkpoint, NoShard)))])
    ensures Ends(cfg, u, now, m, s, b)
  {
    u, m := ReadRow(cfg, t, now, l, s, b, w);
    u, m := Do(cfg, u, now, m, s, b, JudgeClaim(0));
    u, m := Do(cfg, u, now, m, s, b, DecideOnLease(0));
  }

  lemma ReadRow(cfg: Config, t: Trace, now: Time, l: LeaseState, s: StreamState, b: seq<LeaseOp>, w: WorkerId)
    returns (u: Trace, m: LeaseState)
    requires Ends(cfg, t, now, l, s, b) && 0 !in l.calls && w in l.cache
    ensures m == l.(calls := l.calls[0 := LeaseRead(w, now + cfg.leaseDuration, l.row)]) && Ends(cfg, u, now, m, s, b)
  {
    u, m := Do(cfg, t, now, l, s, b, StartLease(0, w));
    u, m := Do(cfg, u, now, m, s, b, ReadLease(0));
  }

  /** The answered put of a lease call, as call 0, on a row whose lease is still the one read. */
  lemma LandPut(cfg: Config, t: Trace, now: Time, l: LeaseState, s: StreamState, b: seq<LeaseOp>,
                w: WorkerId, until: Time, read: Option<Row>, expired: bool, item: Row)
    returns (u: Trace, m: LeaseState)
    requires Ends(cfg, t, now, l, s, b) && w in l.cache && 0 in l.calls
    requires l.calls[0] == LeaseDecided(w, until, read, expired, Put(LeaseCondition(cfg, read, w, expired), item))
    requires SameLease(l.row, read) && (FullyLeased(read) || OwnerOf(read).None?) && !Claimed(read)
    requires CoveredBy(now, l, w, until)
    ensures u == Then(t, Lease(S, PutLease(0, true))) && Ends(cfg, u, now, m, s, b)
    ensures m == LeaseState(Some(item), l.cache, l.calls[0 := LeaseLanded(w, until)])
  {
    LeaseConditionMeaning(cfg, read, w, expired, l.row);
    u, m := Do(cfg, t, now, l, s, b, PutLease(0, true));
  }

  /** The put, and the cache that adopts the lease. */
  lemma Land(cfg: Config, t: Trace, now: Time, l: LeaseState, s: StreamState, b: seq<LeaseOp>,
             w: WorkerId, until: Time, read: Option<Row>, expired: bool, item: Row)
    returns (u: Trace, m: LeaseState)
    requires Ends(cfg, t, now, l, s, b) && w in l.cache && 0 in l.calls
    requires l.calls[0] == LeaseDecided(w, until, read, expired, Put(LeaseCondition(cfg, read, w, expired), item))
    requires SameLease(l.row, read) && (FullyLeased(read) || OwnerOf(read).None?) && !Claimed(read)
    requires CoveredBy(now, l, w, until)
    ensures Ends(cfg, u, now, m, s, b)
    ensures m == LeaseState(Some(item), l.cache[w := l.cache[w].(owner := w, timeout := until)], l.calls - {0})
  {
    u, m := LandPut(cfg, t, now, l, s, b, w, until, read, expired, item);
    u, m := Do(cfg, u, now, m, s, b, AdoptLease(0));
  }

  /** A whole uncontended GetLease. */
  lemma Acquire(cfg: Config, t: Trace, now: Time, l: LeaseState, s: StreamState, b: seq<LeaseOp>, w: WorkerId)
    returns (u: Trace, m: LeaseState)
    requires Ends(cfg, t, now, l, s, b) && 0 !in l.calls && w in l.cache
    requires MayLease(cfg, l.row, w, false, now) && !Claimed(l.row)
    requires cfg.stealing ==> !ClaimExpired(cfg, l.cache[w].timeout, now)
    requires CoveredBy(now, l, w, now + cfg.leaseDuration)
    ensures var until := now + cfg.leaseDuration;
            m == LeaseState(Some(LeaseItem(w, until, l.cache[w].checkpoint, NoShard)),
                            l.cache[w := Cached(w, until, l.cache[w].checkpoint)], l.calls)
    ensures Ends(cfg, u, now, m, s, b)
  {
    var until := now + cfg.leaseDuration;
    u, m := Prepare(cfg, t, now, l, s, b, w);
    assert m.calls - {0} == l.calls;
    u, m := Land(cfg, u, now, m, s, b, w, until, l.row, ClaimExpired(cfg, l.cache[w].timeout, now),
                 LeaseItem(w, until, l.cache[w].checkpoint, NoShard));
  }

  /** A whole release. */
  lemma Release(cfg: Config, t: Trace, now: Time, l: LeaseState, s: StreamState, b: seq<LeaseOp>, w: WorkerId)
    returns (u: Trace, m: LeaseState)
    requires Ends(cfg, t, now, l, s, b) && w in l.cache && w != Nobody && NothingLanded(now, l, w)
    ensures m == LeaseState(OwnerRemoved(l.row, w), l.cache[w := l.cache[w].(owner := Nobody)], l.calls)
    ensures Ends(cfg, u, now, m, s, b)
  {
    u, m := Do(cfg, t, now, l, s, b, ForgetOwner(w));
    u, m := Do(cfg, u, now, m, s, b, RemoveOwner(w));
  }

  // ----- The scenarios -----

  /** Two workers hold a live lease on S at the end of the trace, which broke the discipline
      with this one step. */
  predicate TwoHolders(cfg: Config, t: Trace, v: WorkerId, w: WorkerId, breach: LeaseOp) {
    var o := Outcome(cfg, map[], t);
    && o.Some? && S in o.value.shards && v != w
    && Holder(o.value.shards[S].lease, o.value.now, v)
    && Holder(o.value.shards[S].lease, o.value.now, w)
    && Breaches(cfg, map[], t) == [breach]
  }

  const PLAIN := Config(10, false, 5)
  const STEALING := Config(10, true, 5)

  /** The lease state after Prologue: A owns the shard until 11, B and C know of it. */
  const OWNED := LeaseState(Some(Row(Some(A), Some(11), None, None, None)),
                            map[A := Cached(A, 11, Unset), B := FRESH, C := FRESH], map[])

  lemma Introduce(cfg: Config) returns (t: Trace)
    requires cfg.leaseDuration == 10
    ensures Ends(cfg, t, 1, OWNED, NewStream(TrimHorizon), [])
  {
    var l, s := NEW_LEASE, NewStream(TrimHorizon);
    t := Start(Solo(1, l, s));
    t, l := Do(cfg, t, 1, l, s, [], Discover(A));
    t, l := Do(cfg, t, 1, l, s, [], Discover(B));
    t, l := Do(cfg, t, 1, l, s, [], Discover(C));
    t, l := Acquire(cfg, t, 1, l, s, [], A);
    assert l == OWNED;
  }

  /** A has acquired the shard and delivered its first record. */
  lemma Prologue(cfg: Config) returns (t: Trace, l: LeaseState, s: StreamState)
    requires cfg.leaseDuration == 10
    ensures l == OWNED && Ends(cfg, t, 1, l, s, [])
    ensures s.delivered == {0} && s.consumers == map[0 := Consumer(A, Running(1))] && s.length == 1 && !s.closed
    ensures s.initial == TrimHorizon
  {
    t := Introduce(cfg);
    l, s := OWNED, NewStream(TrimHorizon);
    t, s := Consume(cfg, t, 1, l, s, [], Publish);
    t, s := Consume(cfg, t, 1, l, s, [], StartConsumer(0, A));
    t, s := Consume(cfg, t, 1, l, s, [], EndWait(0));
    t, s := Consume(cfg, t, 1, l, s, [], TakePosition(0));
    t, s := Consume(cfg, t, 1, l, s, [], Deliver(0, 1));
  }

  /** Having delivered a record, A has built the item of its checkpoint, as call 1. */
  lemma Marshalled(cfg: Config) returns (t: Trace, l: LeaseState, s: StreamState)
    requires cfg.leaseDuration == 10
    ensures Ends(cfg, t, 1, l, s, []) && l == MARSHALLED
  {
    t, l, s := Prologue(cfg);
    t, l := Do(cfg, t, 1, l, s, [], SetCheckpoint(A, At(0)));
    t, l := Do(cfg, t, 1, l, s, [], MarshalCheckpoint(1, A));
    assert l.cache == MARSHALLED.cache;
  }

  const MARSHALLED := LeaseState(OWNED.row, map[A := Cached(A, 11, At(0)), B := FRESH, C := FRESH],
                                 map[1 := CheckpointMarshalled(A, Row(Some(A), Some(11), Some(At(0)), None, None))])

  /** A checkpoint saved after its lease has run out takes the row from the new owner, and a
      third worker then acquires a lease that B still holds. */
  lemma LateCheckpointBreaksExclusion() returns (t: Trace)
    ensures TwoHolders(PLAIN, t, B, C, SaveCheckpoint(1))
  {
    var l, s;
    t, l, s := Marshalled(PLAIN);
    t := Wait(PLAIN, t, 1, l, s, [], 12);
    t, l := Acquire(PLAIN, t, 12, l, s, [], B);
    t, l := Do(PLAIN, t, 12, l, s, [], SaveCheckpoint(1));
    t, l := Acquire(PLAIN, t, 12, l, s, [SaveCheckpoint(1)], C);
  }

  /** A checkpoint built before the worker's own renewal and saved after it shortens the lease
      in the table behind the worker's back. */
  lemma CheckpointAcrossRenewalBreaksExclusion() returns (t: Trace)
    ensures TwoHolders(PLAIN, t, A, B, SaveCheckpoint(1))
  {
    var l, s;
    t, l, s := Marshalled(PLAIN);
    t := Wait(PLAIN, t, 1, l, s, [], 5);
    t, l := Acquire(PLAIN, t, 5, l, s, [], A);
    t, l := Do(PLAIN, t, 5, l, s, [], SaveCheckpoint(1));
    t := Wait(PLAIN, t, 5, l, s, [SaveCheckpoint(1)], 12);
    t, l := Acquire(PLAIN, t, 12, l, s, [SaveCheckpoint(1)], B);
  }

  /** A renewal that lands between the two halves of a release leaves the worker believing in a
      lease whose owner is then removed from the row. */
  lemma RenewalAcrossReleaseBreaksExclusion() returns (t: Trace)
    ensures TwoHolders(PLAIN, t, A, B, RemoveOwner(A))
  {
    var l, s;
    t, l, s := Prologue(PLAIN);
    t, l := Prepare(PLAIN, t, 1, l, s, [], A);
    t, l := Do(PLAIN, t, 1, l, s, [], ForgetOwner(A));
    t, l := Land(PLAIN, t, 1, l, s, [], A, 11, OWNED.row, false, LeaseItem(A, 11, Unset, NoShard));
    t, l := Do(PLAIN, t, 1, l, s, [], RemoveOwner(A));
    t, l := Acquire(PLAIN, t, 1, l, s, [RemoveOwner(A)], B);
  }

  /** So does a release that falls between a renewal's put and the cache's adoption of it. */
  lemma ReleaseAcrossRenewalBreaksExclusion() returns (t: Trace)
    ensures TwoHolders(PLAIN, t, A, B, RemoveOwner(A))
  {
    var l, s;
    t, l, s := Prologue(PLAIN);
    t, l := Prepare(PLAIN, t, 1, l, s, [], A);
    t, l := LandPut(PLAIN, t, 1, l, s, [], A, 11, OWNED.row, false, LeaseItem(A, 11, Unset, NoShard));
    t, l := Do(PLAIN, t, 1, l, s, [], ForgetOwner(A));
    t, l := Do(PLAIN, t, 1, l, s, [], RemoveOwner(A));
    t, l := AdoptThenAcquire(t, l, s);
  }

  lemma AdoptThenAcquire(t: Trace, l: LeaseState, s: StreamState) returns (u: Trace, m: LeaseState)
    requires Ends(PLAIN, t, 1, l, s, [RemoveOwner(A)]) && OwnerOf(l.row).None? && !Claimed(l.row)
    requires A in l.cache && B in l.cache && l.cache[B] == FRESH && l.calls == map[0 := LeaseLanded(A, 11)]
    ensures Ends(PLAIN, u, 1, m, s, [RemoveOwner(A)]) && Holder(m, 1, A) && Holder(m, 1, B)
  {
    u, m := Do(PLAIN, t, 1, l, s, [RemoveOwner(A)], AdoptLease(0));
    u, m := Acquire(PLAIN, u, 1, m, s, [RemoveOwner(A)], B);
  }

  /** A deleted row is leased afresh while its owner's lease is live. */
  lemma DeletionBreaksExclusion() returns (t: Trace)
    ensures TwoHolders(PLAIN, t, A, B, DeleteRow)
  {
    var l, s;
    t, l, s := Prologue(PLAIN);
    t, l := Do(PLAIN, t, 1, l, s, [], DeleteRow);
    t, l := Acquire(PLAIN, t, 1, l, s, [DeleteRow], B);
  }

  /** A slow renewal, overtaken by a later one, shortens the lease in the table. */
  lemma OvertakenRenewalBreaksExclusion() returns (t: Trace)
    ensures TwoHolders(PLAIN, t, A, B, PutLease(2, false))
  {
    var l, s;
    t, l, s := Overtaken();
    t, l := Do(PLAIN, t, 5, l, s, [], ReadLease(2));
    t, l := Do(PLAIN, t, 5, l, s, [], JudgeClaim(2));
    t, l := Do(PLAIN, t, 5, l, s, [], DecideOnLease(2));
    LeaseConditionMeaning(PLAIN, l.row, A, false, l.row);
    t, l := Do(PLAIN, t, 5, l, s, [], PutLease(2, false));
    t := Wait(PLAIN, t, 5, l, s, [PutLease(2, false)], 12);
    t, l := Acquire(PLAIN, t, 12, l, s, [PutLease(2, false)], B);
  }

  /** A starts a renewal, as call 2, and completes another one meanwhile. */
  lemma Overtaken() returns (t: Trace, l: LeaseState, s: StreamState)
    ensures Ends(PLAIN, t, 5, l, s, [])
    ensures l == LeaseState(Some(Row(Some(A), Some(15), None, None, None)),
                            map[A := Cached(A, 15, Unset), B := FRESH, C := FRESH], map[2 := LeaseStarted(A, 11)])
  {
    t, l, s := Prologue(PLAIN);
    t, l := Do(PLAIN, t, 1, l, s, [], StartLease(2, A));
    t := Wait(PLAIN, t, 1, l, s, [], 5);
    t, l := Acquire(PLAIN, t, 5, l, s, [], A);
    assert l.cache == map[A := Cached(A, 15, Unset), B := FRESH, C := FRESH];
  }

  /** A refresh of the cache from a row read before the worker's release revives its old lease. */
  lemma StaleFetchBreaksExclusion() returns (t: Trace)
    ensures TwoHolders(PLAIN, t, A, B, ApplyFetch(1))
  {
    var l, s;
    t, l, s := ReleasedSinceRead(ReadForFetch(1, A));
    t, l := Do(PLAIN, t, 1, l, s, [], ApplyFetch(1));
  }

  /** So does a table scan read before the release. */
  lemma StaleSyncBreaksExclusion() returns (t: Trace)
    ensures TwoHolders(PLAIN, t, A, B, ApplySync(1))
  {
    var l, s;
    t, l, s := ReleasedSinceRead(ReadForSync(1, A));
    t, l := Do(PLAIN, t, 1, l, s, [], ApplySync(1));
  }

  const CHECKPOINTED := Some(Row(Some(A), Some(11), Some(At(0)), None, None))

  /** A reads its row, as call 1, then releases the shard, and B acquires it. */
  lemma ReleasedSinceRead(read: LeaseOp) returns (t: Trace, l: LeaseState, s: StreamState)
    requires read == ReadForFetch(1, A) || read == ReadForSync(1, A)
    ensures Ends(PLAIN, t, 1, l, s, []) && OwnerOf(l.row) == Some(B)
    ensures l.cache == map[A := Cached(Nobody, 11, At(0)), B := Cached(B, 11, Unset), C := FRESH]
    ensures l.calls == map[1 := if read.ReadForFetch? then FetchRead(A, CHECKPOINTED) else SyncRead(A, CHECKPOINTED)]
  {
    t, l, s := RowRead(read);
    t, l := Release(PLAIN, t, 1, l, s, [], A);
    t, l := Acquire(PLAIN, t, 1, l, s, [], B);
    assert l.cache == map[A := Cached(Nobody, 11, At(0)), B := Cached(B, 11, Unset), C := FRESH];
  }

  lemma RowRead(read: LeaseOp) returns (t: Trace, l: LeaseState, s: StreamState)
    requires read == ReadForFetch(1, A) || read == ReadForSync(1, A)
    ensures Ends(PLAIN, t, 1, l, s, []) && l.row == CHECKPOINTED && l.cache == MARSHALLED.cache
    ensures l.calls == map[1 := if read.ReadForFetch? then FetchRead(A, CHECKPOINTED) else SyncRead(A, CHECKPOINTED)]
  {
    t, l, s := Marshalled(PLAIN);
    t, l := Do(PLAIN, t, 1, l, s, [], SaveCheckpoint(1));
    t, l := Do(PLAIN, t, 1, l, s, [], read);
  }

  /** With stealing on, a worker whose cached timeout is old takes any live lease: FetchCheckpoint
      refreshes no timeout while the row has no checkpoint. */
  lemma StaleClaimExpiryBreaksExclusion() returns (t: Trace)
    ensures TwoHolders(STEALING, t, A, B, JudgeClaim(0))
  {
    var l, s;
    t, l, s := HandOver();
    var held := l;
    t, l := Do(STEALING, t, 20, l, s, [], ReadForFetch(1, A));
    t, l := Do(STEALING, t, 20, l, s, [], ApplyFetch(1));
    assert l == held;
    t, l := Misjudge(t, l, s);
    t, l := Do(STEALING, t, 20, l, s, [JudgeClaim(0)], DecideOnLease(0));
    t, l := Land(STEALING, t, 20, l, s, [JudgeClaim(0)], A, 30, held.row, true, LeaseItem(A, 30, Unset, NoShard));
  }

  lemma Misjudge(t: Trace, l: LeaseState, s: StreamState) returns (u: Trace, m: LeaseState)
    requires Ends(STEALING, t, 20, l, s, []) && l.calls == map[]
    requires A in l.cache && l.cache[A] == Cached(Nobody, 11, Unset)
             && TimeoutOf(l.row) == Some(30) && FullyLeased(l.row)
    ensures m == l.(calls := map[0 := LeaseJudged(A, 30, l.row, true)]) && Ends(STEALING, u, 20, m, s, [JudgeClaim(0)])
  {
    u, m := ReadRow(STEALING, t, 20, l, s, [], A);
    u, m := Do(STEALING, u, 20, m, s, [], JudgeClaim(0));
  }

  lemma Released() returns (t: Trace, l: LeaseState, s: StreamState)
    ensures Ends(STEALING, t, 1, l, s, []) && l.calls == map[]
    ensures l.row == Some(Row(None, Some(11), None, None, None))
    ensures l.cache == map[A := Cached(Nobody, 11, Unset), B := FRESH, C := FRESH]
  {
    t, l, s := Prologue(STEALING);
    t, l := Release(STEALING, t, 1, l, s, [], A);
  }

  /** A releases the shard and B acquires it much later. */
  lemma HandOver() returns (t: Trace, l: LeaseState, s: StreamState)
    ensures Ends(STEALING, t, 20, l, s, [])
    ensures l == LeaseState(Some(Row(Some(B), Some(30), None, None, None)),
                            map[A := Cached(Nobody, 11, Unset), B := Cached(B, 30, Unset), C := FRESH], map[])
  {
    t, l, s := Released();
    t := Wait(STEALING, t, 1, l, s, [], 20);
    t, l := Acquire(STEALING, t, 20, l, s, [], B);
    assert l.cache == map[A := Cached(Nobody, 11, Unset), B := Cached(B, 30, Unset), C := FRESH];
  }

  /** Even under the full discipline, a renewal decided before the application's final
      checkpoint and put after it takes SHARD_END back: the put compares owner and timeout,
      which the checkpoint left as they were, and carries the old checkpoint. */
  lemma RenewalUndoesShardEnd() returns (t: Trace)
    ensures Outcome(PLAIN, map[], t).Some? && Breaches(PLAIN, map[], t) == [] && t.Then?
    ensures CheckpointOf(RowOf(Outcome(PLAIN, map[], t.before).value, S)) == Some(ShardEnd)
    ensures CheckpointOf(RowOf(Outcome(PLAIN, map[], t).value, S)) != Some(ShardEnd)
  {
    var l, s;
    t, l, s := Prologue(PLAIN);
    t, s := Consume(PLAIN, t, 1, l, s, [], Close);
    t, s := Consume(PLAIN, t, 1, l, s, [], Terminate(0));
    t, l := Prepare(PLAIN, t, 1, l, s, [], A);
    t, l := Do(PLAIN, t, 1, l, s, [], SetCheckpoint(A, ShardEnd));
    t, l := Do(PLAIN, t, 1, l, s, [], MarshalCheckpoint(1, A));
    t, l := Do(PLAIN, t, 1, l, s, [], SaveCheckpoint(1));
    t, l := LandPut(PLAIN, t, 1, l, s, [], A, 11, OWNED.row, false, LeaseItem(A, 11, Unset, NoShard));
  }

  /** With every operation uninterrupted and the full discipline kept, a renewal by a worker whose
      lease ran out takes SHARD_END back and makes that worker the owner of the finished shard:
      meanwhile B has acquired it, finished it and released it, and A's cache knows nothing of it. */
  lemma LateRenewalReopens() returns (t: Trace)
    ensures Outcome(PLAIN, map[], t).Some? && Breaches(PLAIN, map[], t) == [] && t.Then?
    ensures Finished(RowOf(Outcome(PLAIN, map[], t.before).value, S))
    ensures var row := RowOf(Outcome(PLAIN, map[], t).value, S);
            !Finished(row) && OwnerOf(row) == Some(A)
  {
    var l, s;
    t, l, s := FinishedByB();
    var row := l.row;
    t, l := Prepare(PLAIN, t, 12, l, s, [], A);
    t, l := LandPut(PLAIN, t, 12, l, s, [], A, 22, row, false, LeaseItem(A, 22, Unset, NoShard));
  }

  /** After A's lease, B acquires the shard, delivers it to its end, checkpoints nil and releases. */
  lemma FinishedByB() returns (t: Trace, l: LeaseState, s: StreamState)
    ensures Ends(PLAIN, t, 12, l, s, []) && l.calls == map[]
    ensures l.row == Some(Row(None, Some(22), Some(ShardEnd), None, None))
    ensures l.cache == map[A := Cached(A, 11, Unset), B := Cached(Nobody, 22, ShardEnd), C := FRESH]
  {
    t, l, s := DeliveredByB();
    t, l := Do(PLAIN, t, 12, l, s, [], SetCheckpoint(B, ShardEnd));
    t, l := Do(PLAIN, t, 12, l, s, [], MarshalCheckpoint(1, B));
    t, l := Do(PLAIN, t, 12, l, s, [], SaveCheckpoint(1));
    t, l := Release(PLAIN, t, 12, l, s, [], B);
  }

  lemma DeliveredByB() returns (t: Trace, l: LeaseState, s: StreamState)
    ensures Ends(PLAIN, t, 12, l, s, []) && s.ended
    ensures l == LeaseState(Some(Row(Some(B), Some(22), None, None, None)),
                            map[A := Cached(A, 11, Unset), B := Cached(B, 22, Unset), C := FRESH], map[])
  {
    t, l, s := Prologue(PLAIN);
    t := Wait(PLAIN, t, 1, l, s, [], 12);
    t, l := Acquire(PLAIN, t, 12, l, s, [], B);
    assert l.cache == map[A := Cached(A, 11, Unset), B := Cached(B, 22, Unset), C := FRESH];
    t, s := Consume(PLAIN, t, 12, l, s, [], Close);
    t, s := Consume(PLAIN, t, 12, l, s, [], StartConsumer(1, B));
    t, s := Consume(PLAIN, t, 12, l, s, [], EndWait(1));
    t, s := Consume(PLAIN, t, 12, l, s, [], TakePosition(1));
    t, s := Consume(PLAIN, t, 12, l, s, [], Deliver(1, 1));
    t, s := Consume(PLAIN, t, 12, l, s, [], Terminate(1));
  }

  /** Under LATEST, a consumer that stops before its first checkpoint leaves a hole: its successor
      starts at the latest record again, and its checkpoint then covers a record nobody saw. */
  lemma LatestLeavesHole() returns (t: Trace)
    ensures Outcome(PLAIN, map[], t).Some? && Breaches(PLAIN, map[], t) == []
    ensures var w := Outcome(PLAIN, map[], t).value;
            && S in w.shards && A in w.shards[S].lease.cache && w.shards[S].lease.cache[A].checkpoint == At(2)
            && 0 in w.shards[S].stream.delivered && 1 !in w.shards[S].stream.delivered
  {
    var l, s;
    t, l, s := FirstConsumerStopped();
    t, s := Consume(PLAIN, t, 1, l, s, [], Publish);
    t, s := Restart(t, l, s);
    t, s := Consume(PLAIN, t, 1, l, s, [], Publish);
    t, s := Consume(PLAIN, t, 1, l, s, [], Deliver(0, 3));
    t, l := Do(PLAIN, t, 1, l, s, [], SetCheckpoint(A, At(2)));
  }

  /** A consumer of A's waits and takes its position, at the end of the shard. */
  lemma Restart(t: Trace, l: LeaseState, s: StreamState) returns (u: Trace, r: StreamState)
    requires Ends(PLAIN, t, 1, l, s, []) && s.initial == Latest
    requires A in l.cache && l.cache[A].checkpoint == Unset && 0 !in s.consumers
    ensures r == s.(consumers := s.consumers[0 := Consumer(A, Running(s.length))], origin := s.length, started := true)
    ensures Ends(PLAIN, u, 1, l, r, [])
  {
    u, r := Consume(PLAIN, t, 1, l, s, [], StartConsumer(0, A));
    u, r := Consume(PLAIN, u, 1, l, r, [], EndWait(0));
    u, r := Consume(PLAIN, u, 1, l, r, [], TakePosition(0));
    assert r.consumers == s.consumers[0 := Consumer(A, Running(s.length))];
  }

  /** The first consumer delivers record 0 and stops without a checkpoint. */
  lemma FirstConsumerStopped() returns (t: Trace, l: LeaseState, s: StreamState)
    ensures Ends(PLAIN, t, 1, l, s, [])
    ensures A in l.cache && l.cache[A].checkpoint == Unset
    ensures s == NewStream(Latest).(length := 1, delivered := {0}, started := true)
  {
    l, s := NEW_LEASE, NewStream(Latest);
    t := Start(Solo(1, l, s));
    t, l := Do(PLAIN, t, 1, l, s, [], Discover(A));
    t, s := Restart(t, l, s);
    t, s := Consume(PLAIN, t, 1, l, s, [], Publish);
    t, s := Consume(PLAIN, t, 1, l, s, [], Deliver(0, 1));
    t, s := Consume(PLAIN, t, 1, l, s, [], StopConsumer(0));
    assert s.delivered == {0};
    assert s.consumers == map[];
  }

  /** A child shard is delivered while its parent is not, when the child's wait polls the parent
      before anybody has checkpointed it. */
  lemma UnrecordedParentLetsChildPass() returns (parents: Parents, t: Trace)
    ensures Outcome(PLAIN, parents, t).Some?
    ensures var w := Outcome(PLAIN, parents, t).value;
            && ParentOf(parents, Shard(2)) == S && S in w.shards && Shard(2) in w.shards
            && w.shards[Shard(2)].stream.delivered != {}
            && w.shards[S].stream.length > 0 && w.shards[S].stream.delivered == {}
  {
    parents := map[Shard(2) := S];
    var l, p, l2, s;
    t, l, p, l2, s := ChildDiscovered(parents);
    t, s := ChildStep(parents, t, l, p, l2, s, Publish);
    t, s := ChildStep(parents, t, l, p, l2, s, StartConsumer(0, A));
    t, s := ChildStep(parents, t, l, p, l2, s, EndWait(0));
    t, s := ChildStep(parents, t, l, p, l2, s, TakePosition(0));
    t, s := ChildStep(parents, t, l, p, l2, s, Deliver(0, 1));
    assert 0 in s.delivered;
  }

  /** The parent has one record, and A has discovered the child. */
  lemma ChildDiscovered(parents: Parents)
    returns (t: Trace, l: LeaseState, p: StreamState, l2: LeaseState, s: StreamState)
    requires parents == map[Shard(2) := S]
    ensures Outcome(PLAIN, parents, t) == Some(Pair(l, p, l2, s))
    ensures l.row.None? && p.length == 1 && p.delivered == {}
    ensures s == NewStream(TrimHorizon) && l2.cache == map[A := FRESH]
  {
    l, s := NEW_LEASE, NewStream(TrimHorizon);
    t := Start(Pair(l, s, l, s));
    assert Outcome(PLAIN, parents, t) == Some(Pair(l, s, l, s));
    p, l2 := StreamStep(l.cache, NoParentShard, s, Publish), LeaseStep(PLAIN, S, 1, l, Discover(A));
    assert Next(PLAIN, parents, Pair(l, s, l, s), Stream(S, Publish)) == Pair(l, p, l, s);
    assert Next(PLAIN, parents, Pair(l, p, l, s), Lease(Shard(2), Discover(A))) == Pair(l, p, l2, s);
    t := Then(t, Stream(S, Publish));
    t := Then(t, Lease(Shard(2), Discover(A)));
  }

  function Pair(l: LeaseState, p: StreamState, l2: LeaseState, s: StreamState): World {
    World(1, map[S := ShardState(l, p), Shard(2) := ShardState(l2, s)])
  }

  lemma ChildStep(parents: Parents, t: Trace, l: LeaseState, p: StreamState, l2: LeaseState, s: StreamState,
                  op: StreamOp)
    returns (u: Trace, r: StreamState)
    requires parents == map[Shard(2) := S] && l.row.None?
    requires Outcome(PLAIN, parents, t) == Some(Pair(l, p, l2, s)) && StreamEnabled(l2.cache, ParentUnrecorded, s, op)
    ensures r == StreamStep(l2.cache, ParentUnrecorded, s, op) && Outcome(PLAIN, parents, u) == Some(Pair(l, p, l2, r))
  {
    u, r := Then(t, Stream(Shard(2), op)), StreamStep(l2.cache, ParentUnrecorded, s, op);
    assert Next(PLAIN, parents, Pair(l, p, l2, s), Stream(Shard(2), op)) == Pair(l, p, l2, r);
  }
}
