/** When a shard that reached SHARD_END stays finished.  Here each operation on a shard is one
    step: the acquire step of the event loop (fetch, SHARD_END test, GetLease), a renewal,
    ClaimShard, an application checkpoint, a release. */
module FinishedShards {
  import opened LeaseTypes
  import opened LeaseRules
  import opened MutualExclusion

  datatype Snapshot = Snapshot(now: Time, row: Option<Row>, cache: map<WorkerId, Cached>)

  datatype Action =
    | Pass(now: Time)
    | Meet(worker: WorkerId)
    | Acquire(worker: WorkerId)
    | Renew(worker: WorkerId)
    | Checkpoint(worker: WorkerId, position: Position)
    | Claim(worker: WorkerId)
    | Fetch(worker: WorkerId)
    | Sync(worker: WorkerId)
    | Release(worker: WorkerId)

  /** What GetLease leaves behind when nothing intervenes. */
  function Leased(cfg: Config, parent: ShardId, s: Snapshot, me: WorkerId): Snapshot
    requires me in s.cache
  {
    var e := LeaseCall(cfg, s.row, s.cache[me], parent, me, LeaseClock(s.now, s.now, s.now), Answered, Answered);
    if e.result.Ok? then Snapshot(s.now, e.row, s.cache[me := e.cached]) else s
  }

  /** The claim is judged on the timeout of the row, or not at all. */
  predicate ClaimFresh(cfg: Config, s: Snapshot, me: WorkerId)
    requires me in s.cache
  {
    cfg.stealing && ClaimExpired(cfg, s.cache[me].timeout, s.now) && FullyLeased(s.row) ==>
      TimeoutOf(s.row).value == s.cache[me].timeout
  }

  function Fetched(s: Snapshot, me: WorkerId): Snapshot
    requires me in s.cache
  {
    s.(cache := s.cache[me := Refreshed(s.cache[me], s.row)])
  }

  /** Workers checkpoint and reposition only while their lease is live, never checkpoint after
      nil, judge a claim's expiry on a fresh timeout, and claim shards they do not own.  They
      renew whenever their timer fires, live or not. */
  predicate Possible(cfg: Config, s: Snapshot, a: Action) {
    match a
    case Pass(t) => s.now <= t
    case Meet(w) => w != Nobody && w !in s.cache
    case Acquire(w) => w in s.cache && (s.cache[w].owner == w || ClaimFresh(cfg, Fetched(s, w), w))
    case Renew(w) => w in s.cache && ClaimFresh(cfg, s, w)
    case Checkpoint(w, p) => w in s.cache && Live(s.now, w, s.cache[w])
      && s.cache[w].checkpoint != ShardEnd && p != Unset
    case Claim(w) => w in s.cache && s.cache[w].owner != w
    case Fetch(w) => w in s.cache && (s.cache[w].owner == w ==> Live(s.now, w, s.cache[w]))
    case Sync(w) => w in s.cache
    case Release(w) => w in s.cache
  }

  function Act(cfg: Config, parent: ShardId, s: Snapshot, a: Action): Snapshot
    requires Possible(cfg, s, a)
  {
    match a
    case Pass(t) => s.(now := t)
    case Meet(w) => s.(cache := s.cache[w := FRESH])
    case Acquire(w) =>
      if s.cache[w].owner == w then s
      else if Fetched(s, w).cache[w].checkpoint == ShardEnd then Fetched(s, w)
      else Leased(cfg, parent, Fetched(s, w), w)
    case Renew(w) => Leased(cfg, parent, s, w)
    case Checkpoint(w, p) =>
      var cached := s.cache[w].(checkpoint := p);
      Snapshot(s.now, Some(CheckpointItem(cached, parent)), s.cache[w := cached])
    case Claim(w) =>
      var f := Fetched(s, w);
      var put := ClaimPut(f.cache[w], parent, w);
      if Holds(s.row, put.condition) then f.(row := Some(put.item)) else f
    case Fetch(w) => Fetched(s, w)
    case Sync(w) => s.(cache := s.cache[w := Synced(s.cache[w], s.row)])
    case Release(w) => Snapshot(s.now, OwnerRemoved(s.row, w), s.cache[w := s.cache[w].(owner := Nobody)])
  }

  /** Exclusion; a finished row is unclaimed; the live holder of a finished shard knows it; and
      nobody believes a shard finished that is not. */
  predicate Consistent(s: Snapshot) {
    && Exclusive(s.now, s.row, s.cache)
    && (Finished(s.row) ==> ClaimOf(s.row).None?)
    && forall w :: w in s.cache ==>
         && (Finished(s.row) && Live(s.now, w, s.cache[w]) ==> s.cache[w].checkpoint == ShardEnd)
         && (s.cache[w].checkpoint == ShardEnd ==> Finished(s.row))
  }

  lemma FetchedKeepsConsistent(s: Snapshot, me: WorkerId)
    requires Consistent(s) && me in s.cache && (s.cache[me].owner == me ==> Live(s.now, me, s.cache[me]))
    ensures Consistent(Fetched(s, me))
    ensures Finished(s.row) ==> Fetched(s, me).cache[me].checkpoint == ShardEnd
  {
  }

  lemma LeasedKeepsExclusive(cfg: Config, parent: ShardId, s: Snapshot, me: WorkerId)
    requires me in s.cache && Exclusive(s.now, s.row, s.cache) && ClaimFresh(cfg, s, me)
    ensures var t := Leased(cfg, parent, s, me);
            Exclusive(t.now, t.row, t.cache)
  {
    var cached, until := s.cache[me], s.now + cfg.leaseDuration;
    var expired := ClaimExpired(cfg, cached.timeout, s.now);
    var d := DecideLease(cfg, s.row, me, cached.checkpoint, parent, until, expired, s.now);
    DecisionIsSound(cfg, s.now, s.row, me, cached.checkpoint, parent, until, expired);
    if d.Ok? && Holds(s.row, d.value.condition) {
      assert if FullyLeased(s.row) then OwnerOf(s.row) == Some(me) || TimeoutOf(s.row).value <= s.now
             else OwnerOf(s.row).None?;
    }
  }

  /** What the worker can tell from the row and its cache before it puts: a renewal of a finished
      shard does no harm if it is refused, or if the row names the worker as owner and the cache
      says SHARD_END. */
  predicate Harmless(cfg: Config, s: Snapshot, me: WorkerId)
    requires me in s.cache
  {
    || !MayLease(cfg, s.row, me, ClaimExpired(cfg, s.cache[me].timeout, s.now), s.now)
    || (OwnerOf(s.row) == Some(me) && s.cache[me].checkpoint == ShardEnd)
  }

  /** While a lease is live, its renewal does no harm. */
  lemma LiveRenewalIsHarmless(cfg: Config, s: Snapshot, me: WorkerId)
    requires Consistent(s) && me in s.cache && Live(s.now, me, s.cache[me]) && Finished(s.row)
    ensures Harmless(cfg, s, me)
  {
  }

  /** GetLease keeps everyone's knowledge of the end, on an unfinished shard or when harmless. */
  lemma LeasedKeepsConsistent(cfg: Config, parent: ShardId, s: Snapshot, me: WorkerId)
    requires Consistent(s) && me in s.cache && ClaimFresh(cfg, s, me)
    requires Finished(s.row) ==> Harmless(cfg, s, me)
    ensures Consistent(Leased(cfg, parent, s, me))
  {
    var t := Leased(cfg, parent, s, me);
    var clock := LeaseClock(s.now, s.now, s.now);
    LeasedKeepsExclusive(cfg, parent, s, me);
    LeaseCallExact(cfg, s.row, s.cache[me], parent, me, clock, Answered, Answered);
    if t != s {
      assert Finished(t.row) <==> s.cache[me].checkpoint == ShardEnd;
      assert Finished(t.row) <==> Finished(s.row);
      forall w | w in t.cache
        ensures Live(t.now, w, t.cache[w]) ==> w == me
        ensures t.cache[w].checkpoint == s.cache[w].checkpoint
      {
      }
    }
  }

  lemma ClaimKeepsConsistent(cfg: Config, parent: ShardId, s: Snapshot, me: WorkerId)
    requires Consistent(s) && Possible(cfg, s, Claim(me))
    ensures Consistent(Act(cfg, parent, s, Claim(me)))
  {
    FetchedKeepsConsistent(s, me);
    ClaimConditionMeaning(Fetched(s, me).cache[me], parent, s.row);
  }

  lemma CheckpointKeepsConsistent(cfg: Config, parent: ShardId, s: Snapshot, me: WorkerId, p: Position)
    requires Consistent(s) && Possible(cfg, s, Checkpoint(me, p))
    ensures Consistent(Act(cfg, parent, s, Checkpoint(me, p)))
  {
    assert forall w :: w in s.cache && Live(s.now, w, s.cache[w]) ==> w == me;
  }

  lemma ReleaseKeepsConsistent(cfg: Config, parent: ShardId, s: Snapshot, me: WorkerId)
    requires Consistent(s) && Possible(cfg, s, Release(me))
    ensures Consistent(Act(cfg, parent, s, Release(me)))
  {
    assert forall w :: w in s.cache && Live(s.now, w, s.cache[w]) ==> OwnerOf(s.row) == Some(w);
  }

  /** The action is not a renewal of a finished shard, or a harmless one. */
  predicate DoesNoHarm(cfg: Config, s: Snapshot, a: Action) {
    a.Renew? && Finished(s.row) ==> a.worker in s.cache && Harmless(cfg, s, a.worker)
  }

  lemma ActKeepsConsistent(cfg: Config, parent: ShardId, s: Snapshot, a: Action)
    requires Consistent(s) && Possible(cfg, s, a)
    requires DoesNoHarm(cfg, s, a)
    ensures Consistent(Act(cfg, parent, s, a))
  {
    match a
    case Acquire(w) =>
      if s.cache[w].owner != w {
        FetchedKeepsConsistent(s, w);
        if Fetched(s, w).cache[w].checkpoint != ShardEnd {
          LeasedKeepsConsistent(cfg, parent, Fetched(s, w), w);
        }
      }
    case Renew(w) => LeasedKeepsConsistent(cfg, parent, s, w);
    case Checkpoint(w, p) => CheckpointKeepsConsistent(cfg, parent, s, w, p);
    case Claim(w) => ClaimKeepsConsistent(cfg, parent, s, w);
    case Fetch(w) => FetchedKeepsConsistent(s, w);
    case Release(w) => ReleaseKeepsConsistent(cfg, parent, s, w);
    case _ =>
  }

  /** The row is still finished, nobody claims it, and nobody has gained it. */
  predicate Untouched(before: Option<Row>, after: Option<Row>) {
    Finished(after) && ClaimOf(after).None? && (OwnerOf(after) == OwnerOf(before) || OwnerOf(after).None?)
  }

  /** Of all operations only a renewal can touch a finished shard, and it does exactly when it is
      not harmless. */
  lemma ActOnFinished(cfg: Config, parent: ShardId, s: Snapshot, a: Action)
    requires Consistent(s) && Possible(cfg, s, a) && Finished(s.row)
    ensures Untouched(s.row, Act(cfg, parent, s, a).row) <==> DoesNoHarm(cfg, s, a)
  {
    if a.Claim? {
      ClaimConditionMeaning(Fetched(s, a.worker).cache[a.worker], parent, s.row);
    } else if a.Renew? {
      LeaseCallExact(cfg, s.row, s.cache[a.worker], parent, a.worker,
                     LeaseClock(s.now, s.now, s.now), Answered, Answered);
    }
  }

  predicate IsHistory(cfg: Config, parent: ShardId, states: seq<Snapshot>, actions: seq<Action>) {
    && |states| == |actions| + 1
    && ZERO_TIME < states[0].now && states[0].row.None? && states[0].cache == map[]
    && forall i :: 0 <= i < |actions| ==>
         Possible(cfg, states[i], actions[i]) && states[i + 1] == Act(cfg, parent, states[i], actions[i])
  }

  predicate RenewalsHarmless(cfg: Config, states: seq<Snapshot>, actions: seq<Action>, i: nat, j: nat)
    requires i <= j < |states| == |actions| + 1
  {
    forall k :: i <= k < j ==> DoesNoHarm(cfg, states[k], actions[k])
  }

  lemma {:induction false} HistoriesAreConsistent(cfg: Config, parent: ShardId, states: seq<Snapshot>,
                                                  actions: seq<Action>, i: nat)
    requires IsHistory(cfg, parent, states, actions) && i < |states|
    requires RenewalsHarmless(cfg, states, actions, 0, i)
    ensures Consistent(states[i])
  {
    if i > 0 {
      HistoriesAreConsistent(cfg, parent, states, actions, i - 1);
      ActKeepsConsistent(cfg, parent, states[i - 1], actions[i - 1]);
    }
  }

  lemma StepOnFinished(cfg: Config, parent: ShardId, states: seq<Snapshot>, actions: seq<Action>, k: nat)
    requires IsHistory(cfg, parent, states, actions) && k < |actions| && Finished(states[k].row)
    requires RenewalsHarmless(cfg, states, actions, 0, k)
    ensures Untouched(states[k].row, states[k + 1].row) <==> DoesNoHarm(cfg, states[k], actions[k])
  {
    HistoriesAreConsistent(cfg, parent, states, actions, k);
    ActOnFinished(cfg, parent, states[k], actions[k]);
  }

  predicate StaysUntouched(states: seq<Snapshot>, i: nat, j: nat)
    requires i <= j < |states|
  {
    forall k :: i <= k < j ==> Untouched(states[k].row, states[k + 1].row)
  }

  lemma {:induction false} UntouchedStays(states: seq<Snapshot>, i: nat, j: nat)
    requires i <= j < |states| && Finished(states[i].row) && StaysUntouched(states, i, j)
    ensures Finished(states[j].row)
    ensures OwnerOf(states[j].row).Some? ==> OwnerOf(states[j].row) == OwnerOf(states[i].row)
    decreases j
  {
    if i < j {
      UntouchedStays(states, i, j - 1);
      assert Untouched(states[j - 1].row, states[j].row);
    }
  }

  /** Finished is final exactly when late renewals are harmless: from a finished row on, every
      step leaves it finished, unclaimed and owned by nobody new if and only if every renewal in
      between is harmless; and then nobody but the owner it had at the start is ever its owner. */
  lemma {:induction false} FinishedIsFinal(cfg: Config, parent: ShardId, states: seq<Snapshot>, actions: seq<Action>,
                                           i: nat, j: nat)
    requires IsHistory(cfg, parent, states, actions) && i <= j < |states| && Finished(states[i].row)
    requires RenewalsHarmless(cfg, states, actions, 0, i)
    ensures RenewalsHarmless(cfg, states, actions, i, j) <==> StaysUntouched(states, i, j)
    ensures RenewalsHarmless(cfg, states, actions, i, j) ==>
              && Finished(states[j].row)
              && (OwnerOf(states[j].row).Some? ==> OwnerOf(states[j].row) == OwnerOf(states[i].row))
    decreases j
  {
    if i < j {
      FinishedIsFinal(cfg, parent, states, actions, i, j - 1);
      if StaysUntouched(states, i, j - 1) {
        UntouchedStays(states, i, j - 1);
        StepOnFinished(cfg, parent, states, actions, j - 1);
      }
    }
    if StaysUntouched(states, i, j) {
      UntouchedStays(states, i, j);
    }
  }
}
