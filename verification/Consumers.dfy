/** The shard consumers, polling and enhanced fan-out: the wait on the parent shard, the starting
    position, the callbacks made to the record processor, and the release of the lease. */
module Consumers {
  import opened LeaseTypes
  import opened LeaseRules
  import opened Partition
  import opened Checkpointer
  import opened Protocol
  import RateLimit

  datatype Reason = REQUESTED | TERMINATE

  /** Calls to the record processor; ProcessRecords carries the records from up to, not
      including, to. */
  datatype Callback = Initialize(at: Position) | ProcessRecords(from: nat, to: nat) | Shutdown(reason: Reason)

  /** How far a record processor has got, judging by the callbacks it has seen. */
  datatype Stage = Idle | Active | Over | Disordered

  function StageAfter(stage: Stage, c: Callback): Stage {
    match c
    case Initialize(_) => if stage == Idle then Active else Disordered
    case ProcessRecords(_, _) => if stage == Active then Active else Disordered
    case Shutdown(_) => if stage == Active then Over else Disordered
  }

  function StageOf(trace: seq<Callback>): Stage {
    if trace == [] then Idle else StageAfter(StageOf(trace[..|trace| - 1]), trace[|trace| - 1])
  }

  predicate LifeCycle(trace: seq<Callback>) {
    StageOf(trace) != Disordered
  }

  predicate InSession(trace: seq<Callback>) {
    StageOf(trace) == Active
  }

  /** Nothing, or Initialize, then ProcessRecords any number of times, then at most one Shutdown. */
  lemma {:induction false} LifeCycleMeaning(trace: seq<Callback>)
    ensures LifeCycle(trace) <==>
              && (trace != [] ==> trace[0].Initialize?)
              && (forall i :: 0 < i < |trace| ==> !trace[i].Initialize?)
              && (forall i :: 0 <= i < |trace| - 1 ==> !trace[i].Shutdown?)
    ensures InSession(trace) <==> trace != [] && LifeCycle(trace) && !trace[|trace| - 1].Shutdown?
  {
    if trace != [] {
      var before := trace[..|trace| - 1];
      LifeCycleMeaning(before);
      assert forall i :: 0 <= i < |before| ==> trace[i] == before[i];
    }
  }

  /** The record numbers from lo up to, not including, hi. */
  function Range(lo: nat, hi: nat): seq<nat> {
    if lo < hi then Range(lo, hi - 1) + [hi - 1] else []
  }

  lemma {:induction false} RangeAppend(lo: nat, mid: nat, count: nat)
    requires lo <= mid
    ensures Range(lo, mid) + Range(mid, mid + count) == Range(lo, mid + count)
  {
    if count == 0 {
      assert Range(lo, mid) + [] == Range(lo, mid);
    } else {
      var last := mid + count - 1;
      RangeAppend(lo, mid, count - 1);
      assert Range(lo, mid) + (Range(mid, last) + [last]) == Range(lo, mid) + Range(mid, last) + [last];
    }
  }

  /** The records handed to the processor, in order. */
  function Delivered(trace: seq<Callback>): seq<nat> {
    if trace == [] then [] else
    var c := trace[|trace| - 1];
    Delivered(trace[..|trace| - 1]) + if c.ProcessRecords? then Range(c.from, c.to) else []
  }

  /** Delivered puts together what the parts of a trace deliver: nothing but the records of each
      ProcessRecords, from the first up to, not including, the second number. */
  lemma {:induction false} DeliveredAdd(a: seq<Callback>, b: seq<Callback>)
    ensures Delivered(a + b) == Delivered(a) + Delivered(b)
    ensures |b| == 1 && b[0].ProcessRecords? && b[0].from <= b[0].to ==>
              && |Delivered(b)| == b[0].to - b[0].from
              && forall i :: 0 <= i < |Delivered(b)| ==> Delivered(b)[i] == b[0].from + i
    ensures |b| == 1 && !b[0].ProcessRecords? ==> Delivered(b) == []
  {
    if b == [] {
      assert a + b == a && Delivered(a) + [] == Delivered(a);
    } else {
      var c, last := b[..|b| - 1], b[|b| - 1];
      var d := if last.ProcessRecords? then Range(last.from, last.to) else [];
      DeliveredAdd(a, c);
      assert (a + b)[..|a + b| - 1] == a + c;
      assert Delivered(a) + (Delivered(c) + d) == Delivered(a) + Delivered(c) + d;
      if last.ProcessRecords? && last.from <= last.to {
        RangeMeaning(last.from, last.to);
      }
      if |b| == 1 {
        assert c == [] && Delivered(b) == [] + d;
      }
    }
  }

  lemma {:induction false} RangeMeaning(lo: nat, hi: nat)
    requires lo <= hi
    ensures |Range(lo, hi)| == hi - lo && forall i :: 0 <= i < hi - lo ==> Range(lo, hi)[i] == lo + i
  {
    if lo < hi {
      RangeMeaning(lo, hi - 1);
    }
  }

  /** Where a consumer that started at first is after these callbacks, if each ProcessRecords
      continued where the one before it had stopped. */
  function Reached(trace: seq<Callback>, first: nat): Option<nat> {
    if trace == [] then Some(first)
    else
      var before, c := Reached(trace[..|trace| - 1], first), trace[|trace| - 1];
      if !c.ProcessRecords? then before
      else if before == Some(c.from) && c.from <= c.to then Some(c.to) else None
  }

  /** Without a hole or a repeat: the records delivered are first, first + 1, and so on. */
  lemma {:induction false} ReachedDelivers(trace: seq<Callback>, first: nat)
    requires Reached(trace, first).Some?
    ensures first <= Reached(trace, first).value
    ensures Delivered(trace) == Range(first, Reached(trace, first).value)
  {
    if trace != [] {
      var before, c := trace[..|trace| - 1], trace[|trace| - 1];
      ReachedDelivers(before, first);
      if c.ProcessRecords? {
        RangeAppend(first, c.from, c.to - c.from);
      } else {
        assert Delivered(before) + [] == Delivered(before);
      }
    }
  }

  lemma TraceStep(trace: seq<Callback>, c: Callback, first: nat)
    ensures StageOf(trace + [c]) == StageAfter(StageOf(trace), c)
    ensures Reached(trace + [c], first) ==
            if !c.ProcessRecords? then Reached(trace, first)
            else if Reached(trace, first) == Some(c.from) && c.from <= c.to then Some(c.to) else None
  {
    assert (trace + [c])[..|trace|] == trace;
  }

  datatype Run =
    | Exited(error: bool)   // getRecords returned
    | Ongoing               // what has happened so far leaves it running

  /** One poll of the parent's row, or a failure to read it. */
  datatype ParentPoll = Seen(row: Option<Row>) | Unread

  /** What a single poll amounts to. */
  function Verdict(p: ParentPoll): Option<Wait> {
    if p.Unread? then None else Some(PollParent(true, p.row))
  }

  datatype StartingPosition = After(checkpoint: Position) | AtInitial(initial: InitialPosition) | NoPosition

  /** What happens after one turn of the polling loop. */
  datatype Signal = Quiet | StopSignal | RenewalFailed

  datatype Answer = Batch(sizes: seq<nat>, closed: bool) | ThroughputExceeded | KmsThrottled | OtherError

  datatype PollTurn = PollTurn(clock: RateLimit.Clock, answer: Answer, signal: Signal)

  /** One event of the fan-out select loop. */
  datatype FanOutTurn =
    | Stop
    | Refresh(clock: LeaseClock, read: Reply, write: Reply)
    | StreamEnded(resubscribed: bool)
    | Unexpected
    | Subscribed(count: nat, closed: bool)

  function Response(a: Answer): RateLimit.Response {
    if a.Batch? then RateLimit.Records(a.sizes) else RateLimit.ServiceError
  }

  predicate Throttle(a: Answer) {
    a.ThroughputExceeded? || a.KmsThrottled?
  }

  /** How far the polling loop has got: the records answered so far, and the number of throttled
      calls in a row at the end. */
  datatype Progress = Progress(records: nat, throttles: nat)

  /** One turn, whose call the limiter let through to Kinesis or not. */
  function AfterTurn(p: Progress, turn: PollTurn, asked: bool): Progress {
    if !asked then p
    else Progress(p.records + if turn.answer.Batch? then |turn.answer.sizes| else 0,
                  if Throttle(turn.answer) then p.throttles + 1 else 0)
  }

  /** The progress made in as many turns as there are verdicts of the limiter. */
  function ProgressIn(turns: seq<PollTurn>, asked: seq<bool>): Progress
    requires |asked| <= |turns|
  {
    if asked == [] then Progress(0, 0)
    else
      var n := |asked| - 1;
      AfterTurn(ProgressIn(turns, asked[..n]), turns[n], asked[n])
  }

  /** No turn so far gives cause to leave the loop. */
  predicate GoesOn(turns: seq<PollTurn>, asked: seq<bool>, maxRetryCount: nat)
    requires |asked| <= |turns|
  {
    asked == [] ||
    var n := |asked| - 1;
    && GoesOn(turns, asked[..n], maxRetryCount)
    && (asked[n] ==>
          && !turns[n].answer.OtherError? && ProgressIn(turns, asked).throttles <= maxRetryCount
          && (turns[n].answer.Batch? ==> !turns[n].answer.closed && turns[n].signal == Quiet))
  }

  lemma {:induction false} GoesOnMeaning(turns: seq<PollTurn>, asked: seq<bool>, maxRetryCount: nat)
    requires |asked| <= |turns|
    ensures GoesOn(turns, asked, maxRetryCount) <==>
              forall k :: 0 <= k < |asked| && asked[k] ==>
                && !turns[k].answer.OtherError? && ProgressIn(turns, asked[..k + 1]).throttles <= maxRetryCount
                && (turns[k].answer.Batch? ==> !turns[k].answer.closed && turns[k].signal == Quiet)
  {
    if asked != [] {
      var n := |asked| - 1;
      GoesOnMeaning(turns, asked[..n], maxRetryCount);
      Prefixes(asked, n);
    }
  }

  lemma Prefixes(asked: seq<bool>, n: nat)
    requires n <= |asked|
    ensures asked[..|asked|] == asked
    ensures forall k :: 0 <= k < n ==> asked[..n][k] == asked[k] && asked[..n][..k + 1] == asked[..k + 1]
  {
  }

  /** What the turns before the last one were like, if the loop went on after them. */
  lemma EarlierTurns(turns: seq<PollTurn>, asked: seq<bool>, maxRetryCount: nat)
    requires 0 < |asked| <= |turns| && GoesOn(turns, asked[..|asked| - 1], maxRetryCount)
    ensures forall k :: 0 <= k < |asked| - 1 && asked[k] ==>
              && !turns[k].answer.OtherError? && ProgressIn(turns, asked[..k + 1]).throttles <= maxRetryCount
              && (turns[k].answer.Batch? ==> !turns[k].answer.closed && turns[k].signal == Quiet)
  {
    var before := asked[..|asked| - 1];
    GoesOnMeaning(turns, before, maxRetryCount);
    Prefixes(asked, |asked| - 1);
  }

  lemma ProgressStep(turns: seq<PollTurn>, before: seq<bool>, asked: seq<bool>, a: bool, maxRetryCount: nat)
    requires |asked| < |turns|
    ensures (asked + [a])[..|asked|] == asked && before + (asked + [a]) == before + asked + [a]
    ensures ProgressIn(turns, asked + [a]) == AfterTurn(ProgressIn(turns, asked), turns[|asked|], a)
    ensures GoesOn(turns, asked, maxRetryCount) ==>
              (GoesOn(turns, asked + [a], maxRetryCount) <==>
               (a ==> && !turns[|asked|].answer.OtherError?
                      && ProgressIn(turns, asked + [a]).throttles <= maxRetryCount
                      && (turns[|asked|].answer.Batch? ==>
                            !turns[|asked|].answer.closed && turns[|asked|].signal == Quiet)))
  {
    assert (asked + [a])[..|asked|] == asked;
  }

  /** The records in the first n events. */
  function CountIn(turns: seq<FanOutTurn>, n: nat): nat
    requires n <= |turns|
  {
    if n == 0 then 0 else CountIn(turns, n - 1) + if turns[n - 1].Subscribed? then turns[n - 1].count else 0
  }

  /** The Shutdown a fan-out event calls for. */
  function FanOutEnding(t: FanOutTurn): Option<Reason> {
    match t
    case Stop => Some(REQUESTED)
    case Subscribed(_, closed) => if closed then Some(TERMINATE) else None
    case _ => None
  }

  /** The Shutdown the first n events call for first. */
  function FirstEnding(turns: seq<FanOutTurn>, n: nat): Option<Reason>
    requires n <= |turns|
  {
    if n == 0 then None
    else if FirstEnding(turns, n - 1).Some? then FirstEnding(turns, n - 1)
    else FanOutEnding(turns[n - 1])
  }

  lemma {:induction false} FirstEndingMeaning(turns: seq<FanOutTurn>, n: nat)
    requires n <= |turns|
    ensures FirstEnding(turns, n).None? <==>
              forall k :: 0 <= k < n ==> !turns[k].Stop? && !(turns[k].Subscribed? && turns[k].closed)
  {
    if n > 0 {
      FirstEndingMeaning(turns, n - 1);
    }
  }

  /** The shard's row and cached lease after the renewals in the first n events, and the result of
      the last of them. */
  function Renewed(cfg: Config, parent: ShardId, me: WorkerId, row: Option<Row>, cached: Cached, turns: seq<FanOutTurn>,
                   n: nat): LeaseEffect
    requires n <= |turns|
  {
    if n == 0 then LeaseEffect(row, cached, Ok(()))
    else
      var e := Renewed(cfg, parent, me, row, cached, turns, n - 1);
      match turns[n - 1]
      case Refresh(clock, read, write) => LeaseCall(cfg, e.row, e.cached, parent, me, clock, read, write)
      case _ => e
  }

  /** A renewal succeeds exactly when its requests are answered and the worker may still have the
      lease; then row and cache name it.  Any other event leaves both alone. */
  lemma RenewedMeaning(cfg: Config, parent: ShardId, me: WorkerId, row: Option<Row>, cached: Cached,
                       turns: seq<FanOutTurn>, n: nat)
    requires 0 < n <= |turns|
    ensures var before := Renewed(cfg, parent, me, row, cached, turns, n - 1);
            var after := Renewed(cfg, parent, me, row, cached, turns, n);
            match turns[n - 1]
            case Refresh(clock, read, write) =>
              && (after.result.Ok? <==>
                    && read == Answered && write == Answered
                    && MayLease(cfg, before.row, me, ClaimExpired(cfg, before.cached.timeout, clock.judged),
                                clock.decided))
              && (after.result.Ok? ==>
                    && after.cached == Cached(me, clock.start + cfg.leaseDuration, before.cached.checkpoint)
                    && after.row.Some? && after.row.value.owner == Some(me)
                    && after.row.value.timeout == Some(clock.start + cfg.leaseDuration))
              && (after.result.Err? ==>
                    after.cached == before.cached && (write != AnswerLost ==> after.row == before.row))
            case _ => after.row == before.row && after.cached == before.cached
    ensures Renewed(cfg, parent, me, row, cached, turns, 0).row == row
    ensures Renewed(cfg, parent, me, row, cached, turns, 0).cached == cached
  {
    var before, turn := Renewed(cfg, parent, me, row, cached, turns, n - 1), turns[n - 1];
    if turn.Refresh? {
      LeaseCallExact(cfg, before.row, before.cached, parent, me, turn.clock, turn.read, turn.write);
    }
  }

  lemma RowReplaced(rows: Rows, id: ShardId)
    ensures WithRow(rows, id, RowIn(rows, id)) == rows
    ensures forall row: Option<Row> :: RowIn(WithRow(rows, id, row), id) == row
    ensures forall row: Option<Row>, later: Option<Row> ::
              WithRow(WithRow(rows, id, row), id, later) == WithRow(rows, id, later)
  {
  }

  /** The throttled calls in a row at the end: all calls let through since some turn were throttled,
      the last one before it was not, and there are that many of them. */
  lemma {:induction false} ThrottlesMeaning(turns: seq<PollTurn>, asked: seq<bool>) returns (j: nat)
    requires |asked| <= |turns|
    ensures j <= |asked|
    ensures forall k :: j <= k < |asked| && asked[k] ==>
              turns[k].answer == ThroughputExceeded || turns[k].answer == KmsThrottled
    ensures j > 0 ==> asked[j - 1] && turns[j - 1].answer != ThroughputExceeded && turns[j - 1].answer != KmsThrottled
    ensures ProgressIn(turns, asked).throttles == |set k | 0 <= k < |asked| && asked[k] && j <= k|
  {
    if asked == [] {
      j := 0;
    } else {
      var n := |asked| - 1;
      j := ThrottlesMeaning(turns, asked[..n]);
      if asked[n] && turns[n].answer != ThroughputExceeded && turns[n].answer != KmsThrottled {
        j := |asked|;
        assert (set k | 0 <= k < |asked| && asked[k] && j <= k) == {};
      } else {
        AskedSince(asked, j);
      }
    }
  }

  lemma AskedSince(asked: seq<bool>, j: nat)
    requires j < |asked|
    ensures var n := |asked| - 1;
            |set k | 0 <= k < |asked| && asked[k] && j <= k| ==
            |set k | 0 <= k < n && asked[..n][k] && j <= k| + if asked[n] then 1 else 0
  {
    var n := |asked| - 1;
    var before := set k | 0 <= k < n && asked[..n][k] && j <= k;
    if asked[n] {
      assert (set k | 0 <= k < |asked| && asked[k] && j <= k) == before + {n};
    } else {
      assert (set k | 0 <= k < |asked| && asked[k] && j <= k) == before;
    }
  }

  /** A consumer's own record processor is told about one shard. */
  class ShardConsumer {
    const shard: ShardStatus
    const checkpointer: DynamoCheckpoint
    const limiter: RateLimit.PollingShardConsumer
    const maxRetryCount: nat
    const callEvenIfEmpty: bool
    const initialPosition: InitialPosition
    var trace: seq<Callback>
    var leasesLost: nat

    constructor (shard: ShardStatus, checkpointer: DynamoCheckpoint, limiter: RateLimit.PollingShardConsumer,
                 maxRetryCount: nat, callEvenIfEmpty: bool, initialPosition: InitialPosition)
      ensures this.shard == shard && this.checkpointer == checkpointer && this.limiter == limiter
      ensures this.maxRetryCount == maxRetryCount && this.callEvenIfEmpty == callEvenIfEmpty
      ensures this.initialPosition == initialPosition
      ensures trace == [] && leasesLost == 0
    {
      this.shard, this.checkpointer, this.limiter := shard, checkpointer, limiter;
      this.maxRetryCount, this.callEvenIfEmpty := maxRetryCount, callEvenIfEmpty;
      this.initialPosition := initialPosition;
      trace, leasesLost := [], 0;
    }

    /** The wait ends at the first poll that finds the parent finished, has no checkpoint to
        find, or fails; it goes on while every poll finds the parent unfinished. */
    method WaitOnParentShard(polls: seq<ParentPoll>) returns (over: bool, wait: Option<Wait>)
      ensures shard.parent == NoShard ==> over && wait == Some(NoParentShard)
      ensures over ==> wait != Some(ParentUnfinished)
      ensures shard.parent != NoShard ==>
                (over <==> exists k :: && 0 <= k < |polls|
                                       && (|| polls[k].Unread? || polls[k].row.None?
                                           || polls[k].row.value.checkpoint.None?
                                           || polls[k].row.value.checkpoint == Some(ShardEnd)))
      ensures shard.parent != NoShard && over ==>
                exists k :: 0 <= k < |polls| && wait == Verdict(polls[k]) != Some(ParentUnfinished)
                            && forall i :: 0 <= i < k ==> Verdict(polls[i]) == Some(ParentUnfinished)
      ensures !over ==> shard.parent != NoShard
      ensures !over ==> forall i :: 0 <= i < |polls| ==> Verdict(polls[i]) == Some(ParentUnfinished)
    {
      if shard.parent == NoShard {
        return true, Some(NoParentShard);
      }
      var i := 0;
      while i < |polls|
        invariant 0 <= i <= |polls|
        invariant forall k :: 0 <= k < i ==> Verdict(polls[k]) == Some(ParentUnfinished)
      {
        if polls[i].Unread? {
          return true, None;
        }
        if CheckpointOf(polls[i].row).None? {
          return true, Some(ParentUnrecorded);
        }
        if CheckpointOf(polls[i].row).value == ShardEnd {
          return true, Some(ParentFinished);
        }
        i := i + 1;
      }
      return false, None;
    }

    /** A recorded checkpoint wins over the configured initial position. */
    method GetStartingPosition(fetch: Reply) returns (p: StartingPosition)
      modifies shard`checkpoint, shard`assignedTo, shard`leaseTimeout
      ensures fetch != Answered ==> p == NoPosition && shard.View() == old(shard.View())
      ensures fetch == Answered ==>
                && shard.View() == Refreshed(old(shard.View()), RowIn(checkpointer.table.rows, shard.id))
                && p == if shard.checkpoint == Unset then AtInitial(initialPosition) else After(shard.checkpoint)
    {
      var fetched := checkpointer.FetchCheckpoint(shard, fetch);
      if fetched.Err? && fetched.error != SequenceNotFound {
        return NoPosition;
      }
      if shard.checkpoint != Unset {
        return After(shard.checkpoint);
      }
      match initialPosition
      case AtTimestamp(first) => return AtInitial(AtTimestamp(first));
      case TrimHorizon => return AtInitial(TrimHorizon);
      case Latest => return AtInitial(Latest);
    }

    /** Finds the first record, if the position can be read and Kinesis accepts it. */
    method FindFirst(fetch: Reply, latest: nat, connected: bool) returns (first: Option<nat>)
      modifies shard`checkpoint, shard`assignedTo, shard`leaseTimeout
      ensures first.Some? && shard.checkpoint.At? ==> first.value == shard.checkpoint.index + 1
      ensures first.Some? && shard.checkpoint == Unset ==>
                first.value == match initialPosition
                               case TrimHorizon => 0
                               case Latest => latest
                               case AtTimestamp(at) => at
      ensures first.Some? <==> fetch == Answered && shard.checkpoint != ShardEnd && connected
      ensures first.Some? ==>
                shard.View() == Refreshed(old(shard.View()), RowIn(checkpointer.table.rows, shard.id))
    {
      var p := GetStartingPosition(fetch);
      first := if connected then FirstRecord(p, latest) else None;
    }

    /** Where Kinesis starts the iteration, latest being the number of records published by then:
        it rejects "SHARD_END" as a sequence number. */
    function FirstRecord(p: StartingPosition, latest: nat): Option<nat> {
      match p
      case NoPosition => None
      case AtInitial(initial) => Some(if initial.Latest? then latest else FirstOrigin(initial))
      case After(c) => if c.At? then Some(c.index + 1) else None
    }

    /** The records from next on are processed, and the position moves past them. */
    method ProcessRecords(ghost first: nat, next: nat, count: nat) returns (after: nat)
      requires InSession(trace) && Reached(trace, first) == Some(next)
      modifies this`trace
      ensures trace == old(trace) +
                if count > 0 || callEvenIfEmpty then [Callback.ProcessRecords(next, next + count)] else []
      ensures InSession(trace) && after == next + count && Reached(trace, first) == Some(after)
    {
      after := next + count;
      if count > 0 || callEvenIfEmpty {
        TraceStep(trace, Callback.ProcessRecords(next, after), first);
        trace := trace + [Callback.ProcessRecords(next, after)];
      } else {
        assert trace + [] == trace;
      }
    }

    /** releaseLease: the cached owner is forgotten, then the owner is removed from the row. */
    method ReleaseLease(write: Reply)
      modifies shard`assignedTo, checkpointer.table, this`leasesLost
      ensures shard.View() == old(shard.View()).(owner := Nobody)
      ensures leasesLost == old(leasesLost) + 1
      ensures checkpointer.table.rows == if write == Dropped then old(checkpointer.table.rows)
              else WithRow(old(checkpointer.table.rows), shard.id,
                           OwnerRemoved(RowIn(old(checkpointer.table.rows), shard.id), checkpointer.workerId))
      ensures var rows, id := old(checkpointer.table.rows), shard.id;
              checkpointer.table.rows ==
                if write != Dropped && id in rows && rows[id].owner == Some(checkpointer.workerId)
                then rows[id := rows[id].(owner := None)] else rows
    {
      shard.SetLeaseOwner(Nobody);
      var removed := checkpointer.RemoveLeaseOwner(shard.id, write);
      leasesLost := leasesLost + 1;
    }

    /** The common start of both consumers, up to Initialize: the number of the first record, if
        the consumer gets that far. */
    method Begin(polls: seq<ParentPoll>, fetch: Reply, latest: nat, connected: bool)
      returns (r: Run, first: Option<nat>, ghost wait: Option<Wait>)
      requires trace == []
      modifies this`trace, shard`checkpoint, shard`assignedTo, shard`leaseTimeout
      ensures first.None? ==> trace == []
      ensures first.Some? ==> r.Ongoing? && trace == [Initialize(shard.checkpoint)]
      ensures first.Some? ==> InSession(trace) && Reached(trace, first.value) == first
      ensures first.Some? ==> wait.Some? && wait.value != ParentUnfinished
      // AFTER_SEQUENCE_NUMBER of the checkpoint, or else where the configuration says
      ensures first.Some? && shard.checkpoint.At? ==> first.value == shard.checkpoint.index + 1
      ensures first.Some? && shard.checkpoint == Unset ==>
                first.value == match initialPosition
                               case TrimHorizon => 0
                               case Latest => latest
                               case AtTimestamp(at) => at
      ensures first.Some? ==>
                && shard.checkpoint != ShardEnd && fetch == Answered
                && shard.View() == Refreshed(old(shard.View()), RowIn(checkpointer.table.rows, shard.id))
      ensures first.None? ==>
                r == if shard.parent != NoShard
                        && forall k :: 0 <= k < |polls| ==>
                             && polls[k].Seen? && polls[k].row.Some? && polls[k].row.value.checkpoint.Some?
                             && polls[k].row.value.checkpoint != Some(ShardEnd)
                     then Ongoing else Exited(true)
    {
      first := None;
      var over, w := WaitOnParentShard(polls);
      wait := w;
      if !over {
        return Ongoing, None, wait;
      }
      // a parent without a checkpoint counts as already deleted
      if w.None? {
        return Exited(true), None, wait;
      }
      first := FindFirst(fetch, latest, connected);
      if first.None? {
        return Exited(true), None, wait;
      }
      trace := [Initialize(shard.checkpoint)];
      TraceStep([], Initialize(shard.checkpoint), first.value);
      assert [] + trace == trace;
      return Ongoing, first, wait;
    }

    /** One rate-limited call: whether it got past the limiter to Kinesis. */
    method AskKinesis(turn: PollTurn) returns (answered: bool)
      modifies limiter
      ensures var response :=
                if turn.answer.Batch? then RateLimit.Records(turn.answer.sizes) else RateLimit.ServiceError;
              var (bucket, outcome) := RateLimit.Call(old(limiter.View()), turn.clock, response);
              limiter.View() == bucket && answered == !RateLimit.Refused(outcome)
      ensures limiter.asked == old(limiter.asked) + [answered]
    {
      var o := limiter.CallGetRecordsAPI(turn.clock, Response(turn.answer));
      answered := !RateLimit.Refused(o);
    }

    /** One turn of the polling loop; r says whether it goes on. */
    method PollOnce(turn: PollTurn, first: nat, ghost p: Progress, next: nat, retried: nat)
      returns (r: Run, after: nat, retriedErrors: nat, answered: bool)
      requires InSession(trace) && retried == p.throttles <= maxRetryCount
      requires next == first + p.records && Reached(trace, first) == Some(next)
      modifies this`trace, limiter
      ensures limiter.asked == old(limiter.asked) + [answered]
      ensures var q := AfterTurn(p, turn, answered);
              retriedErrors == q.throttles && after == first + q.records && Reached(trace, first) == Some(after)
      ensures !answered ==> r.Ongoing? && trace == old(trace)
      ensures LifeCycle(trace) && trace != [] && trace[0] == old(trace)[0]
      ensures r.Ongoing? ==> InSession(trace) && retriedErrors <= maxRetryCount
      ensures r.Ongoing? && answered ==> ExitOf(turn, retriedErrors).None?
      ensures r.Exited? ==> answered && ExitOf(turn, retriedErrors) == Some((r.error, Ending(trace)))
    {
      answered := AskKinesis(turn);
      if !answered {
        return Ongoing, next, retried, answered;
      }
      r, after, retriedErrors := TakeAnswer(turn, first, next, retried);
    }

    /** The polling consumer's loop: the shard iterator moves only when a call succeeds, so the
        records Kinesis answered with reach the processor once each, in order, through local
        refusals, throttling and retries; and it gives up on throttling only when more than
        maxRetryCount calls in a row were throttled.  The verdicts of the limiter say which turns
        were answered. */
    method PollingLoop(first: nat, turns: seq<PollTurn>) returns (r: Run, next: nat, ghost asked: seq<bool>)
      requires InSession(trace) && Reached(trace, first) == Some(first)
      modifies this`trace, limiter
      ensures LifeCycle(trace) && trace != []
      ensures |asked| <= |turns| && limiter.asked == old(limiter.asked) + asked
      ensures trace[0] == old(trace)[0]
      ensures next == first + ProgressIn(turns, asked).records && Reached(trace, first) == Some(next)
      ensures r.Ongoing? ==>
                InSession(trace) && |asked| == |turns| && ProgressIn(turns, asked).throttles <= maxRetryCount
      ensures r.Ongoing? && asked != [] && asked[|asked| - 1] ==>
                ExitOf(turns[|asked| - 1], ProgressIn(turns, asked).throttles).None?
      ensures r.Exited? ==>
                && asked != [] && asked[|asked| - 1]
                && ExitOf(turns[|asked| - 1], ProgressIn(turns, asked).throttles) == Some((r.error, Ending(trace)))
      ensures asked != [] ==> GoesOn(turns, asked[..|asked| - 1], maxRetryCount)
    {
      next, asked := first, [];
      var retriedErrors := 0;
      var i := 0;
      while i < |turns|
        invariant 0 <= i <= |turns| && |asked| == i && limiter.asked == old(limiter.asked) + asked
        invariant InSession(trace) && next == first + ProgressIn(turns, asked).records
                  && Reached(trace, first) == Some(next)
        invariant trace[0] == old(trace)[0]
        invariant i > 0 && asked[i - 1] ==> ExitOf(turns[i - 1], retriedErrors).None?
        invariant GoesOn(turns, asked, maxRetryCount)
        invariant retriedErrors == ProgressIn(turns, asked).throttles <= maxRetryCount
      {
        var answered;
        r, next, retriedErrors, answered := PollOnce(turns[i], first, ProgressIn(turns, asked), next, retriedErrors);
        ProgressStep(turns, old(limiter.asked), asked, answered, maxRetryCount);
        i, asked := i + 1, asked + [answered];
        if r.Exited? {
          return r, next, asked;
        }
      }
      assert asked != [] ==> GoesOn(turns, asked[..|asked| - 1], maxRetryCount);
      return Ongoing, next, asked;
    }

    /** One answered call of the polling loop. */
    method TakeAnswer(turn: PollTurn, first: nat, next: nat, retried: nat)
      returns (r: Run, after: nat, retriedErrors: nat)
      requires InSession(trace) && Reached(trace, first) == Some(next) && retried <= maxRetryCount
      modifies this`trace
      ensures after == next + if turn.answer.Batch? then |turn.answer.sizes| else 0
      ensures LifeCycle(trace) && trace != [] && Reached(trace, first) == Some(after)
      ensures retriedErrors ==
              if turn.answer == ThroughputExceeded || turn.answer == KmsThrottled then retried + 1 else 0
      // the callbacks of this turn, and how it ends the loop
      ensures match turn.answer
              case Batch(sizes, closed) =>
                var processed := if |sizes| > 0 || callEvenIfEmpty then [Callback.ProcessRecords(next, after)] else [];
                if closed then r == Exited(false) && trace == old(trace) + processed + [Shutdown(TERMINATE)]
                else if turn.signal == StopSignal
                then r == Exited(false) && trace == old(trace) + processed + [Shutdown(REQUESTED)]
                else && trace == old(trace) + processed
                     && r == if turn.signal == RenewalFailed then Exited(true) else Ongoing
              case OtherError => r == Exited(true) && trace == old(trace)
              case _ => trace == old(trace) && r == if retriedErrors > maxRetryCount then Exited(true) else Ongoing
      ensures r.Ongoing? ==> InSession(trace) && ExitOf(turn, retriedErrors).None? && retriedErrors <= maxRetryCount
      ensures r.Exited? ==> ExitOf(turn, retriedErrors) == Some((r.error, Ending(trace)))
    {
      after, retriedErrors := next, retried;
      if Throttle(turn.answer) {
        retriedErrors := retriedErrors + 1;
        return if retriedErrors > maxRetryCount then Exited(true) else Ongoing, after, retriedErrors;
      }
      retriedErrors := 0;
      if turn.answer.OtherError? {
        return Exited(true), after, retriedErrors;
      }
      after := ProcessRecords(first, next, |turn.answer.sizes|);
      if turn.answer.closed {
        Finish(TERMINATE, first);
        return Exited(false), after, retriedErrors;
      }
      if turn.signal == StopSignal {
        Finish(REQUESTED, first);
        return Exited(false), after, retriedErrors;
      }
      return if turn.signal == RenewalFailed then Exited(true) else Ongoing, after, retriedErrors;
    }

    /** How an answered turn ends the loop, given the throttled calls in a row up to it: with an
        error or not, and with which Shutdown. */
    function ExitOf(turn: PollTurn, throttles: nat): Option<(bool, Option<Reason>)> {
      match turn.answer
      case Batch(_, true) => Some((false, Some(TERMINATE)))
      case Batch(_, false) =>
        (match turn.signal
         case Quiet => None
         case StopSignal => Some((false, Some(REQUESTED)))
         case RenewalFailed => Some((true, None)))
      case OtherError => Some((true, None))
      case _ => if throttles > maxRetryCount then Some((true, None)) else None
    }

    /** What ExitOf says of a run that goes on, or has ended, with this last callback. */
    lemma ExitMeaning(turn: PollTurn, throttles: nat, r: Run, last: Callback)
      requires r.Ongoing? ==> ExitOf(turn, throttles).None? && !last.Shutdown?
      requires r.Exited? ==>
                 ExitOf(turn, throttles) == Some((r.error, if last.Shutdown? then Some(last.reason) else None))
      ensures match turn.answer
              case Batch(_, true) => r == Exited(false) && last == Shutdown(TERMINATE)
              case Batch(_, false) =>
                (match turn.signal
                 case Quiet => r == Ongoing && !last.Shutdown?
                 case StopSignal => r == Exited(false) && last == Shutdown(REQUESTED)
                 case RenewalFailed => r == Exited(true) && !last.Shutdown?)
              case OtherError => r == Exited(true) && !last.Shutdown?
              case _ =>
                && r == (if throttles > maxRetryCount then Exited(true) else Ongoing)
                && !last.Shutdown?
    {
    }

    /** The whole of the polling getRecords; asked holds the limiter's verdict on each turn of the
        loop that was taken. */
    method PollingGetRecords(polls: seq<ParentPoll>, fetch: Reply, latest: nat, connected: bool, turns: seq<PollTurn>,
                             release: Reply)
      returns (r: Run, ghost first: Option<nat>, ghost next: nat, ghost wait: Option<Wait>, ghost asked: seq<bool>)
      requires trace == []
      modifies this, shard`checkpoint, shard`assignedTo, shard`leaseTimeout, limiter, checkpointer.table
      ensures LifeCycle(trace) && (trace != [] <==> first.Some?)
      ensures |asked| <= |turns| && limiter.asked == old(limiter.asked) + asked
      ensures first.Some? ==> wait.Some? && wait.value != ParentUnfinished
      ensures first.Some? ==> trace[0] == Initialize(shard.checkpoint) && shard.checkpoint != ShardEnd
      ensures first.Some? && shard.checkpoint.At? ==> first.value == shard.checkpoint.index + 1
      ensures first.Some? && shard.checkpoint == Unset ==>
                first.value == match initialPosition
                               case TrimHorizon => 0
                               case Latest => latest
                               case AtTimestamp(at) => at
      // first, first + 1, and so on up to next: no hole and no repeat
      ensures first.Some? ==>
                && Reached(trace, first.value) == Some(next) && |Delivered(trace)| == next - first.value
                && forall j :: 0 <= j < |Delivered(trace)| ==> Delivered(trace)[j] == first.value + j
      ensures first.Some? ==>
                && next == first.value + ProgressIn(turns, asked).records
                && Delivered(trace) == Range(first.value, next)
                && (r.Ongoing? ==> |asked| == |turns| && Ending(trace).None?)
                && (r.Exited? ==>
                      && asked != [] && asked[|asked| - 1]
                      && ExitOf(turns[|asked| - 1], ProgressIn(turns, asked).throttles)
                         == Some((r.error, Ending(trace))))
      // how the last turn taken ends the consumer: each cause leads to its exit, and each exit has its cause
      ensures first.Some? && (asked == [] || !asked[|asked| - 1]) ==> r.Ongoing? && !trace[|trace| - 1].Shutdown?
      ensures first.Some? && asked != [] && asked[|asked| - 1] ==>
                var turn, last := turns[|asked| - 1], trace[|trace| - 1];
                match turn.answer
                case Batch(_, true) => r == Exited(false) && last == Shutdown(TERMINATE)
                case Batch(_, false) =>
                  (match turn.signal
                   case Quiet => r == Ongoing && !last.Shutdown?
                   case StopSignal => r == Exited(false) && last == Shutdown(REQUESTED)
                   case RenewalFailed => r == Exited(true) && !last.Shutdown?)
                case OtherError => r == Exited(true) && !last.Shutdown?
                case _ =>
                  && r == (if ProgressIn(turns, asked).throttles > maxRetryCount then Exited(true) else Ongoing)
                  && !last.Shutdown?
      ensures forall k :: 0 <= k < |asked| - 1 && asked[k] ==>
                && !turns[k].answer.OtherError? && ProgressIn(turns, asked[..k + 1]).throttles <= maxRetryCount
                && (turns[k].answer.Batch? ==> !turns[k].answer.closed && turns[k].signal == Quiet)
      ensures Ending(trace) == Some(TERMINATE) ==>
                && r == Exited(false) && asked != [] && asked[|asked| - 1]
                && turns[|asked| - 1].answer.Batch? && turns[|asked| - 1].answer.closed
      ensures leasesLost == old(leasesLost) + if r.Exited? then 1 else 0
      ensures r.Exited? ==> shard.assignedTo == Nobody
      ensures r.Exited? && release != Dropped ==>
                OwnerOf(RowIn(checkpointer.table.rows, shard.id)) != Some(checkpointer.workerId)
    {
      var start;
      r, start, wait := Begin(polls, fetch, latest, connected);
      first, next, asked := start, 0, [];
      if start.Some? {
        var upTo;
        r, upTo, asked := PollingLoop(start.value, turns);
        next := upTo;
        ReachedDelivers(trace, start.value);
        RangeMeaning(start.value, upTo);
        if asked != [] {
          EarlierTurns(turns, asked, maxRetryCount);
        }
        if asked != [] && asked[|asked| - 1] {
          ExitMeaning(turns[|asked| - 1], ProgressIn(turns, asked).throttles, r, trace[|trace| - 1]);
        }
      }
      if r.Exited? {
        ReleaseLease(release);
      }
    }

    // ----- Enhanced fan-out -----

    /** Losing the lease ends the consumer quietly; any other failure is an error. */
    method RefreshLease(clock: LeaseClock, read: Reply, write: Reply) returns (refreshed: bool, error: bool)
      modifies shard`assignedTo, shard`leaseTimeout, checkpointer.table
      ensures var e := LeaseCall(checkpointer.cfg, RowIn(old(checkpointer.table.rows), shard.id),
                                old(shard.View()), shard.parent,
                                 checkpointer.workerId, clock, read, write);
              && checkpointer.table.rows == WithRow(old(checkpointer.table.rows), shard.id, e.row)
              && shard.View() == e.cached
              && refreshed == e.result.Ok? && error == (e.result.Err? && e.result.error != LeaseNotAcquired)
    {
      var r := checkpointer.GetLease(shard, checkpointer.workerId, clock, read, write);
      return r.Ok?, r.Err? && r.error != LeaseNotAcquired;
    }

    /** The fan-out consumer's loop: after its stream ends it subscribes again behind the last
        continuation, so the records still reach the processor once each, in order. */
    method FanOutLoop(first: nat, turns: seq<FanOutTurn>) returns (r: Run, next: nat, ghost taken: nat)
      requires InSession(trace) && Reached(trace, first) == Some(first)
      modifies this`trace, shard`assignedTo, shard`leaseTimeout, checkpointer.table
      ensures LifeCycle(trace) && trace != [] && taken <= |turns|
      ensures next == first + CountIn(turns, taken) && Reached(trace, first) == Some(next)
      ensures trace[0] == old(trace)[0]
      ensures r.Ongoing? ==> InSession(trace) && taken == |turns|
      ensures r.Exited? ==> 0 < taken && FirstEnding(turns, taken - 1).None?
      ensures r.Exited? ==> Ending(trace) == FanOutEnding(turns[taken - 1])
      ensures Ending(trace).Some? ==> r == Exited(false)
      ensures Ending(trace) == FirstEnding(turns, taken)
      ensures var e := Renewed(checkpointer.cfg, shard.parent, checkpointer.workerId,
                               RowIn(old(checkpointer.table.rows), shard.id), old(shard.View()), turns, taken);
              checkpointer.table.rows == WithRow(old(checkpointer.table.rows), shard.id, e.row)
              && shard.View() == e.cached
      ensures forall k :: 0 <= k < taken && (k < taken - 1 || r.Ongoing?) ==>
                Outlasts(RowIn(old(checkpointer.table.rows), shard.id), old(shard.View()), turns, k)
      ensures r.Exited? ==>
                Leaves(RowIn(old(checkpointer.table.rows), shard.id), old(shard.View()), turns, taken - 1, r.error)
    {
      next, taken := first, 0;
      RowReplaced(checkpointer.table.rows, shard.id);
      var continuation: Option<nat> := None;
      var i := 0;
      while i < |turns|
        invariant 0 <= i <= |turns| && taken == i
        invariant InSession(trace) && next == first + CountIn(turns, i) && Reached(trace, first) == Some(next)
        invariant trace[0] == old(trace)[0]
        invariant continuation.Some? ==> continuation.value == next
        invariant continuation.Some? <==> exists j :: 0 <= j < i && turns[j].Subscribed?
        invariant FirstEnding(turns, i).None?
        invariant var e := Renewed(checkpointer.cfg, shard.parent, checkpointer.workerId,
                                   RowIn(old(checkpointer.table.rows), shard.id), old(shard.View()), turns, i);
                  checkpointer.table.rows == WithRow(old(checkpointer.table.rows), shard.id, e.row)
                  && shard.View() == e.cached
        invariant forall k :: 0 <= k < i ==>
                    Outlasts(RowIn(old(checkpointer.table.rows), shard.id), old(shard.View()), turns, k)
      {
        r, next, continuation := TakeTurn(turns[i], first, next, continuation);
        RowReplaced(old(checkpointer.table.rows), shard.id);
        i, taken := i + 1, taken + 1;
        if r.Exited? {
          return r, next, taken;
        }
      }
      return Ongoing, next, taken;
    }

    /** The event leaves the loop running, if the events before it did: no stop, the lease renewed,
        and a stream that ended resumed behind a continuation. */
    predicate Outlasts(row: Option<Row>, cached: Cached, turns: seq<FanOutTurn>, k: nat)
      requires k < |turns|
    {
      match turns[k]
      case Stop => false
      case Refresh(_, _, _) =>
        Renewed(checkpointer.cfg, shard.parent, checkpointer.workerId, row, cached, turns, k + 1).result.Ok?
      case StreamEnded(resubscribed) => resubscribed && exists j :: 0 <= j < k && turns[j].Subscribed?
      case Unexpected => true
      case Subscribed(_, closed) => !closed
    }

    lemma OutlastsMeaning(row: Option<Row>, cached: Cached, turns: seq<FanOutTurn>, n: nat)
      requires n <= |turns| && forall k :: 0 <= k < n ==> Outlasts(row, cached, turns, k)
      ensures forall k :: 0 <= k < n ==>
                match turns[k]
                case Stop => false
                case Refresh(_, _, _) =>
                  Renewed(checkpointer.cfg, shard.parent, checkpointer.workerId, row, cached, turns, k + 1).result.Ok?
                case StreamEnded(resubscribed) => resubscribed && exists j :: 0 <= j < k && turns[j].Subscribed?
                case Unexpected => true
                case Subscribed(_, closed) => !closed
    {
      forall k | 0 <= k < n
        ensures match turns[k]
                case Stop => false
                case Refresh(_, _, _) =>
                  Renewed(checkpointer.cfg, shard.parent, checkpointer.workerId, row, cached, turns, k + 1).result.Ok?
                case StreamEnded(resubscribed) => resubscribed && exists j :: 0 <= j < k && turns[j].Subscribed?
                case Unexpected => true
                case Subscribed(_, closed) => !closed
      {
        assert Outlasts(row, cached, turns, k);
      }
    }

    /** The event ends the loop, with an error or not. */
    predicate Leaves(row: Option<Row>, cached: Cached, turns: seq<FanOutTurn>, k: nat, error: bool)
      requires k < |turns|
    {
      match turns[k]
      case Stop => !error
      case Refresh(_, _, _) =>
        var e := Renewed(checkpointer.cfg, shard.parent, checkpointer.workerId, row, cached, turns, k + 1);
        e.result.Err? && (error <==> e.result.error != LeaseNotAcquired)
      case StreamEnded(resubscribed) =>
        if exists j :: 0 <= j < k && turns[j].Subscribed? then !resubscribed && error else !error
      case Unexpected => false
      case Subscribed(_, closed) => closed && !error
    }

    /** One event of the fan-out select loop. */
    method TakeTurn(turn: FanOutTurn, first: nat, next: nat, continuation: Option<nat>)
      returns (r: Run, after: nat, following: Option<nat>)
      requires InSession(trace) && Reached(trace, first) == Some(next)
      requires continuation.Some? ==> continuation.value == next
      modifies this`trace, shard`assignedTo, shard`leaseTimeout, checkpointer.table
      ensures after == next + if turn.Subscribed? then turn.count else 0
      ensures LifeCycle(trace) && trace != [] && Reached(trace, first) == Some(after)
      // the callbacks of this event
      ensures match turn
              case Stop => trace == old(trace) + [Shutdown(REQUESTED)] && r == Exited(false)
              case Subscribed(count, closed) =>
                var processed := if count > 0 || callEvenIfEmpty then [Callback.ProcessRecords(next, after)] else [];
                if closed then trace == old(trace) + processed + [Shutdown(TERMINATE)] && r == Exited(false)
                else trace == old(trace) + processed && r == Ongoing && following == Some(after)
              case Unexpected => trace == old(trace) && r == Ongoing && following == continuation
              case _ => trace == old(trace) && following == continuation
      ensures following.Some? ==> following.value == after
      ensures Ending(trace) == FanOutEnding(turn) && (Ending(trace).Some? ==> r == Exited(false))
      ensures r.Ongoing? ==> InSession(trace)
      ensures !turn.Refresh? ==>
                checkpointer.table.rows == old(checkpointer.table.rows) && shard.View() == old(shard.View())
      ensures match turn
              case Refresh(clock, read, write) =>
                var e := LeaseCall(checkpointer.cfg, RowIn(old(checkpointer.table.rows), shard.id),
                                   old(shard.View()), shard.parent,
                                   checkpointer.workerId, clock, read, write);
                && checkpointer.table.rows == WithRow(old(checkpointer.table.rows), shard.id, e.row)
                && shard.View() == e.cached
                && r == (if e.result.Ok? then Ongoing else Exited(e.result.error != LeaseNotAcquired))
              case StreamEnded(resubscribed) =>
                r == if continuation.None? then Exited(false) else if resubscribed then Ongoing else Exited(true)
              case _ => r.Ongoing? <==> Ending(trace).None?
    {
      after, following := next, continuation;
      match turn {
        case Stop =>
          Finish(REQUESTED, first);
          return Exited(false), after, following;
        case Refresh(clock, read, write) =>
          var refreshed, error := RefreshLease(clock, read, write);
          return if refreshed then Ongoing else Exited(error), after, following;
        case StreamEnded(resubscribed) =>
          if continuation.None? {
            return Exited(false), after, following;
          }
          if !resubscribed {
            return Exited(true), after, following;
          }
          // the new subscription starts after the continuation
          after := continuation.value;
          return Ongoing, after, following;
        case Unexpected =>
          return Ongoing, after, following;
        case Subscribed(count, closed) =>
          after := ProcessRecords(first, next, count);
          following := if closed then None else Some(after);
          if closed {
            Finish(TERMINATE, first);
            return Exited(false), after, following;
          }
          return Ongoing, after, following;
      }
    }

    /** The whole of the fan-out getRecords: taken is the number of events of the select loop. */
    method FanOutGetRecords(polls: seq<ParentPoll>, fetch: Reply, latest: nat, connected: bool, turns: seq<FanOutTurn>,
                            release: Reply)
      returns (r: Run, ghost first: Option<nat>, ghost next: nat, ghost wait: Option<Wait>, ghost taken: nat)
      requires trace == []
      modifies this, shard`checkpoint, shard`assignedTo, shard`leaseTimeout, checkpointer.table
      ensures LifeCycle(trace) && (trace != [] <==> first.Some?)
      ensures taken <= |turns|
      ensures first.Some? ==>
                && wait.Some? && wait.value != ParentUnfinished
                && next == first.value + CountIn(turns, taken) && Delivered(trace) == Range(first.value, next)
                && Ending(trace) == FirstEnding(turns, taken) && (r.Ongoing? ==> taken == |turns|)
      ensures first.Some? ==> trace[0] == Initialize(shard.checkpoint) && shard.checkpoint != ShardEnd
      ensures first.Some? && shard.checkpoint.At? ==> first.value == shard.checkpoint.index + 1
      ensures first.Some? && shard.checkpoint == Unset ==>
                first.value == match initialPosition
                               case TrimHorizon => 0
                               case Latest => latest
                               case AtTimestamp(at) => at
      // first, first + 1, and so on up to next: no hole and no repeat
      ensures first.Some? ==>
                && Reached(trace, first.value) == Some(next) && |Delivered(trace)| == next - first.value
                && forall j :: 0 <= j < |Delivered(trace)| ==> Delivered(trace)[j] == first.value + j
      // the last event taken decides how it ends, and no event before it would have ended it
      ensures first.Some? ==> forall k :: 0 <= k < taken - 1 ==>
                !turns[k].Stop? && !(turns[k].Subscribed? && turns[k].closed)
      ensures first.Some? ==>
                && (trace[|trace| - 1] == Shutdown(TERMINATE) <==>
                    taken > 0 && turns[taken - 1].Subscribed? && turns[taken - 1].closed)
                && (trace[|trace| - 1] == Shutdown(REQUESTED) <==> taken > 0 && turns[taken - 1].Stop?)
                && (trace[|trace| - 1].Shutdown? ==> r == Exited(false))
      // the lease is renewed at each refresh, and a stream that ends is resumed only behind a continuation
      ensures first.Some? ==>
                var row := RowIn(old(checkpointer.table.rows), shard.id);
                var cached := Refreshed(old(shard.View()), row);
                forall k :: 0 <= k < taken && (k < taken - 1 || r.Ongoing?) ==>
                  match turns[k]
                  case Stop => false
                  case Refresh(_, _, _) =>
                    Renewed(checkpointer.cfg, shard.parent, checkpointer.workerId, row, cached, turns, k + 1).result.Ok?
                  case StreamEnded(resubscribed) => resubscribed && exists j :: 0 <= j < k && turns[j].Subscribed?
                  case Unexpected => true
                  case Subscribed(_, closed) => !closed
      ensures first.Some? && r.Exited? ==>
                var row := RowIn(old(checkpointer.table.rows), shard.id);
                var cached := Refreshed(old(shard.View()), row);
                taken > 0 &&
                match turns[taken - 1]
                case Stop => !r.error
                case Refresh(_, _, _) =>
                  var e := Renewed(checkpointer.cfg, shard.parent, checkpointer.workerId, row, cached, turns, taken);
                  e.result.Err? && (r.error <==> e.result.error != LeaseNotAcquired)
                case StreamEnded(resubscribed) =>
                  if exists j :: 0 <= j < taken - 1 && turns[j].Subscribed? then !resubscribed && r.error else !r.error
                case Unexpected => false
                case Subscribed(_, closed) => closed && !r.error
      ensures Ending(trace) == Some(TERMINATE) ==>
                && r == Exited(false) && 0 < taken && FirstEnding(turns, taken - 1).None?
                && turns[taken - 1].Subscribed? && turns[taken - 1].closed
      ensures leasesLost == old(leasesLost) + if r.Exited? then 1 else 0
      ensures r.Exited? ==> shard.assignedTo == Nobody
      ensures r.Exited? && release != Dropped ==>
                OwnerOf(RowIn(checkpointer.table.rows, shard.id)) != Some(checkpointer.workerId)
    {
      var start;
      r, start, wait := Begin(polls, fetch, latest, connected);
      first, next, taken := start, 0, 0;
      if start.Some? {
        var upTo;
        r, upTo, taken := FanOutLoop(start.value, turns);
        next := upTo;
        ReachedDelivers(trace, start.value);
        RangeMeaning(start.value, upTo);
        OutlastsMeaning(RowIn(old(checkpointer.table.rows), shard.id),
                        Refreshed(old(shard.View()), RowIn(old(checkpointer.table.rows), shard.id)), turns,
                        if r.Ongoing? then taken else taken - 1);
        FirstEndingMeaning(turns, taken);
        if taken > 0 {
          FirstEndingMeaning(turns, taken - 1);
        }
      }
      if r.Exited? {
        ReleaseLease(release);
      }
    }

    method Finish(reason: Reason, ghost first: nat)
      requires InSession(trace)
      modifies this`trace
      ensures trace == old(trace) + [Shutdown(reason)]
      ensures LifeCycle(trace) && Reached(trace, first) == Reached(old(trace), first) && Ending(trace) == Some(reason)
    {
      TraceStep(trace, Shutdown(reason), first);
      trace := trace + [Shutdown(reason)];
    }
  }

  /** The reason of the Shutdown the trace ends with, if it does. */
  function Ending(trace: seq<Callback>): Option<Reason> {
    if trace != [] && trace[|trace| - 1].Shutdown? then Some(trace[|trace| - 1].reason) else None
  }
}
