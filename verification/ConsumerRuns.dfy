/** The life of a consumer, as its class keeps it, is a run of the protocol's steps on the shard's
    stream: the end of the wait, the starting position, one delivery for each ProcessRecords, and
    the exit.  So what is proved of those steps holds of the consumers. */
module ConsumerRuns {
  import opened LeaseTypes
  import opened Protocol
  import opened Checkpointer
  import opened Consumers

  /** The steps one after another, while cache and parent row stay as they are. */
  function Steps(cache: map<WorkerId, Cached>, poll: Wait, s: StreamState, ops: seq<StreamOp>): Option<StreamState>
    decreases |ops|
  {
    if ops == [] then Some(s)
    else if StreamEnabled(cache, poll, s, ops[0]) then Steps(cache, poll, StreamStep(cache, poll, s, ops[0]), ops[1..])
    else None
  }

  lemma {:induction false} StepsAppend(cache: map<WorkerId, Cached>, poll: Wait, s: StreamState, a: seq<StreamOp>,
                                       b: seq<StreamOp>)
    requires Steps(cache, poll, s, a).Some?
    ensures Steps(cache, poll, s, a + b) == Steps(cache, poll, Steps(cache, poll, s, a).value, b)
    decreases |a|
  {
    if a == [] {
      assert a + b == b;
    } else {
      StepsAppend(cache, poll, StreamStep(cache, poll, s, a[0]), a[1..], b);
      assert (a + b)[1..] == a[1..] + b;
    }
  }

  /** One more step. */
  lemma StepsThen(cache: map<WorkerId, Cached>, poll: Wait, s: StreamState, ops: seq<StreamOp>, t: StreamState,
                  op: StreamOp)
    requires Steps(cache, poll, s, ops) == Some(t) && StreamEnabled(cache, poll, t, op)
    ensures Steps(cache, poll, s, ops + [op]) == Some(StreamStep(cache, poll, t, op))
  {
    StepsAppend(cache, poll, s, ops, [op]);
    assert [op][1..] == [];
  }

  // ----- From the position on -----

  /** The step a callback is. */
  function OpOf(id: nat, c: Callback): StreamOp {
    match c
    case Initialize(_) => TakePosition(id)
    case ProcessRecords(_, to) => Deliver(id, to)
    case Shutdown(TERMINATE) => Terminate(id)
    case Shutdown(REQUESTED) => StopConsumer(id)
  }

  /** The steps of the callbacks after Initialize. */
  function CallbackOps(id: nat, trace: seq<Callback>): seq<StreamOp> {
    if |trace| <= 1 then []
    else CallbackOps(id, trace[..|trace| - 1]) + [OpOf(id, trace[|trace| - 1])]
  }

  /** Kinesis has published what it handed out, and says that the shard is closed only at its end. */
  predicate Published(s: StreamState, trace: seq<Callback>, next: nat) {
    && next <= s.length
    && (Ending(trace) == Some(TERMINATE) ==> s.closed && s.length == next)
  }

  /** The stream after these callbacks of consumer id of worker w: the consumer stands where they
      have brought it, or has left; what they delivered is delivered. */
  ghost predicate Matches(s: StreamState, t: StreamState, id: nat, w: WorkerId, trace: seq<Callback>, first: nat,
                          next: nat)
  {
    && (InSession(trace) ==> id in t.consumers && t.consumers[id] == Consumer(w, Running(next)))
    && (!InSession(trace) ==> id !in t.consumers)
    && (forall other :: other != id ==> (other in t.consumers <==> other in s.consumers))
    && (forall other :: other != id && other in s.consumers ==> t.consumers[other] == s.consumers[other])
    && (forall r :: r in t.delivered <==> r in s.delivered || first <= r < next)
    && (t.ended <==> s.ended || Ending(trace) == Some(TERMINATE))
    && t == s.(consumers := t.consumers, delivered := t.delivered, ended := t.ended)
  }

  /** One callback after those of before. */
  lemma CallbackStep(cache: map<WorkerId, Cached>, poll: Wait, s: StreamState, u: StreamState, id: nat, w: WorkerId,
                     before: seq<Callback>, c: Callback, first: nat, middle: nat, next: nat)
    requires InSession(before) && !c.Initialize? && Matches(s, u, id, w, before, first, middle)
    requires next == if c.ProcessRecords? then c.to else middle
    requires first <= middle <= next && (c.ProcessRecords? ==> c.from == middle) && Published(s, before + [c], next)
    ensures var op := OpOf(id, c);
            && StreamEnabled(cache, poll, u, op)
            && Matches(s, StreamStep(cache, poll, u, op), id, w, before + [c], first, next)
  {
    TraceStep(before, c, first);
    assert Ending(before).None?;
    match c
    case ProcessRecords(_, to) =>
    case Shutdown(TERMINATE) =>
    case Shutdown(REQUESTED) =>
  }

  lemma {:induction false} CallbacksAreSteps(cache: map<WorkerId, Cached>, poll: Wait, s: StreamState, id: nat,
                                             w: WorkerId, trace: seq<Callback>, first: nat, next: nat)
    returns (t: StreamState)
    requires trace != [] && LifeCycle(trace) && Reached(trace, first) == Some(next) && Published(s, trace, next)
    requires id in s.consumers && s.consumers[id] == Consumer(w, Running(first))
    ensures Steps(cache, poll, s, CallbackOps(id, trace)) == Some(t) && Matches(s, t, id, w, trace, first, next)
    decreases |trace|
  {
    var n := |trace| - 1;
    var before, c := trace[..n], trace[n];
    ReachedDelivers(trace, first);
    if n == 0 {
      assert StageOf(before) == Idle;
      t := s;
    } else {
      assert InSession(before) && trace == before + [c];
      var middle := Reached(before, first).value;
      ReachedDelivers(before, first);
      var u := CallbacksAreSteps(cache, poll, s, id, w, before, first, middle);
      CallbackStep(cache, poll, s, u, id, w, before, c, first, middle, next);
      t := StreamStep(cache, poll, u, OpOf(id, c));
      StepsThen(cache, poll, s, CallbackOps(id, before), u, OpOf(id, c));
    }
  }

  // ----- The start -----

  function Publishes(count: nat): seq<StreamOp> {
    if count == 0 then [] else Publishes(count - 1) + [Publish]
  }

  lemma {:induction false} PublishSteps(cache: map<WorkerId, Cached>, poll: Wait, s: StreamState, count: nat)
    requires count > 0 ==> !s.closed
    ensures Steps(cache, poll, s, Publishes(count)) == Some(s.(length := s.length + count))
  {
    if count > 0 {
      PublishSteps(cache, poll, s, count - 1);
      StepsThen(cache, poll, s, Publishes(count - 1), s.(length := s.length + (count - 1)), Publish);
    }
  }

  /** The wait ends and the position is taken; then, while the consumer runs, count records are
      published, and the shard may close. */
  function Opening(id: nat, count: nat, closes: bool): seq<StreamOp> {
    [EndWait(id)] + [TakePosition(id)] + Publishes(count) + if closes then [Close] else []
  }

  /** What a consumer finds on the stream: it is waiting there as id of worker w, and as many
      records are published as Kinesis counts; no record it is handed is beyond the end. */
  predicate Hosts(cache: map<WorkerId, Cached>, poll: Wait, s: StreamState, id: nat, w: WorkerId, latest: nat,
                  trace: seq<Callback>, next: nat)
  {
    && id in s.consumers && s.consumers[id] == Consumer(w, Waiting) && w in cache
    && poll != ParentUnfinished && s.length == latest
    && (s.closed ==> next <= s.length)
    && (Ending(trace) == Some(TERMINATE) ==> s.length <= next)
  }

  /** The first record after the checkpoint, or else where the configuration says. */
  predicate StartsAt(initial: InitialPosition, checkpoint: Position, latest: nat, first: nat) {
    && checkpoint != ShardEnd
    && (checkpoint.At? ==> first == checkpoint.index + 1)
    && (checkpoint == Unset ==> first == match initial
                                         case TrimHorizon => 0
                                         case Latest => latest
                                         case AtTimestamp(at) => at)
  }

  /** The records of the life that are not published yet when it begins. */
  function Beyond(s: StreamState, next: nat): nat {
    if s.length < next then next - s.length else 0
  }

  lemma OpeningSteps(cache: map<WorkerId, Cached>, poll: Wait, s: StreamState, id: nat, w: WorkerId,
                     trace: seq<Callback>, first: nat, next: nat)
    returns (u: StreamState)
    requires Hosts(cache, poll, s, id, w, s.length, trace, next)
    requires StartsAt(s.initial, cache[w].checkpoint, s.length, first)
    ensures var o := Steps(cache, poll, s, [EndWait(id)] + [TakePosition(id)]);
            o.Some? && id in o.value.consumers && o.value.consumers[id] == Consumer(w, Running(first))
    ensures Steps(cache, poll, s, Opening(id, Beyond(s, next), Ending(trace) == Some(TERMINATE))) == Some(u)
    ensures id in u.consumers && u.consumers[id] == Consumer(w, Running(first)) && Published(u, trace, next)
    ensures u.delivered == s.delivered && u.ended == s.ended
  {
    var s1 := StreamStep(cache, poll, s, EndWait(id));
    var s2 := StreamStep(cache, poll, s1, TakePosition(id));
    var count := Beyond(s, next);
    assert Steps(cache, poll, s, []) == Some(s) && [] + [EndWait(id)] == [EndWait(id)];
    StepsThen(cache, poll, s, [], s, EndWait(id));
    StepsThen(cache, poll, s, [EndWait(id)], s1, TakePosition(id));
    PublishSteps(cache, poll, s2, count);
    StepsAppend(cache, poll, s, [EndWait(id)] + [TakePosition(id)], Publishes(count));
    u := s2.(length := s2.length + count);
    var ops := [EndWait(id)] + [TakePosition(id)] + Publishes(count);
    if Ending(trace) == Some(TERMINATE) {
      StepsThen(cache, poll, s, ops, u, Close);
      u := u.(closed := true);
    } else {
      assert ops + [] == ops;
    }
  }

  // ----- The whole life -----

  /** The steps of the whole life; left says that it returned without a Shutdown. */
  function Life(id: nat, trace: seq<Callback>, count: nat, left: bool): seq<StreamOp> {
    Opening(id, count, Ending(trace) == Some(TERMINATE)) + CallbackOps(id, trace) +
    if left then [StopConsumer(id)] else []
  }

  /** The life is a run: TakePosition sets the first record, the deliveries are those of the
      callbacks, the shard has ended if Shutdown(TERMINATE) said so, and a consumer that has
      returned is gone. */
  ghost predicate IsLife(cache: map<WorkerId, Cached>, poll: Wait, s: StreamState, id: nat, w: WorkerId,
                         trace: seq<Callback>, first: nat, next: nat, left: bool)
    requires trace != []
  {
    var start := Steps(cache, poll, s, [EndWait(id)] + [TakePosition(id)]);
    var end := Steps(cache, poll, s, Life(id, trace, Beyond(s, next), left));
    && start.Some? && id in start.value.consumers && start.value.consumers[id] == Consumer(w, Running(first))
    && end.Some?
    && (id in end.value.consumers <==> !left && !trace[|trace| - 1].Shutdown?)
    && (id in end.value.consumers ==> end.value.consumers[id] == Consumer(w, Running(next)))
    && (forall r :: r in end.value.delivered <==> r in s.delivered || first <= r < next)
    && (end.value.ended <==> s.ended || trace[|trace| - 1] == Shutdown(TERMINATE))
  }

  lemma LifeIsRun(cache: map<WorkerId, Cached>, poll: Wait, s: StreamState, id: nat, w: WorkerId,
                  trace: seq<Callback>, first: nat, next: nat, left: bool)
    requires Hosts(cache, poll, s, id, w, s.length, trace, next)
    requires StartsAt(s.initial, cache[w].checkpoint, s.length, first)
    requires trace != [] && LifeCycle(trace) && Reached(trace, first) == Some(next)
    requires left ==> !trace[|trace| - 1].Shutdown?
    ensures IsLife(cache, poll, s, id, w, trace, first, next, left)
  {
    var u := OpeningSteps(cache, poll, s, id, w, trace, first, next);
    var t := CallbacksAreSteps(cache, poll, u, id, w, trace, first, next);
    var opening := Opening(id, Beyond(s, next), Ending(trace) == Some(TERMINATE));
    StepsAppend(cache, poll, s, opening, CallbackOps(id, trace));
    LifeCycleMeaning(trace);
    if left {
      StepsThen(cache, poll, s, opening + CallbackOps(id, trace), t, StopConsumer(id));
    } else {
      assert opening + CallbackOps(id, trace) + [] == opening + CallbackOps(id, trace);
    }
  }

  /** On every stream that a consumer with this configuration and checkpoint can find itself on,
      its life is a run. */
  ghost predicate LivesAnywhere(initial: InitialPosition, checkpoint: Position, poll: Wait, latest: nat,
                                trace: seq<Callback>, first: nat, next: nat, left: bool)
    requires trace != []
  {
    forall cache: map<WorkerId, Cached>, s: StreamState, id: nat, w: WorkerId ::
      Hosts(cache, poll, s, id, w, latest, trace, next) && s.initial == initial && cache[w].checkpoint == checkpoint ==>
        IsLife(cache, poll, s, id, w, trace, first, next, left)
  }

  lemma AllLives(initial: InitialPosition, checkpoint: Position, poll: Wait, latest: nat, trace: seq<Callback>,
                 first: nat, next: nat, left: bool)
    requires trace != [] && LifeCycle(trace) && Reached(trace, first) == Some(next)
    requires StartsAt(initial, checkpoint, latest, first)
    requires left ==> !trace[|trace| - 1].Shutdown?
    ensures LivesAnywhere(initial, checkpoint, poll, latest, trace, first, next, left)
  {
    forall cache: map<WorkerId, Cached>, s: StreamState, id: nat, w: WorkerId |
      Hosts(cache, poll, s, id, w, latest, trace, next) && s.initial == initial && cache[w].checkpoint == checkpoint
      ensures IsLife(cache, poll, s, id, w, trace, first, next, left)
    {
      LifeIsRun(cache, poll, s, id, w, trace, first, next, left);
    }
  }

  /** The polling consumer, on whatever stream it finds. */
  method PollingIsRun(consumer: ShardConsumer, polls: seq<ParentPoll>, fetch: Reply, latest: nat, connected: bool,
                      turns: seq<PollTurn>, release: Reply)
    returns (r: Run, ghost first: Option<nat>, ghost next: nat, ghost wait: Option<Wait>)
    requires consumer.trace == []
    modifies consumer, consumer.shard, consumer.limiter, consumer.checkpointer.table
    ensures first.Some? <==> consumer.trace != []
    ensures first.Some? ==> wait.Some? && consumer.trace[0] == Initialize(consumer.shard.checkpoint)
    ensures first.Some? ==>
              LivesAnywhere(consumer.initialPosition, consumer.shard.checkpoint, wait.value, latest, consumer.trace,
                            first.value, next, r.Exited? && !consumer.trace[|consumer.trace| - 1].Shutdown?)
  {
    ghost var asked;
    r, first, next, wait, asked := consumer.PollingGetRecords(polls, fetch, latest, connected, turns, release);
    if first.Some? {
      AllLives(consumer.initialPosition, consumer.shard.checkpoint, wait.value, latest, consumer.trace, first.value,
               next, r.Exited? && !consumer.trace[|consumer.trace| - 1].Shutdown?);
    }
  }

  /** The fan-out consumer, on whatever stream it finds. */
  method FanOutIsRun(consumer: ShardConsumer, polls: seq<ParentPoll>, fetch: Reply, latest: nat, connected: bool,
                     turns: seq<FanOutTurn>, release: Reply)
    returns (r: Run, ghost first: Option<nat>, ghost next: nat, ghost wait: Option<Wait>)
    requires consumer.trace == []
    modifies consumer, consumer.shard, consumer.checkpointer.table
    ensures first.Some? <==> consumer.trace != []
    ensures first.Some? ==> wait.Some? && consumer.trace[0] == Initialize(consumer.shard.checkpoint)
    ensures first.Some? ==>
              LivesAnywhere(consumer.initialPosition, consumer.shard.checkpoint, wait.value, latest, consumer.trace,
                            first.value, next, r.Exited? && !consumer.trace[|consumer.trace| - 1].Shutdown?)
  {
    ghost var taken;
    r, first, next, wait, taken := consumer.FanOutGetRecords(polls, fetch, latest, connected, turns, release);
    if first.Some? {
      AllLives(consumer.initialPosition, consumer.shard.checkpoint, wait.value, latest, consumer.trace, first.value,
               next, r.Exited? && !consumer.trace[|consumer.trace| - 1].Shutdown?);
    }
  }
}
