/** The polling consumer's rate limiter: a capped bucket of bytes, debited one call late, and a
    window of calls per second. */
module RateLimit {
  import opened LeaseTypes

  const SECOND := 1_000_000_000
  const READ_TPS_LIMIT := 5
  const MAX_BYTES := 10_000_000
  const MAX_BYTES_PER_SECOND := 2_000_000
  const NANOS_PER_BYTE := 500

  /** The limiter's fields in a PollingShardConsumer. */
  datatype Bucket = Bucket(currTime: Time, callsLeft: int, remBytes: int, lastCheckTime: Time, bytesRead: nat)

  /** The readings of the clock during one call, in order. */
  datatype Clock = Clock(check: Time, since: Time, reset: Time, issued: Time, done: Time)

  /** What Kinesis answers: the sizes of the records, or an error. */
  datatype Response = Records(sizes: seq<nat>) | ServiceError

  datatype Outcome =
    | BytesExceeded(coolDown: nat)   // refused locally, with the seconds to sleep
    | CallsExceeded                  // refused locally: sleep until the window is a second old
    | CallFailed                     // GetRecords was called and failed
    | Got(bytes: nat)

  predicate Refused(o: Outcome) {
    o.BytesExceeded? || o.CallsExceeded?
  }

  function Bytes(sizes: seq<nat>): nat {
    if sizes == [] then 0 else Bytes(sizes[..|sizes| - 1]) + sizes[|sizes| - 1]
  }

  /** Bytes adds up the sizes: a part at a time, down to single records. */
  lemma {:induction false} BytesAdd(a: seq<nat>, b: seq<nat>)
    ensures Bytes(a + b) == Bytes(a) + Bytes(b)
    ensures |b| == 1 ==> Bytes(b) == b[0]
    ensures b == [] ==> Bytes(b) == 0
  {
    if b == [] {
      assert a + b == a;
    } else {
      var c := b[..|b| - 1];
      BytesAdd(a, c);
      assert (a + b)[..|a + b| - 1] == a + c;
    }
  }

  /** int(seconds * MaxBytesPerSecond): truncated toward zero. */
  function Credit(elapsed: Time): int {
    if 0 <= elapsed then elapsed / NANOS_PER_BYTE else -(-elapsed / NANOS_PER_BYTE)
  }

  function SecondsFor(bytes: nat): nat {
    bytes / MAX_BYTES_PER_SECOND + if bytes % MAX_BYTES_PER_SECOND > 0 then 1 else 0
  }

  function Refilled(b: Bucket, now: Time): Bucket {
    var filled := b.remBytes + Credit(now - b.lastCheckTime);
    b.(lastCheckTime := now, remBytes := if filled > MAX_BYTES then MAX_BYTES else filled)
  }

  /** checkCoolOffPeriod: refill, then debit the previous response if anything is left. */
  function CoolOff(b: Bucket, now: Time): (Bucket, Option<nat>) {
    var r := Refilled(b, now);
    if r.remBytes < 1 then (r, Some(SecondsFor(b.bytesRead)))
    else (r.(remBytes := r.remBytes - b.bytesRead), None)
  }

  function Windowed(b: Bucket, c: Clock): Bucket {
    if c.since - b.currTime > SECOND then b.(callsLeft := READ_TPS_LIMIT, currTime := c.reset) else b
  }

  /** callGetRecordsAPI. */
  function Call(b: Bucket, c: Clock, response: Response): (Bucket, Outcome) {
    var (checked, coolDown) := if b.bytesRead != 0 then CoolOff(b, c.check) else (b, None);
    if coolDown.Some? then (checked, BytesExceeded(coolDown.value))
    else
      var w := Windowed(checked, c);
      if w.callsLeft < 1 then (w, CallsExceeded)
      else if response.ServiceError? then (w.(callsLeft := w.callsLeft - 1), CallFailed)
      else
        (w.(callsLeft := w.callsLeft - 1, bytesRead := Bytes(response.sizes),
            lastCheckTime := if w.lastCheckTime == ZERO_TIME then c.done else w.lastCheckTime),
         Got(Bytes(response.sizes)))
  }

  /** 2,000,000 bytes a second, truncated toward zero. */
  function BytesEarned(elapsed: Time): int {
    if 0 <= elapsed then elapsed * 2_000_000 / 1_000_000_000 else -(-elapsed * 2_000_000 / 1_000_000_000)
  }

  lemma CreditIsEarned(elapsed: Time)
    ensures Credit(elapsed) == BytesEarned(elapsed)
    ensures 0 <= elapsed ==> elapsed / NANOS_PER_BYTE == elapsed * 2_000_000 / 1_000_000_000
  {
    assert NANOS_PER_BYTE == 500;
    assert elapsed * 2_000_000 == 4_000 * (500 * elapsed);
  }

  /** When a call is refused, for which reason, and what it leaves of the window: the bytes are out
      if the bucket, filled at 2,000,000 a second, holds none after a response; the calls are out
      if all five of a window no more than a second old are used up. */
  lemma CallMeaning(b: Bucket, c: Clock, response: Response)
    ensures var (after, o) := Call(b, c, response);
            var broke := b.bytesRead != 0 && b.remBytes + BytesEarned(c.check - b.lastCheckTime) < 1;
            var reopens := c.since - b.currTime > 1_000_000_000;
            && (o.BytesExceeded? <==> broke)
            && (o.BytesExceeded? ==> b.bytesRead <= 2_000_000 * o.coolDown < b.bytesRead + 2_000_000)
            && (o.CallsExceeded? <==> !broke && !reopens && b.callsLeft < 1)
            && (o.CallFailed? <==> !o.BytesExceeded? && !o.CallsExceeded? && response.ServiceError?)
            && after.currTime == (if !broke && reopens then c.reset else b.currTime)
            && after.callsLeft + (if Refused(o) then 0 else 1) == (if !broke && reopens then 5 else b.callsLeft)
            && (o.Got? ==> response.Records? && o.bytes == Bytes(response.sizes))
            && after.bytesRead == (if o.Got? then o.bytes else b.bytesRead)
            && (b.bytesRead == 0 ==> after.remBytes == b.remBytes)
            && (b.bytesRead != 0 ==>
                  var filled := b.remBytes + BytesEarned(c.check - b.lastCheckTime);
                  after.remBytes == (if filled > 10_000_000 then 10_000_000 else filled)
                                    - (if broke then 0 else b.bytesRead))
            && var checked := if b.bytesRead != 0 then c.check else b.lastCheckTime;
               after.lastCheckTime == if o.Got? && checked == 0 then c.done else checked
  {
    CreditIsEarned(c.check - b.lastCheckTime);
  }

  class PollingShardConsumer {
    var currTime: Time
    var callsLeft: int
    var remBytes: int
    var lastCheckTime: Time
    var bytesRead: nat
    ghost var asked: seq<bool>   // for each call so far, whether it got through to Kinesis

    function View(): Bucket
      reads this
    {
      Bucket(currTime, callsLeft, remBytes, lastCheckTime, bytesRead)
    }

    /** The limiter as getRecords sets it up. */
    constructor (now: Time)
      ensures View() == NewBucket(now) && asked == []
      ensures currTime == now && callsLeft == 5 && remBytes == 10_000_000 && bytesRead == 0 && lastCheckTime == 0
    {
      asked := [];
      currTime, callsLeft, bytesRead, remBytes, lastCheckTime := now, READ_TPS_LIMIT, 0, MAX_BYTES, ZERO_TIME;
    }

    method CheckCoolOffPeriod(now: Time) returns (coolDown: Option<nat>)
      modifies this`lastCheckTime, this`remBytes
      ensures (View(), coolDown) == CoolOff(old(View()), now)
      // 2,000,000 bytes for each second, up to ten million, then the debit, if at least one is left
      ensures var filled := old(remBytes) + BytesEarned(now - old(lastCheckTime));
              && (coolDown.Some? <==> filled < 1)
              && remBytes == if filled < 1 then filled
                             else (if filled > 10_000_000 then 10_000_000 else filled) - bytesRead
      // a refusal lasts as many whole seconds as the previous response is worth
      ensures coolDown.Some? ==> bytesRead <= 2_000_000 * coolDown.value < bytesRead + 2_000_000
      ensures lastCheckTime == now
    {
      var elapsed := now - lastCheckTime;
      CreditIsEarned(elapsed);
      lastCheckTime := now;
      remBytes := remBytes + Credit(elapsed);
      if remBytes > MAX_BYTES {
        remBytes := MAX_BYTES;
      }
      if remBytes < 1 {
        var seconds := bytesRead / MAX_BYTES_PER_SECOND;
        if bytesRead % MAX_BYTES_PER_SECOND > 0 {
          seconds := seconds + 1;
        }
        return Some(seconds);
      }
      remBytes := remBytes - bytesRead;
      return None;
    }

    /** Adds up the sizes of the records. */
    method CountBytes(sizes: seq<nat>) returns (bytes: nat)
      ensures bytes == Bytes(sizes)
    {
      bytes := 0;
      var i := 0;
      while i < |sizes|
        invariant 0 <= i <= |sizes|
        invariant bytes == Bytes(sizes[..i])
      {
        assert sizes[..i + 1][..i] == sizes[..i];
        bytes := bytes + sizes[i];
        i := i + 1;
      }
      assert sizes[..i] == sizes;
    }

    method CallGetRecordsAPI(c: Clock, response: Response) returns (o: Outcome)
      modifies this
      ensures (View(), o) == Call(old(View()), c, response)
      ensures asked == old(asked) + [!Refused(o)]
    {
      asked := asked + [false];
      if bytesRead != 0 {
        var coolDown := CheckCoolOffPeriod(c.check);
        if coolDown.Some? {
          return BytesExceeded(coolDown.value);
        }
      }
      if c.since - currTime > SECOND {
        callsLeft := READ_TPS_LIMIT;
        currTime := c.reset;
      }
      if callsLeft < 1 {
        return CallsExceeded;
      }
      callsLeft := callsLeft - 1;
      asked := asked[|asked| - 1 := true];
      if response.ServiceError? {
        return CallFailed;
      }
      bytesRead := CountBytes(response.sizes);
      if lastCheckTime == ZERO_TIME {
        lastCheckTime := c.done;
      }
      return Got(bytesRead);
    }
  }

  // ----- Runs -----

  function NewBucket(now: Time): Bucket {
    Bucket(now, READ_TPS_LIMIT, MAX_BYTES, ZERO_TIME, 0)
  }

  datatype Event = Event(clock: Clock, response: Response)

  /** What a meter beside the consumer records: the time, the bytes returned in all, the last two
      non-empty responses, when the first response came, the sizes of all responses, and when
      calls were issued. */
  datatype Meter = Meter(bucket: Bucket, now: Time, total: nat, last: nat, previous: nat, first: Time,
                         responses: seq<nat>, calls: seq<Time>)

  function OutcomeOf(m: Meter, e: Event): Outcome {
    Call(m.bucket, e.clock, e.response).1
  }

  function Metered(m: Meter, e: Event): Meter {
    var (b, o) := Call(m.bucket, e.clock, e.response);
    var calls := if Refused(o) then m.calls else m.calls + [e.clock.issued];
    if !o.Got? then
      m.(bucket := b, now := e.clock.done, calls := calls)
    else
      Meter(b, e.clock.done, m.total + o.bytes,
            if o.bytes > 0 then o.bytes else m.last, if o.bytes > 0 then m.last else m.previous,
            if m.first == ZERO_TIME then e.clock.done else m.first, m.responses + [o.bytes], calls)
  }

  predicate InOrder(c: Clock) {
    c.check <= c.since <= c.reset <= c.issued <= c.done
  }

  function NewMeter(start: Time): Meter {
    Meter(NewBucket(start), start, 0, 0, 0, ZERO_TIME, [], [])
  }

  /** A run of callGetRecordsAPI under a clock that does not go back. */
  predicate IsRun(start: Time, meters: seq<Meter>, events: seq<Event>) {
    && |meters| == |events| + 1
    && ZERO_TIME < start && meters[0] == NewMeter(start)
    && forall i :: 0 <= i < |events| ==> Follows(meters[i], events[i], meters[i + 1])
  }

  predicate Follows(m: Meter, e: Event, next: Meter) {
    InOrder(e.clock) && m.now <= e.clock.check && next == Metered(m, e)
  }

  // ----- The byte-rate bound -----

  function Earned(m: Meter): int {
    if m.first == ZERO_TIME then 0 else (m.bucket.lastCheckTime - m.first) / NANOS_PER_BYTE
  }

  /** Either every response has been debited, or all but the last non-empty one. */
  predicate Accounted(m: Meter) {
    || (m.total <= MAX_BYTES + Earned(m) - m.bucket.remBytes && 1 - m.last <= m.bucket.remBytes)
    || (&& m.bucket.bytesRead == m.last
        && m.total - m.last <= MAX_BYTES + Earned(m) - m.bucket.remBytes && 1 - m.previous <= m.bucket.remBytes)
  }

  predicate Sound(m: Meter) {
    && Accounted(m)
    && m.bucket.remBytes <= MAX_BYTES
    && (m.bucket.bytesRead != 0 ==> m.bucket.bytesRead == m.last && m.first != ZERO_TIME)
    && (m.bucket.bytesRead == 0 ==>
          m.total <= MAX_BYTES + Earned(m) - m.bucket.remBytes && 1 - m.last <= m.bucket.remBytes)
    && (m.first == ZERO_TIME <==> m.bucket.lastCheckTime == ZERO_TIME)
    && (m.first == ZERO_TIME ==> m.total == 0 && m.bucket.bytesRead == 0)
    && (m.first != ZERO_TIME ==> 0 < m.first <= m.bucket.lastCheckTime <= m.now)
    && 0 < m.now
  }

  lemma CreditsAdd(a: Time, b: Time)
    requires 0 <= a && 0 <= b
    ensures a / NANOS_PER_BYTE + b / NANOS_PER_BYTE <= (a + b) / NANOS_PER_BYTE
  {
  }

  lemma EarnedByNow(first: Time, checked: Time, now: Time)
    requires first <= checked <= now
    ensures (checked - first) / NANOS_PER_BYTE <= (now - first) * 2_000_000 / 1_000_000_000
  {
    CreditsAdd(checked - first, now - checked);
    CreditIsEarned(now - first);
  }

  lemma CallKeepsSound(m: Meter, e: Event)
    requires Sound(m) && InOrder(e.clock) && m.now <= e.clock.check
    ensures Sound(Metered(m, e))
  {
    if m.first != ZERO_TIME {
      CreditsAdd(m.bucket.lastCheckTime - m.first, e.clock.check - m.bucket.lastCheckTime);
    }
  }

  lemma {:induction false} RunsAreSound(start: Time, meters: seq<Meter>, events: seq<Event>, i: nat)
    requires IsRun(start, meters, events) && i < |meters|
    ensures Sound(meters[i])
  {
    if i > 0 {
      RunsAreSound(start, meters, events, i - 1);
      assert Follows(meters[i - 1], events[i - 1], meters[i]);
      CallKeepsSound(meters[i - 1], events[i - 1]);
    }
  }

  /** The byte-rate bound: at any point of a run, the bytes returned so far are at most
      MaxBytes - 1, plus 2,000,000 for each second since the first response, plus the last two
      non-empty responses; although debits come one call late, and come again after a refusal
      or an error. */
  lemma BytesAreBounded(start: Time, meters: seq<Meter>, events: seq<Event>, i: nat)
    requires IsRun(start, meters, events) && i < |meters|
    ensures var m := meters[i];
            m.total <= 9_999_999 + m.last + m.previous +
              if m.first == 0 then 0 else (m.now - m.first) * 2_000_000 / 1_000_000_000
  {
    RunsAreSound(start, meters, events, i);
    var m := meters[i];
    if m.first != ZERO_TIME {
      EarnedByNow(m.first, m.bucket.lastCheckTime, m.now);
    }
  }

  /** How the recorded responses sit with the limiter's state. */
  predicate Recent(m: Meter) {
    var n := |m.responses|;
    && (n == 0 ==> m.total == 0)
    && (n == 1 ==> m.total == m.responses[0])
    && (n > 0 ==> m.bucket.bytesRead == m.responses[n - 1])
    && (n > 0 && m.responses[n - 1] > 0 ==> m.last == m.responses[n - 1])
    && (n > 1 && m.responses[n - 2] > 0 ==>
          m.responses[n - 2] == if m.responses[n - 1] > 0 then m.previous else m.last)
  }

  lemma CallKeepsRecent(m: Meter, e: Event)
    requires Recent(m)
    ensures Recent(Metered(m, e))
  {
    var next := Metered(m, e);
    if OutcomeOf(m, e).Got? {
      assert next.responses == m.responses + [OutcomeOf(m, e).bytes];
      assert next.bucket.bytesRead == OutcomeOf(m, e).bytes;
    } else {
      assert next.responses == m.responses && next.bucket.bytesRead == m.bucket.bytesRead;
    }
  }

  lemma {:induction false} RunsAreRecent(start: Time, meters: seq<Meter>, events: seq<Event>, i: nat)
    requires IsRun(start, meters, events) && i < |meters|
    ensures Recent(meters[i])
  {
    if i > 0 {
      RunsAreRecent(start, meters, events, i - 1);
      assert Follows(meters[i - 1], events[i - 1], meters[i]);
      CallKeepsRecent(meters[i - 1], events[i - 1]);
    }
  }

  /** The size of the response k before the latest, 0 if there is none. */
  function SizeOf(m: Meter, k: nat): nat {
    if k < |m.responses| then m.responses[|m.responses| - 1 - k] else 0
  }

  /** With the last two responses of whatever size the bound holds whenever the last but one is
      not empty: whatever the last one is, and if there are fewer than two. */
  lemma LastTwoResponsesBound(start: Time, meters: seq<Meter>, events: seq<Event>, i: nat)
    requires IsRun(start, meters, events) && i < |meters|
    requires |meters[i].responses| < 2 || SizeOf(meters[i], 1) > 0
    ensures var m := meters[i];
            m.total <= 9_999_999 + SizeOf(m, 0) + SizeOf(m, 1) +
              if m.first == 0 then 0 else (m.now - m.first) * 2_000_000 / 1_000_000_000
  {
    BytesAreBounded(start, meters, events, i);
    RunsAreRecent(start, meters, events, i);
    RunsAreSound(start, meters, events, i);
    var m := meters[i];
    if m.first != ZERO_TIME {
      EarnedByNow(m.first, m.bucket.lastCheckTime, m.now);
    }
  }

  /** When the last but one response is empty, the last two do not do: an empty response between
      two full ones lets a third full one through before any debit. */
  lemma EmptyResponseSkipsDebit() returns (meters: seq<Meter>, events: seq<Event>)
    ensures IsRun(1, meters, events) && |events| == 4
    ensures |meters[4].responses| == 4 && SizeOf(meters[4], 1) == 0
    ensures meters[4].total > 9_999_999 + SizeOf(meters[4], 0) + SizeOf(meters[4], 1) +
                              (meters[4].now - meters[4].first) * 2_000_000 / 1_000_000_000
  {
    var c := Clock(1, 1, 1, 1, 1);
    var most, full, none := Event(c, Records([MAX_BYTES - 1])), Event(c, Records([MAX_BYTES])), Event(c, Records([]));
    events := [most, full, none, full];
    var m0 := NewMeter(1);
    var m1 := Metered(m0, most);
    var m2 := Metered(m1, full);
    var m3 := Metered(m2, none);
    var m4 := Metered(m3, full);
    meters := [m0, m1, m2, m3, m4];
    assert Bytes([MAX_BYTES - 1]) == Bytes([]) + (MAX_BYTES - 1) && Bytes([MAX_BYTES]) == Bytes([]) + MAX_BYTES;
    assert m1.bucket == Bucket(1, 4, MAX_BYTES, 1, MAX_BYTES - 1);
    assert m2.bucket == Bucket(1, 3, 1, 1, MAX_BYTES);
    assert m3.bucket == Bucket(1, 2, 1 - MAX_BYTES, 1, 0);
    assert m4.responses == [MAX_BYTES - 1, MAX_BYTES, 0, MAX_BYTES];
  }

  // ----- Progress of the retry loop -----

  /** No response is larger than most. */
  predicate AtMost(events: seq<Event>, most: nat) {
    forall i :: 0 <= i < |events| && events[i].response.Records? ==> Bytes(events[i].response.sizes) <= most
  }

  lemma CallKeepsBucket(m: Meter, e: Event, most: nat)
    requires Sound(m) && InOrder(e.clock) && m.now <= e.clock.check
    requires e.response.Records? ==> Bytes(e.response.sizes) <= most
    requires 1 - most <= m.bucket.remBytes <= MAX_BYTES && m.bucket.bytesRead <= most
    ensures var b := Metered(m, e).bucket;
            1 - most <= b.remBytes <= MAX_BYTES && b.bytesRead <= most
  {
  }

  /** The bucket never runs further down than the largest response, nor above its cap. */
  lemma {:induction false} BucketBetween(start: Time, meters: seq<Meter>, events: seq<Event>, most: nat, i: nat)
    requires IsRun(start, meters, events) && AtMost(events, most) && i < |meters|
    ensures 1 - most <= meters[i].bucket.remBytes <= 10_000_000 && meters[i].bucket.bytesRead <= most
  {
    if i > 0 {
      BucketBetween(start, meters, events, most, i - 1);
      RunsAreSound(start, meters, events, i - 1);
      assert Follows(meters[i - 1], events[i - 1], meters[i]);
      CallKeepsBucket(meters[i - 1], events[i - 1], most);
    }
  }

  /** How long getRecords sleeps after a local refusal; the next call starts later than that. */
  function WakeUp(m: Meter, e: Event): Time
    requires Refused(OutcomeOf(m, e))
  {
    match OutcomeOf(m, e)
    case BytesExceeded(coolDown) => e.clock.check + coolDown * SECOND
    case CallsExceeded => Metered(m, e).bucket.currTime + SECOND
  }

  /** Calls i up to, not including, j were all refused locally, and each sleep was honoured. */
  predicate RefusedStretch(meters: seq<Meter>, events: seq<Event>, i: nat, j: nat)
    requires |meters| == |events| + 1
  {
    && i <= j <= |events|
    && (forall k :: i <= k < j ==> Refused(OutcomeOf(meters[k], events[k])))
    && (forall k :: i <= k < j - 1 ==> WakeUp(meters[k], events[k]) < events[k + 1].clock.check)
  }

  function CeilSeconds(bytes: int): nat {
    if bytes <= 0 then 0 else SecondsFor(bytes)
  }

  lemma CeilStep(bytes: int)
    ensures CeilSeconds(bytes) <= 1 + CeilSeconds(bytes - MAX_BYTES_PER_SECOND)
    ensures bytes > 0 ==> CeilSeconds(bytes) == 1 + CeilSeconds(bytes - MAX_BYTES_PER_SECOND)
  {
  }

  lemma CeilMonotone(a: int, b: int)
    requires a <= b
    ensures CeilSeconds(a) <= CeilSeconds(b)
  {
  }

  lemma {:induction false} WindowStarted(start: Time, meters: seq<Meter>, events: seq<Event>, i: nat)
    requires IsRun(start, meters, events) && i < |meters|
    ensures meters[i].bucket.currTime <= meters[i].now
  {
    if i > 0 {
      WindowStarted(start, meters, events, i - 1);
      assert Follows(meters[i - 1], events[i - 1], meters[i]);
    }
  }

  /** A call that starts more than a second into the window is not refused for its call count. */
  lemma OldWindowReopens(m: Meter, e: Event)
    requires InOrder(e.clock) && m.bucket.currTime + SECOND < e.clock.check
    ensures !OutcomeOf(m, e).CallsExceeded?
  {
  }

  /** After a byte refusal the sleep earns at least a second's worth of bytes. */
  lemma SleepEarns(m: Meter, e: Event, f: Event)
    requires OutcomeOf(m, e).BytesExceeded? && WakeUp(m, e) < f.clock.check
    requires OutcomeOf(Metered(m, e), f).BytesExceeded?
    ensures var r := Metered(m, e).bucket.remBytes;
            r < 1 && r + MAX_BYTES_PER_SECOND <= Metered(Metered(m, e), f).bucket.remBytes < 1
  {
    var b := Metered(m, e).bucket;
    assert b.lastCheckTime == e.clock.check;
    assert SecondsFor(m.bucket.bytesRead) >= 1;
    assert Credit(f.clock.check - b.lastCheckTime) >= MAX_BYTES_PER_SECOND;
  }

  /** The call after a byte refusal is not refused for its count, and one more byte refusal finds
      a second's worth of bytes more in the bucket. */
  lemma NextRefusal(start: Time, meters: seq<Meter>, events: seq<Event>, i: nat)
    requires IsRun(start, meters, events) && i + 1 < |events|
    requires OutcomeOf(meters[i], events[i]).BytesExceeded? && Refused(OutcomeOf(meters[i + 1], events[i + 1]))
    requires WakeUp(meters[i], events[i]) < events[i + 1].clock.check
    ensures OutcomeOf(meters[i + 1], events[i + 1]).BytesExceeded?
    ensures meters[i + 1].bucket.remBytes < 1
    ensures meters[i + 1].bucket.remBytes + MAX_BYTES_PER_SECOND <= meters[i + 2].bucket.remBytes
  {
    assert Follows(meters[i], events[i], meters[i + 1]);
    assert Follows(meters[i + 1], events[i + 1], meters[i + 2]);
    WindowStarted(start, meters, events, i);
    assert SecondsFor(meters[i].bucket.bytesRead) >= 1;
    OldWindowReopens(meters[i + 1], events[i + 1]);
    SleepEarns(meters[i], events[i], events[i + 1]);
  }

  lemma {:induction false} ByteRefusalsBounded(start: Time, meters: seq<Meter>, events: seq<Event>, i: nat, j: nat)
    requires IsRun(start, meters, events) && RefusedStretch(meters, events, i, j)
    requires i < j && OutcomeOf(meters[i], events[i]).BytesExceeded?
    ensures j - i <= CeilSeconds(1 - meters[i + 1].bucket.remBytes)
    decreases j - i
  {
    var r := meters[i + 1].bucket.remBytes;
    CeilStep(1 - r);
    if i + 1 < j {
      NextRefusal(start, meters, events, i);
      ByteRefusalsBounded(start, meters, events, i + 1, j);
      CeilMonotone(1 - meters[i + 2].bucket.remBytes, 1 - r - MAX_BYTES_PER_SECOND);
    } else {
      assert Follows(meters[i], events[i], meters[i + 1]);
    }
  }

  /** The retry loop makes progress: however the calls fall, at most 1 + ceil(most / 2,000,000)
      local refusals in a row come between two real GetRecords calls. */
  lemma RefusalsAreBounded(start: Time, meters: seq<Meter>, events: seq<Event>, most: nat, i: nat, j: nat)
    requires IsRun(start, meters, events) && AtMost(events, most) && RefusedStretch(meters, events, i, j)
    ensures j - i <= 1 + (most + 1_999_999) / 2_000_000
  {
    if i < j {
      var k := if OutcomeOf(meters[i], events[i]).BytesExceeded? then i else i + 1;
      if k < j {
        if k == i + 1 {
          OldWindowReopens(meters[k], events[k]);
        }
        ByteRefusalsBounded(start, meters, events, k, j);
        BucketBetween(start, meters, events, most, k + 1);
        CeilMonotone(1 - meters[k + 1].bucket.remBytes, most);
      }
    }
  }

  // ----- The call-rate bound -----

  /** The windows opened so far, when each began, and the window each call fell in. */
  datatype Log = Log(windows: seq<Time>, windowOf: seq<nat>)

  predicate Logs(now: Time, currTime: Time, callsLeft: int, calls: seq<Time>, log: Log) {
    && |log.windowOf| == |calls| && |log.windows| > 0
    && log.windows[|log.windows| - 1] == currTime <= now
    && 0 <= callsLeft <= READ_TPS_LIMIT
    && (forall k :: 0 < k < |log.windows| ==> log.windows[k - 1] + SECOND < log.windows[k])
    && (forall c :: 0 <= c < |calls| ==>
          && log.windowOf[c] < |log.windows| && log.windows[log.windowOf[c]] <= calls[c] <= now
          && (log.windowOf[c] + 1 < |log.windows| ==> calls[c] <= log.windows[log.windowOf[c] + 1]))
    && (forall c, d :: 0 <= c < d < |calls| ==>
          log.windowOf[c] + (if c + READ_TPS_LIMIT <= d then 1 else 0) <= log.windowOf[d])
    // the calls of the current window are exactly those it has used up
    && READ_TPS_LIMIT - callsLeft <= |calls|
    && (forall c :: 0 <= c < |calls| ==>
          (log.windowOf[c] == |log.windows| - 1 <==> |calls| - (READ_TPS_LIMIT - callsLeft) <= c))
  }

  /** A new window opens, more than a second after the last. */
  lemma WindowOpens(now: Time, currTime: Time, callsLeft: int, calls: seq<Time>, log: Log, reset: Time)
    requires Logs(now, currTime, callsLeft, calls, log) && now <= reset && currTime + SECOND < reset
    ensures Logs(reset, reset, READ_TPS_LIMIT, calls, log.(windows := log.windows + [reset]))
  {
  }

  /** A call is issued in the current window. */
  lemma CallIssued(now: Time, currTime: Time, callsLeft: int, calls: seq<Time>, log: Log, issued: Time)
    requires Logs(now, currTime, callsLeft, calls, log) && now <= issued && callsLeft > 0
    ensures Logs(issued, currTime, callsLeft - 1, calls + [issued],
                 log.(windowOf := log.windowOf + [|log.windows| - 1]))
  {
  }

  lemma TimePasses(now: Time, currTime: Time, callsLeft: int, calls: seq<Time>, log: Log, later: Time)
    requires Logs(now, currTime, callsLeft, calls, log) && now <= later
    ensures Logs(later, currTime, callsLeft, calls, log)
  {
  }

  /** What one call does to the window. */
  lemma CallInWindow(m: Meter, e: Event)
    requires InOrder(e.clock)
    ensures var b, n := m.bucket, Metered(m, e);
            var opens := n.bucket.currTime != b.currTime;
            var left := if opens then READ_TPS_LIMIT else b.callsLeft;
            && (opens ==> n.bucket.currTime == e.clock.reset && b.currTime + SECOND < e.clock.reset)
            && (if n.calls == m.calls then n.bucket.callsLeft == left
                else n.calls == m.calls + [e.clock.issued] && 0 < left == n.bucket.callsLeft + 1)
  {
    assert |m.calls + [e.clock.issued]| == |m.calls| + 1;
  }

  lemma CallKeepsLog(now: Time, m: Meter, e: Event, log: Log) returns (next: Log)
    requires Logs(now, m.bucket.currTime, m.bucket.callsLeft, m.calls, log) && InOrder(e.clock) && now <= e.clock.check
    ensures var n := Metered(m, e);
            Logs(e.clock.done, n.bucket.currTime, n.bucket.callsLeft, n.calls, next)
    ensures next.windows[0] == log.windows[0]
  {
    var n := Metered(m, e);
    CallInWindow(m, e);
    var t, left := now, m.bucket.callsLeft;
    next := log;
    if n.bucket.currTime != m.bucket.currTime {
      WindowOpens(t, m.bucket.currTime, left, m.calls, next, e.clock.reset);
      t, left, next := e.clock.reset, READ_TPS_LIMIT, next.(windows := next.windows + [e.clock.reset]);
    }
    if n.calls != m.calls {
      CallIssued(t, n.bucket.currTime, left, m.calls, next, e.clock.issued);
      t, left, next := e.clock.issued, left - 1, next.(windowOf := next.windowOf + [|next.windows| - 1]);
    }
    TimePasses(t, n.bucket.currTime, left, n.calls, next, e.clock.done);
  }

  lemma {:induction false} RunsAreLogged(start: Time, meters: seq<Meter>, events: seq<Event>, i: nat) returns (log: Log)
    requires IsRun(start, meters, events) && i < |meters|
    ensures var m := meters[i];
            Logs(meters[i].now, m.bucket.currTime, m.bucket.callsLeft, m.calls, log)
    ensures log.windows[0] == start
  {
    if i == 0 {
      log := Log([start], []);
    } else {
      log := RunsAreLogged(start, meters, events, i - 1);
      assert Follows(meters[i - 1], events[i - 1], meters[i]);
      log := CallKeepsLog(meters[i - 1].now, meters[i - 1], events[i - 1], log);
    }
  }

  lemma {:induction false} WindowsApart(windows: seq<Time>, a: nat, b: nat)
    requires forall k :: 0 < k < |windows| ==> windows[k - 1] + SECOND < windows[k]
    requires a < b < |windows|
    ensures windows[a] + (b - a) * SECOND < windows[b]
  {
    if a + 1 < b {
      WindowsApart(windows, a, b - 1);
    }
  }

  lemma {:induction false} WindowsAdvance(now: Time, m: Meter, log: Log, c: nat, d: nat, k: nat)
    requires Logs(now, m.bucket.currTime, m.bucket.callsLeft, m.calls, log)
    requires c < d < |m.calls| && c + READ_TPS_LIMIT * k <= d
    ensures log.windowOf[c] + k <= log.windowOf[d]
    decreases k
  {
    if k > 0 {
      if c + READ_TPS_LIMIT < d {
        WindowsAdvance(now, m, log, c + READ_TPS_LIMIT, d, k - 1);
      }
      assert log.windowOf[c] + 1 <= log.windowOf[c + READ_TPS_LIMIT];
    }
  }

  /** The call-rate bound: two GetRecords calls that are 5 * (k + 1) calls apart are issued more
      than k seconds apart. */
  lemma CallsAreSpaced(start: Time, meters: seq<Meter>, events: seq<Event>, i: nat, c: nat, d: nat, k: nat)
    requires IsRun(start, meters, events) && i < |meters|
    requires d < |meters[i].calls| && c + 5 * (k + 1) <= d
    ensures meters[i].calls[c] + k * 1_000_000_000 <= meters[i].calls[d]
    ensures k > 0 ==> meters[i].calls[c] + k * 1_000_000_000 < meters[i].calls[d]
  {
    var m := meters[i];
    var log := RunsAreLogged(start, meters, events, i);
    WindowsAdvance(meters[i].now, m, log, c, d, k + 1);
    var a, b := log.windowOf[c] + 1, log.windowOf[d];
    assert m.calls[c] <= log.windows[a];
    if a < b {
      WindowsApart(log.windows, a, b);
    }
  }

  /** A call is refused for its count only if five calls were issued in the second before it. */
  lemma RefusedAfterFive(start: Time, meters: seq<Meter>, events: seq<Event>, i: nat)
    requires IsRun(start, meters, events) && i < |events|
    requires OutcomeOf(meters[i], events[i]).CallsExceeded?
    ensures var calls := meters[i].calls;
            |calls| >= 5 && events[i].clock.since - calls[|calls| - 5] <= 1_000_000_000
  {
    var log := RunsAreLogged(start, meters, events, i);
    var n := |meters[i].calls|;
    assert log.windowOf[n - 5] == |log.windows| - 1;
  }

  /** At most ten calls in any interval of one second. */
  lemma TenCallsASecond(start: Time, meters: seq<Meter>, events: seq<Event>, i: nat, c: nat, d: nat)
    requires IsRun(start, meters, events) && i < |meters| && c <= d < |meters[i].calls|
    requires meters[i].calls[d] <= meters[i].calls[c] + 1_000_000_000
    ensures d - c + 1 <= 10
  {
    if d - c >= 10 {
      CallsAreSpaced(start, meters, events, i, c, d, 1);
    }
  }

  /** At most 5 * (floor(t) + 1) calls in the first t seconds of a run. */
  lemma CallsSinceStart(start: Time, meters: seq<Meter>, events: seq<Event>, i: nat, n: nat)
    requires IsRun(start, meters, events) && i < |meters| && 0 < n <= |meters[i].calls|
    ensures n <= 5 * ((meters[i].calls[n - 1] - start) / 1_000_000_000 + 1)
  {
    var m := meters[i];
    var log := RunsAreLogged(start, meters, events, i);
    var k := (n - 1) / READ_TPS_LIMIT;
    var b := log.windowOf[n - 1];
    if n > 1 {
      WindowsAdvance(meters[i].now, m, log, 0, n - 1, k);
    }
    if b > 0 {
      WindowsApart(log.windows, 0, b);
    }
    assert k <= b && start + b * SECOND <= m.calls[n - 1];
    assert (m.calls[n - 1] - start) / SECOND >= b;
  }
}
