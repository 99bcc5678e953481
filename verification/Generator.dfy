/** The generator task: its pacing loops, round-robin streams and per-stream numbering, run against
    an environment that decides how long everything takes and how each send turns out. */
module Generator {
  import opened Harness
  import opened Reservoir
  import opened Schedule

  const SEQUENCES: nat := 0x1_0000_0000

  datatype Mode = PingMode | StreamMode | MultiStreamMode | SaturationMode | LatencyLoadMode

  datatype Config = Config(
    mode: Mode, durationUs: nat, packetSize: nat, streams: nat, ratePerStream: nat,
    probeRate: nat, backgroundSize: nat, backgroundRate: nat)

  /** The ranges `parse_config` establishes. */
  predicate InRange(c: Config) {
    && 1 <= c.durationUs <= 86_400_000_000
    && HEADER_SIZE <= c.packetSize <= MAX_PACKET_SIZE
    && 1 <= c.streams <= MAX_STREAMS
    && c.ratePerStream < 0x1_0000_0000 && c.probeRate < 0x1_0000_0000 && c.backgroundRate < 0x1_0000_0000
    && c.backgroundSize <= MAX_PACKET_SIZE
    && (c.mode != SaturationMode && c.mode != LatencyLoadMode ==> c.ratePerStream > 0)
    && (c.mode == LatencyLoadMode ==> c.probeRate > 0 && c.backgroundRate > 0 && c.backgroundSize >= HEADER_SIZE)
  }

  datatype Kind = Stream | Ping

  datatype Outcome = SlotTimeout | EncodeFailure | ApiFailure | Accepted

  /** One call of `send_one`: `head` is the timer reading at the loop head before it, `at` the one taken
      when the slot was acquired or the wait for it timed out. */
  datatype Request = Request(
    kind: Kind, stream: nat, sequence: nat, size: nat, deadline: nat, scheduled: bool,
    head: nat, at: nat, outcome: Outcome)

  function Count(trace: seq<Request>, p: Request -> bool): (n: nat)
    ensures n <= |trace|
  {
    if trace == [] then 0 else Count(trace[..|trace| - 1], p) + (if p(trace[|trace| - 1]) then 1 else 0)
  }

  lemma CountAppend(trace: seq<Request>, r: Request, p: Request -> bool)
    ensures Count(trace + [r], p) == Count(trace, p) + (if p(r) then 1 else 0)
  {
    assert (trace + [r])[..|trace|] == trace;
  }

  predicate IsAccepted(r: Request) {
    r.outcome == Accepted
  }

  predicate IsRefused(r: Request) {
    r.outcome == EncodeFailure || r.outcome == ApiFailure
  }

  predicate TimedOut(r: Request) {
    r.outcome == SlotTimeout
  }

  predicate IsScheduled(r: Request) {
    r.scheduled
  }

  predicate IsProbe(r: Request) {
    r.kind == Ping
  }

  function On(k: nat): Request -> bool {
    (r: Request) => r.stream == k
  }

  function AcceptedOn(k: nat): Request -> bool {
    (r: Request) => r.stream == k && r.outcome == Accepted
  }

  // ----- the environment -----

  /** The timer and everything that takes time. Each delay and each send attempt takes at least a
      microsecond, and a busy wait at least as long as asked. */
  class Environment {
    var now: nat
    /** `g_state` is RUNNING; whoever ends the run says so once. */
    var running: bool
    /** The latest instant it was asked to wait for. */
    ghost var wake: nat

    method ReadTimer() returns (t: nat)
      modifies `now
      ensures now >= old(now) && t == now
    {
      var d: nat :| true;
      now := now + d;
      t := now;
    }

    /** `vTaskDelay(pdMS_TO_TICKS(ms))`, which may return early. */
    method DelayTicks(ms: nat)
      modifies `now, `wake
      ensures now > old(now)
      ensures wake == if old(now) + 1000 * ms > old(wake) then old(now) + 1000 * ms else old(wake)
    {
      wake := if now + 1000 * ms > wake then now + 1000 * ms else wake;
      var d: nat :| true;
      now := now + 1 + d;
    }

    /** `esp_rom_delay_us` */
    method DelayMicros(us: nat)
      modifies `now, `wake
      ensures now >= old(now) + us
      ensures wake == if old(now) + us > old(wake) then old(now) + us else old(wake)
    {
      wake := if now + us > wake then now + us else wake;
      var d: nat :| true;
      now := now + us + d;
    }

    /** `radio_acquire_tx(100)` */
    method AcquireSlot() returns (acquired: bool)
      modifies `now
      ensures now > old(now)
    {
      var d: nat :| true;
      now := now + 1 + d;
      acquired := *;
    }

    /** `esp_now_send` */
    method Submit() returns (accepted: bool)
      modifies `now
      ensures now >= old(now)
    {
      var d: nat :| true;
      now := now + d;
      accepted := *;
    }

    /** Encoding the header and handing the frame to the radio. */
    method Dispatch(size: nat) returns (outcome: Outcome)
      modifies `now
      ensures now >= old(now)
      ensures outcome != SlotTimeout && (outcome == EncodeFailure <==> size < HEADER_SIZE || size > MAX_PACKET_SIZE)
    {
      if size < HEADER_SIZE || size > MAX_PACKET_SIZE {
        return EncodeFailure;
      }
      var accepted := Submit();
      outcome := if accepted then Accepted else ApiFailure;
    }

    /** The guard of either loop: `g_state` reads RUNNING, and the timer is short of the end. */
    method Continues(end: nat) returns (going: bool, head: nat)
      modifies this
      ensures now >= old(now) && (going ==> old(now) <= head == now < end)
      ensures !going ==> !running || now >= end
      ensures !old(running) ==> !running && !going
    {
      head := now;
      going := StillRunning();
      if going {
        head := ReadTimer();
        going := head < end;
      }
    }

    /** Whether `g_state` still reads RUNNING. */
    method StillRunning() returns (still: bool)
      modifies `running
      ensures still == running && (running ==> old(running))
    {
      if * {
        running := false;
      }
      still := running;
    }
  }

  // ----- the transmit counters -----

  /** Time spent past the schedule before the send path. */
  function Lateness(at: nat, deadline: nat): nat {
    if at > deadline then at - deadline else 0
  }

  /** One clamped lateness sample for each scheduled request. */
  function Latenesses(trace: seq<Request>): seq<nat> {
    if trace == [] then []
    else
      var last := trace[|trace| - 1];
      Sampled(Latenesses(trace[..|trace| - 1]), last)
  }

  function Sampled(samples: seq<nat>, r: Request): seq<nat> {
    if r.scheduled then samples + [Clamp(Lateness(r.at, r.deadline))] else samples
  }

  /** Accepted bytes, and the instants of the first and last accepted dispatch. */
  datatype Sent = Sent(bytes: nat, first: nat, last: nat)

  function Dispatched(s: Sent, r: Request): Sent {
    if r.outcome != Accepted then s else Sent(s.bytes + r.size, if s.first == 0 then r.at else s.first, r.at)
  }

  function SentBy(trace: seq<Request>): Sent {
    if trace == [] then Sent(0, 0, 0) else Dispatched(SentBy(trace[..|trace| - 1]), trace[|trace| - 1])
  }

  datatype Counters = Counters(
    requested: nat, submitted: nat, apiFailure: nat, slotTimeout: nat, sent: Sent, lateness: seq<nat>,
    requestedOn: seq<nat>, submittedOn: seq<nat>)

  /** The counters are those of the requests made so far. */
  ghost predicate Tallies(c: Counters, trace: seq<Request>) {
    && |c.requestedOn| == |c.submittedOn| == MAX_STREAMS
    && c.requested == |trace|
    && c.submitted == Count(trace, IsAccepted)
    && c.apiFailure == Count(trace, IsRefused)
    && c.slotTimeout == Count(trace, TimedOut)
    && c.sent == SentBy(trace)
    && c.lateness == Latenesses(trace)
    && (forall k | 0 <= k < MAX_STREAMS ::
          c.requestedOn[k] == Count(trace, On(k)) && c.submittedOn[k] == Count(trace, AcceptedOn(k)))
  }

  function Bump(s: seq<nat>, k: nat): seq<nat>
    requires k < |s|
  {
    s[k := s[k] + 1]
  }

  function Recorded(c: Counters, r: Request): Counters
    requires r.stream < |c.requestedOn| == |c.submittedOn|
  {
    Counters(
      c.requested + 1,
      c.submitted + (if IsAccepted(r) then 1 else 0),
      c.apiFailure + (if IsRefused(r) then 1 else 0),
      c.slotTimeout + (if TimedOut(r) then 1 else 0),
      Dispatched(c.sent, r),
      Sampled(c.lateness, r),
      Bump(c.requestedOn, r.stream),
      if IsAccepted(r) then Bump(c.submittedOn, r.stream) else c.submittedOn)
  }

  /** The counters of a request once its slot was acquired or timed out. */
  function Opened(c: Counters, stream: nat, scheduled: bool, at: nat, deadline: nat): Counters
    requires stream < |c.requestedOn|
  {
    c.(requested := c.requested + 1, requestedOn := Bump(c.requestedOn, stream),
       lateness := if scheduled then c.lateness + [Clamp(Lateness(at, deadline))] else c.lateness)
  }

  /** And once its outcome is known. */
  function Concluded(c: Counters, outcome: Outcome, stream: nat, size: nat, at: nat): Counters
    requires stream < |c.submittedOn|
  {
    match outcome
    case SlotTimeout => c.(slotTimeout := c.slotTimeout + 1)
    case Accepted =>
      c.(submitted := c.submitted + 1, submittedOn := Bump(c.submittedOn, stream),
         sent := Sent(c.sent.bytes + size, if c.sent.first == 0 then at else c.sent.first, at))
    case _ => c.(apiFailure := c.apiFailure + 1)
  }

  lemma RecordedInTwo(c: Counters, r: Request)
    requires r.stream < |c.requestedOn| == |c.submittedOn|
    ensures Recorded(c, r)
         == Concluded(Opened(c, r.stream, r.scheduled, r.at, r.deadline), r.outcome, r.stream, r.size, r.at)
  {}

  lemma TallyAppend(c: Counters, trace: seq<Request>, r: Request)
    requires Tallies(c, trace) && r.stream < MAX_STREAMS
    ensures Tallies(Recorded(c, r), trace + [r])
  {
    CountAppend(trace, r, IsAccepted);
    CountAppend(trace, r, IsRefused);
    CountAppend(trace, r, TimedOut);
    assert (trace + [r])[..|trace|] == trace;
    forall k | 0 <= k < MAX_STREAMS
      ensures Recorded(c, r).requestedOn[k] == Count(trace + [r], On(k))
      ensures Recorded(c, r).submittedOn[k] == Count(trace + [r], AcceptedOn(k))
    {
      CountAppend(trace, r, On(k));
      CountAppend(trace, r, AcceptedOn(k));
    }
  }

  /** The transmit half of `g_metrics`. */
  class TxMetrics {
    var requested: nat
    var submitted: nat
    var apiFailure: nat
    var slotTimeout: nat
    var bytes: nat
    var firstTx: nat
    var lastTx: nat
    const requestedOn: array<nat>
    const submittedOn: array<nat>
    const lateness: SampleDistribution

    ghost function View(): (c: Counters)
      reads this, requestedOn, submittedOn, lateness
      ensures c.requestedOn == requestedOn[..] && c.submittedOn == submittedOn[..]
    {
      Counters(requested, submitted, apiFailure, slotTimeout, Sent(bytes, firstTx, lastTx), lateness.inputs,
               requestedOn[..], submittedOn[..])
    }

    ghost predicate Valid()
      reads this, lateness, lateness.samples
    {
      && requestedOn != submittedOn && requestedOn.Length == submittedOn.Length == MAX_STREAMS
      && lateness.samples != requestedOn && lateness.samples != submittedOn
      && lateness.Valid()
    }

    constructor (capacity: nat)
      requires capacity > 0
      ensures Valid() && Tallies(View(), [])
      ensures fresh(requestedOn) && fresh(submittedOn) && fresh(lateness) && fresh(lateness.samples)
    {
      requested, submitted, apiFailure, slotTimeout, bytes, firstTx, lastTx := 0, 0, 0, 0, 0, 0, 0;
      requestedOn := new nat[MAX_STREAMS](i => 0);
      submittedOn := new nat[MAX_STREAMS](i => 0);
      lateness := new SampleDistribution(capacity);
    }

    /** `metrics_tx_requested` */
    method TxRequested(stream: nat)
      requires Valid() && stream < MAX_STREAMS
      modifies this`requested, requestedOn
      ensures Valid()
      ensures View() == old(View()).(requested := old(requested) + 1, requestedOn := Bump(old(requestedOn[..]), stream))
    {
      requested := requested + 1;
      requestedOn[stream] := requestedOn[stream] + 1;
    }

    /** `metrics_tx_submitted` */
    method TxSubmitted(stream: nat, length: nat, dispatch: nat)
      requires Valid() && stream < MAX_STREAMS
      modifies this`submitted, this`bytes, this`firstTx, this`lastTx, submittedOn
      ensures Valid()
      ensures View() == old(View()).(
        submitted := old(submitted) + 1, submittedOn := Bump(old(submittedOn[..]), stream),
        sent := Sent(old(bytes) + length, if old(firstTx) == 0 then dispatch else old(firstTx), dispatch))
    {
      submitted := submitted + 1;
      bytes := bytes + length;
      submittedOn[stream] := submittedOn[stream] + 1;
      if firstTx == 0 {
        firstTx := dispatch;
      }
      lastTx := dispatch;
    }

    /** `metrics_dispatch_lateness`, for any hash of the sample count. */
    method DispatchLateness(actual: nat, deadline: nat)
      requires Valid()
      modifies lateness, lateness.samples
      ensures Valid()
      ensures View() == old(View()).(lateness := old(lateness.inputs) + [Clamp(Lateness(actual, deadline))])
    {
      var late := if actual > deadline then actual - deadline else 0;
      var hash: nat :| true;
      lateness.Add(late, hash);
    }

    /** The counters of a request's outcome. */
    method Conclude(outcome: Outcome, stream: nat, length: nat, dispatch: nat)
      requires Valid() && stream < MAX_STREAMS
      modifies this`submitted, this`apiFailure, this`slotTimeout, this`bytes, this`firstTx, this`lastTx, submittedOn
      ensures Valid()
      ensures View() == Concluded(old(View()), outcome, stream, length, dispatch)
    {
      match outcome {
        case SlotTimeout => slotTimeout := slotTimeout + 1;
        case Accepted => TxSubmitted(stream, length, dispatch);
        case EncodeFailure => apiFailure := apiFailure + 1;
        case ApiFailure => apiFailure := apiFailure + 1;
      }
    }

    /** A request up to the instant its slot was acquired or its wait timed out. */
    method Open(env: Environment, stream: nat, scheduled: bool, deadline: nat) returns (acquired: bool, at: nat)
      requires Valid() && stream < MAX_STREAMS
      modifies this`requested, env, requestedOn, lateness, lateness.samples
      ensures Valid() && old(env.now) < env.now && old(env.now) <= at <= env.now
      ensures View() == Opened(old(View()), stream, scheduled, at, deadline)
    {
      TxRequested(stream);
      acquired := env.AcquireSlot();
      at := env.ReadTimer();
      if scheduled {
        DispatchLateness(at, deadline);
      }
    }

    /** `send_one`, with the `metrics_*` calls it makes: one request, one outcome, and a lateness sample exactly
        when the request was scheduled. */
    method SendOne(env: Environment, kind: Kind, stream: nat, sequence: nat, size: nat, deadline: nat, scheduled: bool,
                   ghost head: nat)
      returns (ok: bool, ghost r: Request)
      requires Valid() && stream < MAX_STREAMS
      modifies this, env, requestedOn, submittedOn, lateness, lateness.samples
      ensures Valid() && env.now > old(env.now)
      ensures r.stream == stream && View() == Recorded(old(View()), r)
      ensures r == Request(kind, stream, sequence, size, deadline, scheduled, head, r.at, r.outcome)
      ensures ok == IsAccepted(r)
      ensures old(env.now) <= r.at <= env.now
      ensures r.outcome == EncodeFailure ==> size < HEADER_SIZE || size > MAX_PACKET_SIZE
    {
      ghost var c := View();
      var acquired, at := Open(env, stream, scheduled, deadline);
      var outcome := SlotTimeout;
      if acquired {
        outcome := env.Dispatch(size);
      }
      Conclude(outcome, stream, size, at);
      ok := outcome == Accepted;
      r := Request(kind, stream, sequence, size, deadline, scheduled, head, at, outcome);
      RecordedInTwo(c, r);
    }
  }

  /** `wait_deadline`: comes back at or after the deadline, never having asked to sleep past it, and at once when it
      has passed. */
  method WaitDeadline(env: Environment, deadline: nat)
    modifies env`now, env`wake
    ensures env.now >= old(env.now) && env.now >= deadline
    ensures env.wake <= deadline || env.wake == old(env.wake)
    ensures old(env.now) >= deadline ==> env.wake == old(env.wake)
  {
    while true
      invariant env.now >= old(env.now)
      invariant env.wake <= deadline || env.wake == old(env.wake)
      invariant old(env.now) >= deadline ==> env.wake == old(env.wake)
      decreases deadline - env.now
    {
      var now := env.ReadTimer();
      if now >= deadline {
        return;
      }
      var remaining := deadline - now;
      if remaining > 2000 {
        env.DelayTicks((remaining - 500) / 1000);
      } else {
        env.DelayMicros(remaining);
        return;
      }
    }
  }

  // ----- what the pacing loops promise -----

  /** Sequence numbers advance only on accepted sends, and time only moves forward. */
  ghost predicate Entry(c: Config, start: nat, before: seq<Request>, r: Request) {
    && r.stream < MAX_STREAMS
    && r.sequence == Count(before, AcceptedOn(r.stream)) % SEQUENCES
    && start <= r.head < start + c.durationUs
    && r.head <= r.at
    && (before != [] ==> before[|before| - 1].at <= r.head && before[|before| - 1].head < r.head)
    && (r.scheduled ==> r.deadline <= r.at)
    && (r.outcome == EncodeFailure ==> r.size < HEADER_SIZE || r.size > MAX_PACKET_SIZE)
  }

  function Rate(c: Config): nat {
    if c.mode == SaturationMode then 0 else c.ratePerStream * c.streams
  }

  /** One iteration of the loop of every mode but latency-under-load. */
  ghost predicate RateEntry(c: Config, start: nat, before: seq<Request>, r: Request) {
    && c.streams > 0
    && Entry(c, start, before, r)
    && r.stream == |before| % c.streams
    && r.kind == (if c.mode == PingMode then Ping else Stream)
    && r.size == c.packetSize
    && r.scheduled == (Rate(c) != 0)
    && r.deadline == (if Rate(c) != 0 then Deadline(start, |before|, Rate(c)) else 0)
  }

  ghost predicate RateTrace(c: Config, start: nat, trace: seq<Request>) {
    forall i | 0 <= i < |trace| :: RateEntry(c, start, trace[..i], trace[i])
  }

  /** The next deadline of a schedule of which `k` deadlines were used. */
  function Due(start: nat, k: nat, rate: nat): nat
    requires rate > 0
  {
    if k == 0 then start else Deadline(start, k, rate)
  }

  function BackgroundStreams(c: Config): nat {
    if c.streams > 15 then 15 else c.streams
  }

  predicate IsBackground(r: Request) {
    r.kind == Stream
  }

  /** One iteration of the latency-under-load loop. */
  ghost predicate LatencyEntry(c: Config, start: nat, before: seq<Request>, r: Request) {
    && c.streams > 0 && c.probeRate > 0 && c.backgroundRate > 0
    && Entry(c, start, before, r)
    && r.scheduled
    && var probe := Due(start, Count(before, IsProbe), c.probeRate);
       var background := Due(start, Count(before, IsBackground), c.backgroundRate);
       if probe <= background then
         r.kind == Ping && r.stream == MAX_STREAMS - 1 && r.size == c.packetSize && r.deadline == probe
       else
         && r.kind == Stream && r.stream == Count(before, IsBackground) % BackgroundStreams(c)
         && r.size == c.backgroundSize && r.deadline == background
  }

  ghost predicate LatencyTrace(c: Config, start: nat, trace: seq<Request>) {
    forall i | 0 <= i < |trace| :: LatencyEntry(c, start, trace[..i], trace[i])
  }

  lemma RateAppend(c: Config, start: nat, trace: seq<Request>, r: Request)
    requires RateTrace(c, start, trace) && RateEntry(c, start, trace, r)
    ensures RateTrace(c, start, trace + [r])
  {
    forall i | 0 <= i < |trace + [r]|
      ensures RateEntry(c, start, (trace + [r])[..i], (trace + [r])[i])
    {
      assert (trace + [r])[..i] == if i < |trace| then trace[..i] else trace;
    }
  }

  lemma LatencyAppend(c: Config, start: nat, trace: seq<Request>, r: Request)
    requires LatencyTrace(c, start, trace) && LatencyEntry(c, start, trace, r)
    ensures LatencyTrace(c, start, trace + [r])
  {
    forall i | 0 <= i < |trace + [r]|
      ensures LatencyEntry(c, start, (trace + [r])[..i], (trace + [r])[i])
    {
      assert (trace + [r])[..i] == if i < |trace| then trace[..i] else trace;
    }
  }

  lemma LatencyNext(c: Config, start: nat, trace: seq<Request>, r: Request, p: nat, b: nat)
    requires c.streams > 0 && c.probeRate > 0 && c.backgroundRate > 0
    requires LatencyTrace(c, start, trace) && Entry(c, start, trace, r) && r.scheduled
    requires p == Count(trace, IsProbe) && b == Count(trace, IsBackground)
    requires if Due(start, p, c.probeRate) <= Due(start, b, c.backgroundRate)
             then r.kind == Ping && r.stream == MAX_STREAMS - 1 && r.size == c.packetSize
                  && r.deadline == Due(start, p, c.probeRate)
             else r.kind == Stream && r.stream == b % BackgroundStreams(c) && r.size == c.backgroundSize
                  && r.deadline == Due(start, b, c.backgroundRate)
    ensures LatencyTrace(c, start, trace + [r])
    ensures Count(trace + [r], IsProbe) == (if r.kind == Ping then p + 1 else p)
    ensures Count(trace + [r], IsBackground) == (if r.kind == Ping then b else b + 1)
  {
    CountAppend(trace, r, IsProbe);
    CountAppend(trace, r, IsBackground);
    LatencyAppend(c, start, trace, r);
  }

  // ----- the task -----

  /** `sequences[]` follows the accepted sends of each stream. */
  ghost predicate Following(sequences: seq<nat>, submittedOn: seq<nat>) {
    |sequences| == |submittedOn| && forall k | 0 <= k < |sequences| :: sequences[k] == submittedOn[k] % SEQUENCES
  }

  /** What holds at the head of either loop. */
  ghost predicate AtHead(now: nat, sequences: seq<nat>, counters: Counters, trace: seq<Request>) {
    && Tallies(counters, trace)
    && Following(sequences, counters.submittedOn)
    && (trace != [] ==> trace[|trace| - 1].at <= now && trace[|trace| - 1].head < now)
  }

  lemma AtStart(now: nat, sequences: seq<nat>, counters: Counters)
    requires Tallies(counters, []) && |sequences| == MAX_STREAMS
    requires forall k | 0 <= k < |sequences| :: sequences[k] == 0
    ensures AtHead(now, sequences, counters, [])
  {
    forall k | 0 <= k < |sequences|
      ensures sequences[k] == counters.submittedOn[k] % SEQUENCES
    {
      assert counters.submittedOn[k] == Count([], AcceptedOn(k));
    }
  }

  lemma Followed(was: seq<nat>, before: seq<nat>, now: seq<nat>, stream: nat)
    requires Following(was, before) && stream < |was|
    requires now == was[stream := (was[stream] + 1) % SEQUENCES]
    ensures Following(now, Bump(before, stream))
  {
    var after := Bump(before, stream);
    forall k | 0 <= k < |now| ensures now[k] == after[k] % SEQUENCES {
      assert was[k] == before[k] % SEQUENCES;
    }
  }

  /** `if (send_one(...)) sequences[stream]++`, the sequence numbers being 32 bits wide. */
  method SendNext(c: Config, env: Environment, metrics: TxMetrics, sequences: array<nat>, kind: Kind, stream: nat,
                  size: nat, deadline: nat, scheduled: bool, ghost start: nat, ghost head: nat,
                  ghost trace: seq<Request>)
    returns (ghost r: Request)
    requires metrics.Valid() && Apart(sequences, metrics)
    requires stream < MAX_STREAMS && AtHead(head, sequences[..], metrics.View(), trace)
    requires start <= head < start + c.durationUs && head <= env.now && (scheduled ==> deadline <= env.now)
    modifies env, metrics, metrics.requestedOn, metrics.submittedOn, metrics.lateness, metrics.lateness.samples
    modifies sequences
    ensures metrics.Valid() && env.now > old(env.now)
    ensures AtHead(env.now, sequences[..], metrics.View(), trace + [r])
    ensures Entry(c, start, trace, r)
    ensures r == Request(kind, stream, r.sequence, size, deadline, scheduled, head, r.at, r.outcome)
  {
    ghost var was, before := sequences[..], metrics.View();
    var ok;
    ok, r := metrics.SendOne(env, kind, stream, sequences[stream], size, deadline, scheduled, head);
    if ok {
      sequences[stream] := (sequences[stream] + 1) % SEQUENCES;
      Followed(was, before.submittedOn, sequences[..], stream);
    }
    TallyAppend(before, trace, r);
  }

  ghost predicate Apart(sequences: array<nat>, metrics: TxMetrics) {
    && sequences != metrics.requestedOn && sequences != metrics.submittedOn
    && sequences != metrics.lateness.samples
  }

  /** One iteration of the loop of every mode but latency-under-load. */
  method RateStep(c: Config, env: Environment, metrics: TxMetrics, sequences: array<nat>, index: nat, rate: nat,
                  start: nat, ghost head: nat, ghost trace: seq<Request>)
    returns (ghost r: Request)
    requires metrics.Valid() && Apart(sequences, metrics) && c.streams > 0 && c.streams <= MAX_STREAMS
    requires rate == Rate(c) && index == |trace| && AtHead(head, sequences[..], metrics.View(), trace)
    requires start <= head < start + c.durationUs && head <= env.now
    modifies env, metrics, metrics.requestedOn, metrics.submittedOn, metrics.lateness, metrics.lateness.samples
    modifies sequences
    ensures metrics.Valid() && env.now > old(env.now)
    ensures AtHead(env.now, sequences[..], metrics.View(), trace + [r])
    ensures RateEntry(c, start, trace, r)
  {
    var deadline := if rate != 0 then Deadline(start, index, rate) else 0;
    if rate != 0 {
      WaitDeadline(env, deadline);
    }
    var stream := index % c.streams;
    var kind := if c.mode == PingMode then Ping else Stream;
    r := SendNext(c, env, metrics, sequences, kind, stream, c.packetSize, deadline, rate != 0, start, head, trace);
  }

  /** The loop of every mode but latency-under-load. */
  method RateLoop(c: Config, env: Environment, metrics: TxMetrics, start: nat, end: nat)
    returns (ghost trace: seq<Request>)
    requires InRange(c) && c.mode != LatencyLoadMode
    requires start <= env.now && end == start + c.durationUs
    requires metrics.Valid() && Tallies(metrics.View(), [])
    modifies env, metrics, metrics.requestedOn, metrics.submittedOn, metrics.lateness, metrics.lateness.samples
    ensures metrics.Valid() && Tallies(metrics.View(), trace)
    ensures RateTrace(c, start, trace) && (env.running ==> env.now >= end)
  {
    var sequences := new nat[MAX_STREAMS](i => 0);
    var index := 0;
    var rate := if c.mode == SaturationMode then 0 else c.ratePerStream * c.streams;
    trace := [];
    AtStart(env.now, sequences[..], metrics.View());
    while true
      invariant start <= env.now && metrics.Valid() && fresh(sequences)
      invariant AtHead(env.now, sequences[..], metrics.View(), trace)
      invariant index == |trace| && RateTrace(c, start, trace)
      decreases end - env.now
    {
      var going, head := env.Continues(end);
      if !going {
        return;
      }
      ghost var r := RateStep(c, env, metrics, sequences, index, rate, start, head, trace);
      RateAppend(c, start, trace, r);
      trace := trace + [r];
      index := index + 1;
    }
  }

  /** A probe, in stream 15, at its deadline. */
  method Probe(c: Config, env: Environment, metrics: TxMetrics, sequences: array<nat>, deadline: nat,
               ghost start: nat, ghost head: nat, ghost trace: seq<Request>)
    returns (ghost r: Request)
    requires metrics.Valid() && Apart(sequences, metrics) && AtHead(head, sequences[..], metrics.View(), trace)
    requires start <= head < start + c.durationUs && head <= env.now
    modifies env, metrics, metrics.requestedOn, metrics.submittedOn, metrics.lateness, metrics.lateness.samples
    modifies sequences
    ensures metrics.Valid() && env.now > old(env.now)
    ensures AtHead(env.now, sequences[..], metrics.View(), trace + [r])
    ensures Entry(c, start, trace, r) && r.scheduled && r.deadline == deadline
    ensures r.kind == Ping && r.stream == MAX_STREAMS - 1 && r.size == c.packetSize
  {
    WaitDeadline(env, deadline);
    r := SendNext(c, env, metrics, sequences, Ping, MAX_STREAMS - 1, c.packetSize, deadline, true, start, head, trace);
  }

  /** A background frame, in the next of its streams, at its deadline. */
  method Background(c: Config, env: Environment, metrics: TxMetrics, sequences: array<nat>, index: nat, deadline: nat,
                    ghost start: nat, ghost head: nat, ghost trace: seq<Request>)
    returns (ghost r: Request)
    requires metrics.Valid() && Apart(sequences, metrics) && AtHead(head, sequences[..], metrics.View(), trace)
    requires start <= head < start + c.durationUs && head <= env.now && c.streams > 0
    modifies env, metrics, metrics.requestedOn, metrics.submittedOn, metrics.lateness, metrics.lateness.samples
    modifies sequences
    ensures metrics.Valid() && env.now > old(env.now)
    ensures AtHead(env.now, sequences[..], metrics.View(), trace + [r])
    ensures Entry(c, start, trace, r) && r.scheduled && r.deadline == deadline
    ensures r.kind == Stream && r.stream == index % BackgroundStreams(c) && r.size == c.backgroundSize
  {
    WaitDeadline(env, deadline);
    var backgroundStreams := if c.streams > 15 then 15 else c.streams;
    var stream := index % backgroundStreams;
    r := SendNext(c, env, metrics, sequences, Stream, stream, c.backgroundSize, deadline, true, start, head, trace);
  }

  /** The latency-under-load loop: two schedules merged, probes first on ties. */
  method LatencyLoop(c: Config, env: Environment, metrics: TxMetrics, start: nat, end: nat)
    returns (ghost trace: seq<Request>)
    requires InRange(c) && c.mode == LatencyLoadMode
    requires start <= env.now && end == start + c.durationUs
    requires metrics.Valid() && Tallies(metrics.View(), [])
    modifies env, metrics, metrics.requestedOn, metrics.submittedOn, metrics.lateness, metrics.lateness.samples
    ensures metrics.Valid() && Tallies(metrics.View(), trace)
    ensures LatencyTrace(c, start, trace) && (env.running ==> env.now >= end)
  {
    var sequences := new nat[MAX_STREAMS](i => 0);
    var probeIndex, backgroundIndex := 0, 0;
    var nextProbe, nextBackground := start, start;
    trace := [];
    AtStart(env.now, sequences[..], metrics.View());
    while true
      invariant start <= env.now && metrics.Valid() && fresh(sequences)
      invariant AtHead(env.now, sequences[..], metrics.View(), trace)
      invariant probeIndex == Count(trace, IsProbe) && backgroundIndex == Count(trace, IsBackground)
      invariant nextProbe == Due(start, probeIndex, c.probeRate)
      invariant nextBackground == Due(start, backgroundIndex, c.backgroundRate)
      invariant LatencyTrace(c, start, trace)
      decreases end - env.now
    {
      var going, head := env.Continues(end);
      if !going {
        return;
      }
      var probe := nextProbe <= nextBackground;
      var deadline := if probe then nextProbe else nextBackground;
      ghost var r;
      ghost var p, b := probeIndex, backgroundIndex;
      if probe {
        r := Probe(c, env, metrics, sequences, deadline, start, head, trace);
        probeIndex := probeIndex + 1;
        nextProbe := Deadline(start, probeIndex, c.probeRate);
      } else {
        r := Background(c, env, metrics, sequences, backgroundIndex, deadline, start, head, trace);
        backgroundIndex := backgroundIndex + 1;
        nextBackground := Deadline(start, backgroundIndex, c.backgroundRate);
      }
      LatencyNext(c, start, trace, r, p, b);
      trace := trace + [r];
    }
  }

  ghost predicate Trace(c: Config, start: nat, trace: seq<Request>) {
    if c.mode == LatencyLoadMode then LatencyTrace(c, start, trace) else RateTrace(c, start, trace)
  }

  /** `generator_task`, from the first timer reading to the end of its loop, on metrics that were just reset. */
  method GeneratorTask(c: Config, env: Environment, metrics: TxMetrics) returns (start: nat, ghost trace: seq<Request>)
    requires InRange(c)
    requires metrics.Valid() && Tallies(metrics.View(), [])
    modifies env, metrics, metrics.requestedOn, metrics.submittedOn, metrics.lateness, metrics.lateness.samples
    ensures metrics.Valid() && Tallies(metrics.View(), trace)
    ensures start >= old(env.now) && Trace(c, start, trace)
    ensures env.running ==> env.now >= start + c.durationUs
  {
    start := env.ReadTimer();
    var end := start + c.durationUs;
    if c.mode == LatencyLoadMode {
      trace := LatencyLoop(c, env, metrics, start, end);
    } else {
      trace := RateLoop(c, env, metrics, start, end);
    }
  }
}
