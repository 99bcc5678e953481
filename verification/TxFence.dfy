/** One node's transmit window, event queue and drain fence, as an interleaved transition
    system. The actors are the generator, the receiver task with its echo path, the radio's
    send callback and the control task; each step below is one action of one of them.

    Assumptions about the platform: an accepted `esp_now_send` leads to at most one send
    callback and a refused one to none; the queue is first-in first-out; a timed wait fails only
    when what it waits for is not there; `metrics_reset` runs in one step. */
module TxFence {

  const MAX_WINDOW: nat := 32
  const QUEUE_LENGTH: nat := 64

  // ----- state -----

  datatype Event = Received | Completion(frame: nat, ok: bool) | Malformed | Barrier

  /** Where the send callback's completion event of a frame is. */
  datatype Fate = Pending | Queued(at: nat) | Counted | Dropped

  datatype Cause = Own | EchoOf(event: nat)

  /** A frame accepted by `esp_now_send`; it holds its window slot until the callback returns it. */
  datatype Frame = Frame(token: bool, fate: Fate, cause: Cause)

  /** One actor's progress through acquire, send and bookkeeping. */
  datatype Send = Idle | Acquiring | Holding | Accepted | Rejected | Failed

  datatype Actor = Generator | Echo

  datatype Receiver = Waiting | Handling | Echoing

  datatype Purpose = ForDrain(round: nat) | ForConfigure(want: nat)

  datatype Control =
    | Ready
    | Posting(round: nat)
    | Awaiting(round: nat)
    | Taking(purpose: Purpose, got: nat)
    | Giving(purpose: Purpose, left: nat)
    | Releasing(left: nat)
    | Shrinking(got: nat, want: nat)
    | Growing(left: nat)

  datatype Counters = Counters(
    requested: nat, submitted: nat, apiFailure: nat, slotTimeout: nat,
    cbSuccess: nat, cbFailure: nat, queueDrops: nat)

  /** What was outstanding when the metrics were last reset, and how many echoes were in progress then or
      asked for since. */
  datatype Baseline = Baseline(
    inProgress: nat, accepted: nat, frames: nat, settled: nat, droppedSince: nat, echoes: nat)

  /** History of the current or last drain: what was outstanding when it began, where its barriers
      went into the queue, and how many frames existed when it held every slot. */
  datatype Drain = Drain(stale: nat, events: nat, frames: nat, barriers: seq<nat>, idle: seq<nat>, done: bool)

  /** `log` holds every event ever queued, the first `taken` of which were dequeued. */
  datatype Node = Node(
    window: nat, free: nat, lost: nat,
    frames: seq<Frame>,
    log: seq<Event>, taken: nat, receiver: Receiver,
    generating: bool, generator: Send, echo: Send, responder: bool,
    control: Control, notifications: nat, timedOutWaits: nat, drain: Drain,
    counters: Counters, baseline: Baseline)

  function Boot(): Node {
    Node(1, 1, 0, [], [], 0, Waiting, false, Idle, Idle, false, Ready, 0, 0,
         Drain(0, 0, 0, [], [], false), Counters(0, 0, 0, 0, 0, 0, 0), Baseline(0, 0, 0, 0, 0, 0))
  }

  /** Events below this position are completely processed. */
  function Handled(s: Node): int {
    if s.receiver == Waiting then s.taken else s.taken - 1
  }

  predicate QueueFull(s: Node) {
    |s.log| - s.taken >= QUEUE_LENGTH
  }

  predicate HoldsToken(f: Frame) {
    f.token
  }

  predicate Settled(f: Frame) {
    f.fate == Counted || f.fate == Dropped
  }

  /** The frames satisfying p, by number. */
  function Which(fs: seq<Frame>, p: Frame -> bool): set<int> {
    set i | 0 <= i < |fs| && p(fs[i])
  }

  function Count(fs: seq<Frame>, p: Frame -> bool): nat {
    |Which(fs, p)|
  }

  /** Barriers at position `from` or later. */
  function Barriers(log: seq<Event>, from: nat): nat
    decreases |log| - from
  {
    if from >= |log| then 0 else (if log[from].Barrier? then 1 else 0) + Barriers(log, from + 1)
  }

  /** Barriers and notifications not yet consumed by a flush. */
  function Outstanding(s: Node): nat {
    s.notifications + if Handled(s) < 0 then 0 else Barriers(s.log, Handled(s))
  }

  /** `xSemaphoreGive`: a give beyond the maximum count is refused. */
  function Give(free: nat): nat {
    if free < MAX_WINDOW then free + 1 else free
  }

  function Sender(s: Node, a: Actor): Send {
    if a == Generator then s.generator else s.echo
  }

  function WithSender(s: Node, a: Actor, p: Send): Node {
    if a == Generator then s.(generator := p)
    else s.(echo := p, receiver := if p == Idle then Waiting else s.receiver)
  }

  function SlotsOf(p: Send): nat {
    if p == Holding || p == Rejected then 1 else 0
  }

  function BusyOf(p: Send): nat {
    if p == Idle then 0 else 1
  }

  function AcceptedOf(p: Send): nat {
    if p == Accepted then 1 else 0
  }

  function SlotsOfControl(c: Control): nat {
    match c
    case Taking(_, got) => got
    case Giving(_, left) => left
    case Releasing(left) => left
    case Shrinking(got, _) => got
    case Growing(left) => left
    case _ => 0
  }

  // ----- steps of the generator and of either sender -----

  datatype GeneratorMove = Starts | Requests | Ends

  predicate GeneratorMay(s: Node, g: GeneratorMove) {
    match g
    case Starts => !s.generating && s.control == Ready
    case Requests => s.generating && s.generator == Idle
    case Ends => s.generating && s.generator == Idle
  }

  function GeneratorDoes(s: Node, g: GeneratorMove): Node {
    match g
    case Starts => s.(generating := true)
    case Requests => s.(generator := Acquiring, counters := s.counters.(requested := s.counters.requested + 1))
    case Ends => s.(generating := false)
  }

  datatype SendMove = Acquire | AcquireTimesOut | Submit(ok: bool) | GiveBack | Record

  predicate SenderMay(s: Node, x: Actor, m: SendMove) {
    match m
    case Acquire => Sender(s, x) == Acquiring && s.free > 0
    case AcquireTimesOut => Sender(s, x) == Acquiring && s.free == 0
    case Submit(_) => Sender(s, x) == Holding
    case GiveBack => Sender(s, x) == Rejected
    case Record => Sender(s, x) == Accepted || Sender(s, x) == Failed
  }

  function SenderDoes(s: Node, x: Actor, m: SendMove): Node
    requires SenderMay(s, x, m)
  {
    match m
    case Acquire => WithSender(s.(free := s.free - 1), x, Holding)
    case AcquireTimesOut =>
      WithSender(s.(counters := s.counters.(slotTimeout := s.counters.slotTimeout + 1)), x, Idle)
    case Submit(ok) =>
      if ok then WithSender(s.(frames := s.frames + [NewFrame(s, x)]), x, Accepted)
      else WithSender(s, x, Rejected)
    case GiveBack => WithSender(s.(free := Give(s.free)), x, Failed)
    case Record =>
      if Sender(s, x) == Accepted then
        WithSender(s.(counters := s.counters.(submitted := s.counters.submitted + 1)), x, Idle)
      else
        WithSender(s.(counters := s.counters.(apiFailure := s.counters.apiFailure + 1)), x, Idle)
  }

  /** The frame `esp_now_send` accepts; an echo answers the event being handled. */
  function NewFrame(s: Node, x: Actor): Frame {
    Frame(true, Pending, if x == Echo && s.taken > 0 then EchoOf(s.taken - 1) else Own)
  }

  // ----- steps of the radio callbacks -----

  datatype RadioMove = PostCompletion(frame: nat, ok: bool) | ReturnSlot(frame: nat) | Arrive(malformed: bool)

  predicate RadioMay(s: Node, r: RadioMove) {
    match r
    case PostCompletion(f, _) => f < |s.frames| && s.frames[f].fate == Pending
    case ReturnSlot(f) => f < |s.frames| && s.frames[f].token && s.frames[f].fate != Pending
    case Arrive(_) => true
  }

  function RadioDoes(s: Node, r: RadioMove): Node
    requires RadioMay(s, r)
  {
    match r
    case PostCompletion(f, ok) =>
      if QueueFull(s) then
        s.(frames := s.frames[f := s.frames[f].(fate := Dropped)],
           counters := s.counters.(queueDrops := s.counters.queueDrops + 1),
           baseline := s.baseline.(droppedSince := s.baseline.droppedSince + 1))
      else
        s.(frames := s.frames[f := s.frames[f].(fate := Queued(|s.log|))], log := s.log + [Completion(f, ok)])
    case ReturnSlot(f) =>
      s.(frames := s.frames[f := s.frames[f].(token := false)], free := Give(s.free))
    case Arrive(malformed) =>
      if !QueueFull(s) then s.(log := s.log + [if malformed then Malformed else Received])
      else if malformed then s
      else s.(counters := s.counters.(queueDrops := s.counters.queueDrops + 1))
  }

  // ----- steps of the receiver task -----

  datatype ReceiverMove = Dequeue | Handle(echoes: bool)

  predicate ReceiverMay(s: Node, v: ReceiverMove) {
    match v
    case Dequeue => s.receiver == Waiting && s.taken < |s.log|
    case Handle(echoes) =>
      && s.receiver == Handling && 0 < s.taken <= |s.log|
      && (s.log[s.taken - 1].Completion? ==> s.log[s.taken - 1].frame < |s.frames|)
      && (echoes ==> s.responder && s.log[s.taken - 1] == Received)
  }

  function ReceiverDoes(s: Node, v: ReceiverMove): Node
    requires ReceiverMay(s, v)
  {
    match v
    case Dequeue => s.(taken := s.taken + 1, receiver := Handling)
    case Handle(echoes) =>
      if echoes then
        s.(receiver := Echoing, echo := Acquiring, counters := s.counters.(requested := s.counters.requested + 1),
           baseline := s.baseline.(echoes := s.baseline.echoes + 1))
      else
        match s.log[s.taken - 1]
        case Barrier => s.(notifications := s.notifications + 1, receiver := Waiting)
        case Completion(f, ok) =>
          s.(frames := s.frames[f := s.frames[f].(fate := Counted)], receiver := Waiting,
             counters := if ok then s.counters.(cbSuccess := s.counters.cbSuccess + 1)
                         else s.counters.(cbFailure := s.counters.cbFailure + 1))
        case Received => s.(receiver := Waiting)
        case Malformed => s.(receiver := Waiting)
  }

  // ----- steps of the control task: the flushes of a drain -----

  datatype FlushMove = BeginDrain | PostBarrier | PostTimesOut | TakeNotification | AwaitTimesOut

  predicate FlushMay(s: Node, u: FlushMove) {
    match u
    case BeginDrain => s.control == Ready && !s.generating
    case PostBarrier => s.control.Posting? && !QueueFull(s)
    case PostTimesOut => s.control.Posting? && QueueFull(s)
    case TakeNotification => s.control.Awaiting? && s.notifications > 0
    case AwaitTimesOut => s.control.Awaiting? && s.notifications == 0
  }

  function FlushDoes(s: Node, u: FlushMove): Node
    requires FlushMay(s, u)
  {
    match u
    case BeginDrain =>
      s.(control := Posting(0), drain := Drain(Outstanding(s), |s.log|, |s.frames|, [], [], false))
    case PostBarrier =>
      s.(control := Awaiting(s.control.round), log := s.log + [Barrier],
         drain := s.drain.(barriers := s.drain.barriers + [|s.log|]))
    case PostTimesOut => s.(control := Ready)
    case TakeNotification =>
      if s.control.round < 2 then
        s.(notifications := 0, control := Taking(ForDrain(s.control.round), 0))
      else
        s.(notifications := 0, control := Ready, drain := s.drain.(done := true))
    case AwaitTimesOut => s.(control := Ready, timedOutWaits := s.timedOutWaits + 1)
  }

  // ----- steps of the control task: holding the whole window, to wait or to resize -----

  datatype WindowMove =
    | BeginConfigure(want: nat, responder: bool)
    | TakeSlot
    | TakeTimesOut
    | AllTaken
    | GiveSlot
    | AllGiven

  predicate WindowMay(s: Node, w: WindowMove) {
    var takes := s.control.Taking? || s.control.Shrinking?;
    var gives := s.control.Giving? || s.control.Releasing? || s.control.Growing?;
    match w
    case BeginConfigure(want, _) => s.control == Ready && 1 <= want <= MAX_WINDOW
    case TakeSlot => takes && s.control.got < s.window && s.free > 0
    case TakeTimesOut => takes && s.control.got < s.window && s.free == 0
    case AllTaken => takes && s.control.got >= s.window
    case GiveSlot => gives && s.control.left > 0
    case AllGiven => gives && s.control.left == 0
  }

  function WindowDoes(s: Node, w: WindowMove): Node
    requires WindowMay(s, w)
  {
    match w
    case BeginConfigure(want, responder) => s.(responder := responder, control := Taking(ForConfigure(want), 0))
    case TakeSlot => s.(free := s.free - 1, control := s.control.(got := s.control.got + 1))
    case TakeTimesOut =>
      if s.control.Taking? then s.(control := Releasing(s.control.got))
      else s.(control := Ready, lost := s.lost + s.control.got)
    case AllTaken =>
      if s.control.Shrinking? then
        s.(window := s.control.want, control := Growing(s.control.want))
      else if s.control.purpose.ForDrain? then
        s.(control := Giving(s.control.purpose, s.control.got), drain := s.drain.(idle := s.drain.idle + [|s.frames|]))
      else
        s.(control := Giving(s.control.purpose, s.control.got))
    case GiveSlot => s.(free := Give(s.free), control := s.control.(left := s.control.left - 1))
    case AllGiven =>
      if !s.control.Giving? then s.(control := Ready)
      else if s.control.purpose.ForDrain? then s.(control := Posting(s.control.purpose.round + 1))
      else s.(control := Shrinking(0, s.control.purpose.want))
  }

  /** `metrics_reset` */
  function Cleared(s: Node): Node {
    s.(counters := Counters(0, 0, 0, 0, 0, 0, 0),
       baseline := Baseline(BusyOf(s.generator) + BusyOf(s.echo), AcceptedOf(s.generator) + AcceptedOf(s.echo),
                            |s.frames|, Count(s.frames, Settled), 0, BusyOf(s.echo)))
  }

  // ----- runs -----

  datatype Action =
    | ByGenerator(g: GeneratorMove)
    | BySender(x: Actor, m: SendMove)
    | ByRadio(r: RadioMove)
    | ByReceiver(v: ReceiverMove)
    | ByFlush(u: FlushMove)
    | ByWindow(w: WindowMove)
    | ResetMetrics

  predicate Enabled(s: Node, a: Action) {
    match a
    case ByGenerator(g) => GeneratorMay(s, g)
    case BySender(x, m) => SenderMay(s, x, m)
    case ByRadio(r) => RadioMay(s, r)
    case ByReceiver(v) => ReceiverMay(s, v)
    case ByFlush(u) => FlushMay(s, u)
    case ByWindow(w) => WindowMay(s, w)
    case ResetMetrics => s.control == Ready
  }

  function Apply(s: Node, a: Action): Node
    requires Enabled(s, a)
  {
    match a
    case ByGenerator(g) => GeneratorDoes(s, g)
    case BySender(x, m) => SenderDoes(s, x, m)
    case ByRadio(r) => RadioDoes(s, r)
    case ByReceiver(v) => ReceiverDoes(s, v)
    case ByFlush(u) => FlushDoes(s, u)
    case ByWindow(w) => WindowDoes(s, w)
    case ResetMetrics => Cleared(s)
  }

  /** A run: every action enabled where it is taken. */
  predicate Runs(s: Node, actions: seq<Action>, t: Node)
    decreases |actions|
  {
    if actions == [] then t == s
    else Enabled(s, actions[0]) && Runs(Apply(s, actions[0]), actions[1..], t)
  }

  predicate Follows(s: Node, t: Node, a: Action) {
    Enabled(s, a) && t == Apply(s, a)
  }

  ghost predicate Moves(s: Node, t: Node) {
    exists a :: Follows(s, t, a)
  }

  /** The successive states of a run from boot. */
  ghost predicate Path(p: seq<Node>) {
    p != [] && p[0] == Boot() && forall i | 0 < i < |p| :: Moves(p[i - 1], p[i])
  }

  /** Some run from boot comes to this state. */
  ghost predicate Reachable(t: Node) {
    exists p :: Path(p) && p[|p| - 1] == t
  }

  /** The states of a run from boot, with the action between each and the next. */
  ghost predicate Trail(p: seq<Node>, actions: seq<Action>) {
    && |p| == |actions| + 1 && p[0] == Boot()
    && forall i | 0 <= i < |actions| :: Follows(p[i], p[i + 1], actions[i])
  }
}
