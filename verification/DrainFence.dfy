/** `drain_measurement_events` as a fence, in every interleaving: what has certainly been
    processed when its third flush returns, and how much of that survives flushes that timed
    out earlier and left their barrier in the queue. */
module DrainFence {
  import opened TxFence
  import opened FrameTracking
  import opened SlotWindow

  // ----- where a drain is -----

  predicate InDrain(c: Control) {
    match c
    case Posting(_) => true
    case Awaiting(_) => true
    case Taking(p, _) => p.ForDrain?
    case Giving(p, _) => p.ForDrain?
    case _ => false
  }

  /** Flushes that have returned. */
  function Returned(c: Control): nat
    requires InDrain(c)
  {
    match c
    case Posting(n) => n
    case Awaiting(n) => n
    case Taking(p, _) => p.round + 1
    case Giving(p, _) => p.round + 1
  }

  /** Barriers this drain has put into the queue. */
  function Posted(c: Control): nat
    requires InDrain(c)
  {
    if c.Posting? then c.round else if c.Awaiting? then c.round + 1 else Returned(c)
  }

  /** Times this drain has held the whole window. */
  function Idled(c: Control): nat
    requires InDrain(c)
  {
    if c.Taking? then c.purpose.round else Returned(c)
  }

  // ----- what a drain knows -----

  ghost predicate Shape(d: Drain, c: Control)
    requires InDrain(c)
  {
    && |d.barriers| == Posted(c)
    && |d.idle| == Idled(c)
    && Posted(c) <= 3 && Returned(c) <= 2
  }

  /** Each return consumed a notification, and only the barriers of this drain or stale ones give any. */
  ghost predicate Budget(s: Node)
    requires InDrain(s.control)
  {
    Returned(s.control) + Outstanding(s) <= s.drain.stale + Posted(s.control)
  }

  /** This drain's barriers stand in the queue in order, behind everything queued before it began. */
  ghost predicate BarriersPlaced(d: Drain, log: seq<Event>) {
    && d.events <= |log|
    && (forall i | 0 <= i < |d.barriers| :: d.events <= d.barriers[i] < |log| && log[d.barriers[i]] == Barrier)
    && (forall i, j | 0 <= i < j < |d.barriers| :: d.barriers[i] < d.barriers[j])
  }

  /** With k stale barriers, the return of flush i + k shows that barrier i was processed. */
  ghost predicate Passed(d: Drain, returned: nat, handled: int) {
    forall i | 0 <= i < |d.barriers| && i + d.stale < returned :: d.barriers[i] < handled
  }

  /** A frame that existed when the drain held every slot has had its completion posted, in front of the
      barrier that followed. */
  ghost predicate IdleClear(d: Drain, frames: seq<Frame>) {
    && (forall i | 0 <= i < |d.idle| :: d.frames <= d.idle[i] <= |frames|)
    && d.frames <= |frames|
    && (forall i, f | 0 <= i < |d.idle| && 0 <= f < d.idle[i] :: ClearBefore(d, i, frames[f]))
  }

  predicate ClearBefore(d: Drain, i: int, f: Frame) {
    && !f.token
    && (0 <= i && i + 1 < |d.barriers| && f.fate.Queued? ==> f.fate.at < d.barriers[i + 1])
  }

  /** A frame accepted after an instant at which the drain held every slot echoes an event behind the
      barrier that preceded the instant. */
  ghost predicate EchoesBehind(d: Drain, frames: seq<Frame>) {
    forall i, f | 0 <= i < |d.idle| && i < |d.barriers| && d.idle[i] <= f < |frames| && frames[f].cause.EchoOf? ::
      d.barriers[i] < frames[f].cause.event
  }

  ghost predicate Quiet(s: Node) {
    !s.generating && s.generator == Idle && (s.baseline.echoes == 0 ==> |s.frames| == s.drain.frames)
  }

  ghost predicate Fenced(s: Node) {
    InDrain(s.control) ==>
      && Shape(s.drain, s.control)
      && Budget(s)
      && BarriersPlaced(s.drain, s.log)
      && Passed(s.drain, Returned(s.control), Handled(s))
      && IdleClear(s.drain, s.frames)
      && (s.drain.stale == 0 ==> EchoesBehind(s.drain, s.frames))
      && Quiet(s)
  }

  // ----- counting barriers -----

  lemma BarriersFrom(log: seq<Event>, from: nat)
    requires from < |log|
    ensures Barriers(log, from) == (if log[from].Barrier? then 1 else 0) + Barriers(log, from + 1)
  {}

  lemma {:induction false} BarriersAppend(log: seq<Event>, e: Event, from: nat)
    requires from <= |log|
    ensures Barriers(log + [e], from) == Barriers(log, from) + (if e.Barrier? then 1 else 0)
    decreases |log| - from
  {
    if from < |log| {
      BarriersAppend(log, e, from + 1);
    }
  }

  /** Barriers standing at given positions are counted. */
  lemma {:induction false} BarriersAtLeast(log: seq<Event>, from: nat, at: seq<nat>)
    requires forall i | 0 <= i < |at| :: from <= at[i] < |log| && log[at[i]] == Barrier
    requires forall i, j | 0 <= i < j < |at| :: at[i] < at[j]
    ensures Barriers(log, from) >= |at|
    decreases |log| - from
  {
    if at != [] {
      if at[0] == from {
        BarriersAtLeast(log, from + 1, at[1..]);
      } else {
        BarriersAtLeast(log, from + 1, at);
      }
    }
  }

  // ----- every step keeps it -----

  lemma SenderFenced(s: Node, x: Actor, m: SendMove)
    requires Consistent(s) && Fenced(s) && SenderMay(s, x, m)
    ensures Fenced(SenderDoes(s, x, m))
  {
    var t := SenderDoes(s, x, m);
    assert t.control == s.control && t.drain == s.drain && t.log == s.log && t.notifications == s.notifications;
    assert t.generating == s.generating && t.baseline.echoes >= s.baseline.echoes;
    if InDrain(s.control) {
      SenderFrames(s, x, m);
      SenderOutstanding(s, x, m);
    }
  }

  lemma SenderOutstanding(s: Node, x: Actor, m: SendMove)
    requires Consistent(s) && SenderMay(s, x, m)
    ensures Outstanding(SenderDoes(s, x, m)) == Outstanding(s)
    ensures Handled(s) <= Handled(SenderDoes(s, x, m))
  {}

  lemma SenderFrames(s: Node, x: Actor, m: SendMove)
    requires Consistent(s) && Fenced(s) && InDrain(s.control) && SenderMay(s, x, m)
    ensures var t := SenderDoes(s, x, m);
      IdleClear(s.drain, t.frames) && (s.drain.stale == 0 ==> EchoesBehind(s.drain, t.frames)) && Quiet(t)
  {}

  lemma RadioFrames(s: Node, r: RadioMove)
    requires Consistent(s) && Fenced(s) && InDrain(s.control) && RadioMay(s, r)
    ensures var t := RadioDoes(s, r);
      && |t.frames| == |s.frames| && IdleClear(s.drain, t.frames)
      && (s.drain.stale == 0 ==> EchoesBehind(s.drain, t.frames))
  {
    var t := RadioDoes(s, r);
    assert |t.frames| == |s.frames|;
    assert forall f | 0 <= f < |s.frames| :: t.frames[f].cause == s.frames[f].cause;
    if !r.Arrive? {
      assert s.frames[r.frame].token;
      assert forall i | 0 <= i < |s.drain.idle| :: s.drain.idle[i] <= r.frame;
    }
  }

  lemma RadioOutstanding(s: Node, r: RadioMove)
    requires Consistent(s) && RadioMay(s, r)
    ensures var t := RadioDoes(s, r);
      && Outstanding(t) == Outstanding(s) && Handled(t) == Handled(s)
      && |s.log| <= |t.log| && t.log[..|s.log|] == s.log
  {
    var t := RadioDoes(s, r);
    if t.log != s.log {
      BarriersAppend(s.log, t.log[|s.log|], Handled(s));
    }
  }

  lemma RadioFenced(s: Node, r: RadioMove)
    requires Consistent(s) && Fenced(s) && RadioMay(s, r)
    ensures Fenced(RadioDoes(s, r))
  {
    var t := RadioDoes(s, r);
    assert t.control == s.control && t.drain == s.drain;
    assert t.generating == s.generating && t.baseline.echoes >= s.baseline.echoes && t.generator == s.generator;
    if InDrain(s.control) {
      RadioFrames(s, r);
      RadioOutstanding(s, r);
      PlacedInLonger(s.drain, s.log, t.log);
    }
  }

  lemma PlacedInLonger(d: Drain, log: seq<Event>, longer: seq<Event>)
    requires BarriersPlaced(d, log) && |log| <= |longer| && longer[..|log|] == log
    ensures BarriersPlaced(d, longer)
  {
    assert forall k | 0 <= k < |log| :: longer[..|log|][k] == longer[k];
  }

  lemma ReceiverOutstanding(s: Node, v: ReceiverMove)
    requires Consistent(s) && ReceiverMay(s, v)
    ensures Outstanding(ReceiverDoes(s, v)) == Outstanding(s)
    ensures Handled(s) <= Handled(ReceiverDoes(s, v))
  {}

  lemma ReceiverFrames(s: Node, v: ReceiverMove)
    requires Consistent(s) && Fenced(s) && InDrain(s.control) && ReceiverMay(s, v)
    ensures var t := ReceiverDoes(s, v);
      && |t.frames| == |s.frames| && IdleClear(s.drain, t.frames)
      && (s.drain.stale == 0 ==> EchoesBehind(s.drain, t.frames))
  {
    var t := ReceiverDoes(s, v);
    assert forall f | 0 <= f < |s.frames| ::
        t.frames[f].cause == s.frames[f].cause && t.frames[f].token == s.frames[f].token;
    assert forall f | 0 <= f < |s.frames| :: t.frames[f].fate == s.frames[f].fate || t.frames[f].fate == Counted;
  }

  lemma ReceiverFenced(s: Node, v: ReceiverMove)
    requires Consistent(s) && Fenced(s) && ReceiverMay(s, v)
    ensures Fenced(ReceiverDoes(s, v))
  {
    var t := ReceiverDoes(s, v);
    assert t.control == s.control && t.drain == s.drain && t.log == s.log;
    assert t.generating == s.generating && t.baseline.echoes >= s.baseline.echoes && t.generator == s.generator;
    if InDrain(s.control) {
      ReceiverFrames(s, v);
      ReceiverOutstanding(s, v);
    }
  }

  /** A return leaves at most as many barriers unprocessed as were stale when the drain began. */
  lemma ReturnPassed(s: Node)
    requires Consistent(s) && Fenced(s) && s.control.Awaiting? && s.notifications > 0
    ensures Passed(s.drain, s.control.round + 1, Handled(s))
  {
    var d := s.drain;
    forall k | 0 <= k < |d.barriers| && k + d.stale < s.control.round + 1
      ensures d.barriers[k] < Handled(s)
    {
      if d.barriers[k] >= Handled(s) {
        BarriersAtLeast(s.log, Handled(s), d.barriers[k..]);
      }
    }
  }

  lemma OneMoreBarrier(d: Drain, frames: seq<Frame>, at: nat)
    requires |d.barriers| == |d.idle|
    requires forall f | 0 <= f < |frames| && frames[f].fate.Queued? :: frames[f].fate.at < at
    requires IdleClear(d, frames)
    ensures IdleClear(d.(barriers := d.barriers + [at]), frames)
  {
    var e := d.(barriers := d.barriers + [at]);
    forall i, f | 0 <= i < |e.idle| && 0 <= f < e.idle[i]
      ensures ClearBefore(e, i, frames[f])
    {
      assert ClearBefore(d, i, frames[f]);
    }
  }

  lemma StillBehind(d: Drain, frames: seq<Frame>, at: nat)
    requires |d.barriers| == |d.idle| && EchoesBehind(d, frames)
    ensures EchoesBehind(d.(barriers := d.barriers + [at]), frames)
  {
    var e := d.(barriers := d.barriers + [at]);
    assert forall i | 0 <= i < |d.barriers| :: e.barriers[i] == d.barriers[i];
  }

  lemma PlacedOneMore(d: Drain, log: seq<Event>)
    requires BarriersPlaced(d, log)
    ensures BarriersPlaced(d.(barriers := d.barriers + [|log|]), log + [Barrier])
  {
    PlacedInLonger(d, log, log + [Barrier]);
  }

  lemma PostFenced(s: Node)
    requires Consistent(s) && Fenced(s) && FlushMay(s, PostBarrier)
    ensures Fenced(FlushDoes(s, PostBarrier))
  {
    var t := FlushDoes(s, PostBarrier);
    assert t.log == s.log + [Barrier] && t.frames == s.frames && Handled(t) == Handled(s);
    assert t.drain == s.drain.(barriers := s.drain.barriers + [|s.log|]);
    BarriersAppend(s.log, Barrier, Handled(s));
    PlacedOneMore(s.drain, s.log);
    OneMoreBarrier(s.drain, s.frames, |s.log|);
    if s.drain.stale == 0 {
      StillBehind(s.drain, s.frames, |s.log|);
    }
  }

  lemma FlushFenced(s: Node, u: FlushMove)
    requires Consistent(s) && Fenced(s) && FlushMay(s, u)
    ensures Fenced(FlushDoes(s, u))
  {
    match u
    case PostBarrier => PostFenced(s);
    case TakeNotification => ReturnPassed(s);
    case BeginDrain =>
    case PostTimesOut =>
    case AwaitTimesOut =>
  }

  lemma AllTakenMeansIdle(s: Node)
    requires Consistent(s) && SlotsConserved(s)
    requires (s.control.Taking? || s.control.Shrinking?) && s.control.got >= s.window
    ensures s.lost == 0 && s.free == 0 && SlotsOf(s.generator) == 0 && SlotsOf(s.echo) == 0
    ensures forall f | 0 <= f < |s.frames| :: !s.frames[f].token && s.frames[f].fate != Pending
  {
    assert InFlight(s) == 0;
    forall f | 0 <= f < |s.frames| ensures !s.frames[f].token {
      assert f !in Which(s.frames, HoldsToken);
    }
  }

  /** Holding every slot adds an instant before which every frame is cleared and behind which there is none. */
  lemma IdleAgain(s: Node)
    requires Consistent(s) && Fenced(s) && InDrain(s.control) && s.control.Taking?
    requires forall f | 0 <= f < |s.frames| :: !s.frames[f].token
    ensures IdleClear(s.drain.(idle := s.drain.idle + [|s.frames|]), s.frames)
    ensures s.drain.stale == 0 ==> EchoesBehind(s.drain.(idle := s.drain.idle + [|s.frames|]), s.frames)
  {
    var d := s.drain.(idle := s.drain.idle + [|s.frames|]);
    assert d.barriers == s.drain.barriers && |d.barriers| == |d.idle| == |s.drain.idle| + 1;
    assert forall i | 0 <= i < |s.drain.idle| :: d.idle[i] == s.drain.idle[i];
  }

  lemma AllTakenFenced(s: Node)
    requires Consistent(s) && SlotsConserved(s) && Fenced(s) && WindowMay(s, AllTaken)
    ensures Fenced(WindowDoes(s, AllTaken))
  {
    AllTakenMeansIdle(s);
    var t := WindowDoes(s, AllTaken);
    if InDrain(s.control) {
      IdleAgain(s);
      assert t.drain == s.drain.(idle := s.drain.idle + [|s.frames|]);
      assert t.frames == s.frames && t.log == s.log && t.control == Giving(s.control.purpose, s.control.got);
      assert Shape(t.drain, t.control) && Outstanding(t) == Outstanding(s);
    }
  }

  /** What the fence speaks of, but for the place of the control task. */
  ghost predicate SameFence(s: Node, t: Node) {
    && t.frames == s.frames && t.log == s.log && t.taken == s.taken && t.receiver == s.receiver
    && t.notifications == s.notifications && t.drain == s.drain && t.baseline == s.baseline
    && t.generating == s.generating && t.generator == s.generator
  }

  lemma SamePlaceFenced(s: Node, t: Node)
    requires Fenced(s) && SameFence(s, t)
    requires InDrain(t.control) ==>
      && InDrain(s.control) && Returned(t.control) == Returned(s.control)
      && Posted(t.control) == Posted(s.control) && Idled(t.control) == Idled(s.control)
    ensures Fenced(t)
  {}

  lemma WindowFenced(s: Node, w: WindowMove)
    requires Consistent(s) && SlotsConserved(s) && Fenced(s) && WindowMay(s, w)
    ensures Fenced(WindowDoes(s, w))
  {
    if w == AllTaken {
      AllTakenFenced(s);
    } else {
      SamePlaceFenced(s, WindowDoes(s, w));
    }
  }

  lemma FencedStep(s: Node, a: Action)
    requires Consistent(s) && SlotsConserved(s) && Fenced(s) && Enabled(s, a)
    ensures Fenced(Apply(s, a))
  {
    match a
    case BySender(x, m) => SenderFenced(s, x, m);
    case ByRadio(r) => RadioFenced(s, r);
    case ByReceiver(v) => ReceiverFenced(s, v);
    case ByFlush(u) => FlushFenced(s, u);
    case ByWindow(w) => WindowFenced(s, w);
    case ByGenerator(g) => GeneratorFenced(s, g);
    case ResetMetrics =>
  }

  lemma GeneratorFenced(s: Node, g: GeneratorMove)
    requires Fenced(s) && GeneratorMay(s, g)
    ensures Fenced(GeneratorDoes(s, g))
  {
    assert !InDrain(s.control);
  }
}
