/** What holds on every run of one node's transmit window, queue and drain. */
module TxSafety {
  import opened TxFence
  import opened FrameTracking
  import opened SlotWindow
  import opened DrainFence
  import opened TxAccounting

  /** Notifications and barriers outstanding beyond those of the current drain stem from flushes that
      timed out while waiting. */
  ghost predicate Remembered(s: Node) {
    Outstanding(s) <= s.timedOutWaits + (if s.control.Awaiting? then 1 else 0)
  }

  /** The control task has not come to hold the whole window. */
  predicate BeforeHolding(c: Control) {
    match c
    case Ready => true
    case Posting(n) => n == 0
    case Awaiting(n) => n == 0
    case Taking(p, _) => p.ForDrain? ==> p.round == 0
    case Releasing(_) => true
    case _ => false
  }

  /** With a slot lost it never again does. */
  ghost predicate HeldBack(s: Node) {
    s.lost > 0 ==> BeforeHolding(s.control)
  }

  ghost predicate Sound(s: Node) {
    Consistent(s) && SlotsConserved(s) && Fenced(s) && Balanced(s) && Remembered(s) && HeldBack(s)
  }

  lemma RememberedStep(s: Node, a: Action)
    requires Consistent(s) && Remembered(s) && Enabled(s, a)
    ensures Remembered(Apply(s, a))
  {
    match a
    case BySender(x, m) =>
      SenderOutstanding(s, x, m);
      OthersLeaveControl(s, a);
    case ByRadio(r) =>
      RadioOutstanding(s, r);
      OthersLeaveControl(s, a);
    case ByReceiver(v) =>
      ReceiverOutstanding(s, v);
      OthersLeaveControl(s, a);
    case ByFlush(u) => FlushRemembered(s, u);
    case ByWindow(w) => WindowRemembered(s, w);
    case ByGenerator(_) =>
    case ResetMetrics =>
  }

  /** What the other tasks leave to the control task. */
  predicate Untouched(s: Node, t: Node) {
    && t.lost == s.lost && t.window == s.window && t.control == s.control && t.drain == s.drain
    && t.timedOutWaits == s.timedOutWaits && t.responder == s.responder
  }

  lemma SenderLeavesControl(s: Node, x: Actor, m: SendMove)
    requires SenderMay(s, x, m)
    ensures Untouched(s, SenderDoes(s, x, m))
  {}

  lemma RadioLeavesControl(s: Node, r: RadioMove)
    requires RadioMay(s, r)
    ensures Untouched(s, RadioDoes(s, r))
  {}

  lemma ReceiverLeavesControl(s: Node, v: ReceiverMove)
    requires ReceiverMay(s, v)
    ensures Untouched(s, ReceiverDoes(s, v))
  {}

  lemma OthersLeaveControl(s: Node, a: Action)
    requires Enabled(s, a) && !a.ByFlush? && !a.ByWindow?
    ensures Untouched(s, Apply(s, a))
  {
    match a
    case BySender(x, m) => SenderLeavesControl(s, x, m);
    case ByRadio(r) => RadioLeavesControl(s, r);
    case ByReceiver(v) => ReceiverLeavesControl(s, v);
    case ByGenerator(_) =>
    case ResetMetrics =>
  }

  lemma FlushRemembered(s: Node, u: FlushMove)
    requires Consistent(s) && Remembered(s) && FlushMay(s, u)
    ensures Remembered(FlushDoes(s, u))
  {
    BarriersAppend(s.log, Barrier, Handled(s));
  }

  lemma WindowRemembered(s: Node, w: WindowMove)
    requires Remembered(s) && WindowMay(s, w)
    ensures Remembered(WindowDoes(s, w))
  {}

  lemma NeverAllTaken(s: Node)
    requires Consistent(s) && SlotsConserved(s) && s.lost > 0
    ensures !Enabled(s, ByWindow(AllTaken))
  {
    if Enabled(s, ByWindow(AllTaken)) {
      AllTakenMeansIdle(s);
    }
  }

  lemma FlushHeldBack(s: Node, u: FlushMove)
    requires BeforeHolding(s.control) && FlushMay(s, u)
    ensures var t := FlushDoes(s, u);
      && t.lost == s.lost && t.window == s.window && BeforeHolding(t.control)
      && (t.drain.done ==> s.drain.done)
  {}

  lemma WindowHeldBack(s: Node, w: WindowMove)
    requires BeforeHolding(s.control) && WindowMay(s, w) && w != AllTaken
    ensures var t := WindowDoes(s, w);
      && t.lost == s.lost && t.window == s.window && BeforeHolding(t.control)
      && (t.drain.done ==> s.drain.done)
  {}

  lemma StepHeldBack(s: Node, a: Action)
    requires BeforeHolding(s.control) && Enabled(s, a) && a != ByWindow(AllTaken)
    ensures var t := Apply(s, a);
      && t.lost == s.lost && t.window == s.window && BeforeHolding(t.control)
      && (t.drain.done ==> s.drain.done)
  {
    match a
    case ByFlush(u) => FlushHeldBack(s, u);
    case ByWindow(w) => WindowHeldBack(s, w);
    case _ => OthersLeaveControl(s, a);
  }

  lemma SlotLost(s: Node, a: Action)
    requires s.lost == 0 && Enabled(s, a)
    ensures HeldBack(Apply(s, a))
  {
    if !a.ByFlush? && !a.ByWindow? {
      OthersLeaveControl(s, a);
    }
  }

  lemma SoundStep(s: Node, a: Action)
    requires Sound(s) && Enabled(s, a)
    ensures Sound(Apply(s, a))
  {
    StaysConsistent(s, a);
    SlotsStep(s, a);
    FencedStep(s, a);
    BalancedStep(s, a);
    RememberedStep(s, a);
    if s.lost > 0 {
      NeverAllTaken(s);
      StepHeldBack(s, a);
    } else {
      SlotLost(s, a);
    }
  }

  lemma {:induction false} SoundPath(p: seq<Node>)
    requires Path(p)
    ensures Sound(p[|p| - 1])
  {
    var n := |p| - 1;
    if n == 0 {
      BootIsSound();
    } else {
      SoundPath(p[..n]);
      assert Moves(p[n - 1], p[n]) && p[..n][n - 1] == p[n - 1];
      var a :| Follows(p[n - 1], p[n], a);
      SoundStep(p[n - 1], a);
    }
  }

  lemma BootIsSound()
    ensures Sound(Boot())
  {
    var s := Boot();
    assert s.frames == [] && s.log == [] && s.control == Ready && s.generator == Idle && s.echo == Idle;
    NothingYet(s);
  }

  lemma NothingYet(s: Node)
    requires s.frames == [] && s.log == [] && s.taken == 0 && s.receiver == Waiting
    requires s.generator == Idle && s.echo == Idle && s.control == Ready && s.notifications == 0
    requires s.window == 1 && s.free == 1 && s.lost == 0
    requires s.counters == Counters(0, 0, 0, 0, 0, 0, 0) && s.baseline == Baseline(0, 0, 0, 0, 0, 0)
    ensures Sound(s)
  {
    assert Which(s.frames, HoldsToken) == {} && Which(s.frames, Settled) == {};
  }

  /** The invariant holds in every state any interleaving can reach. */
  lemma EveryRunIsSound(t: Node)
    requires Reachable(t)
    ensures Sound(t)
  {
    var p :| Path(p) && p[|p| - 1] == t;
    SoundPath(p);
  }

  lemma OneMoreState(p: seq<Node>, t: Node)
    requires Path(p) && Moves(p[|p| - 1], t)
    ensures Path(p + [t])
  {
    var q := p + [t];
    forall i | 0 < i < |q|
      ensures Moves(q[i - 1], q[i])
    {
      if i < |p| {
        assert q[i - 1] == p[i - 1] && q[i] == p[i];
      }
    }
  }

  lemma AlsoReachable(s: Node, a: Action)
    requires Reachable(s) && Enabled(s, a)
    ensures Reachable(Apply(s, a))
  {
    var t := Apply(s, a);
    assert Follows(s, t, a);
    var p :| Path(p) && p[|p| - 1] == s;
    OneMoreState(p, t);
    var q := p + [t];
    assert q[|q| - 1] == t;
  }

  // ----- the transmit window -----

  /** Slot conservation on every run, and with it the bound on frames in flight. */
  lemma SlotsOnEveryRun(t: Node)
    requires Reachable(t)
    ensures t.free + SlotsOf(t.generator) + SlotsOf(t.echo) + SlotsOfControl(t.control) + InFlight(t) + t.lost
         == t.window
    ensures InFlight(t) <= t.window <= 32
  {
    EveryRunIsSound(t);
  }

  /** The queue never holds more than 64 events, and every completion still in it is that of a frame whose slot
      is not given back before the completion was posted. */
  lemma QueueOnEveryRun(t: Node, k: nat)
    requires Reachable(t)
    ensures t.taken <= |t.log| <= t.taken + 64
    ensures t.taken <= k < |t.log| && t.log[k].Completion? ==>
      t.log[k].frame < |t.frames| && t.frames[t.log[k].frame].fate == Queued(k)
    ensures forall f | 0 <= f < |t.frames| && t.frames[f].fate == Pending :: t.frames[f].token
  {
    EveryRunIsSound(t);
  }

  predicate Gives(a: Action) {
    match a
    case BySender(_, m) => m == GiveBack
    case ByRadio(r) => r.ReturnSlot?
    case ByWindow(w) => w == GiveSlot
    case _ => false
  }

  /** No give ever meets a full semaphore. */
  lemma NoGiveIsRefused(t: Node, a: Action)
    requires Reachable(t) && Enabled(t, a) && Gives(a)
    ensures t.free < MAX_WINDOW && Apply(t, a).free == t.free + 1
  {
    EveryRunIsSound(t);
    if a.ByRadio? {
      assert a.r.frame in Which(t.frames, HoldsToken);
      assert InFlight(t) > 0;
    }
  }

  /** A resize that has taken `got` slots meets an empty semaphore exactly when the other slots are all
      with somebody else, and then precisely the slots taken so far are lost. */
  lemma AbortedResize(t: Node)
    requires Reachable(t) && t.control.Shrinking? && t.control.got < t.window
    ensures var elsewhere := SlotsOf(t.generator) + SlotsOf(t.echo) + InFlight(t) + t.lost;
      Enabled(t, ByWindow(TakeTimesOut)) <==> t.control.got + elsewhere == t.window
    ensures Enabled(t, ByWindow(TakeTimesOut)) ==>
      var u := Apply(t, ByWindow(TakeTimesOut));
      u.window == t.window && u.lost == t.lost + t.control.got && u.control == Ready
  {
    EveryRunIsSound(t);
  }

  /** A resize that goes through held every slot there was, and the new window is whole. */
  lemma CompletedResize(t: Node)
    requires Reachable(t) && t.control.Shrinking? && Enabled(t, ByWindow(AllTaken))
    ensures var u := Apply(t, ByWindow(AllTaken));
      && u.window == t.control.want && u.lost == 0 && InFlight(u) == 0
      && SlotsOfControl(u.control) == u.window
  {
    EveryRunIsSound(t);
    var u := Apply(t, ByWindow(AllTaken));
    assert u.frames == t.frames;
  }

  /** A lost slot stays lost, and nobody ever holds the whole window again. */
  lemma {:induction false} LossPersists(s: Node, actions: seq<Action>, t: Node)
    requires Sound(s) && s.lost > 0 && Runs(s, actions, t)
    ensures Sound(t) && t.lost == s.lost && t.window == s.window
    ensures !Enabled(t, ByWindow(AllTaken)) && !DrainSucceeds(t)
    ensures t.drain.done ==> s.drain.done
    decreases |actions|
  {
    NeverAllTaken(s);
    if actions != [] {
      SoundStep(s, actions[0]);
      StepHeldBack(s, actions[0]);
      LossPersists(Apply(s, actions[0]), actions[1..], t);
    }
  }

  /** Once an aborted resize has lost a slot, every later drain and every later resize fails, whatever the
      other tasks do and whatever drains had succeeded before: the loss lasts until the node reboots. */
  lemma LostSlotsStopEveryDrain(s: Node, actions: seq<Action>, t: Node)
    requires Reachable(s) && s.lost > 0 && Runs(s, actions, t)
    ensures t.lost == s.lost && t.window == s.window
    ensures !Enabled(t, ByWindow(AllTaken)) && !DrainSucceeds(t)
    ensures t.drain.done ==> s.drain.done
  {
    EveryRunIsSound(s);
    LossPersists(s, actions, t);
  }

  // ----- the drain fence -----

  /** The state in which `drain_measurement_events` is about to return true. */
  predicate DrainSucceeds(s: Node) {
    s.control == Awaiting(2) && s.notifications > 0
  }

  /** Every event queued before the drain began is processed. */
  predicate EventsFenced(s: Node) {
    s.drain.events <= Handled(s)
  }

  /** The completion of every frame submitted before the drain began was counted or dropped. */
  predicate FramesFenced(s: Node) {
    forall f | 0 <= f < |s.frames| && f < s.drain.frames :: Settled(s.frames[f])
  }

  /** So was that of every frame echoed because of an event queued before the drain began. */
  predicate EchoesFenced(s: Node) {
    forall f | 0 <= f < |s.frames| && s.frames[f].cause.EchoOf? && s.frames[f].cause.event < s.drain.events ::
      Settled(s.frames[f])
  }

  /** What a successful drain promises, by the number of barriers and notifications outstanding when it
      began: everything with none, all but the echoes with one, the events only with two. */
  ghost predicate FencePromise(s: Node) {
    && (s.drain.stale <= 2 ==> EventsFenced(s))
    && (s.drain.stale <= 1 ==> FramesFenced(s))
    && (s.drain.stale == 0 ==> EchoesFenced(s))
  }

  /** Every drain that succeeds keeps the promise. */
  lemma DrainIsFence(s: Node)
    requires Reachable(s) && DrainSucceeds(s)
    ensures FencePromise(s)
  {
    EveryRunIsSound(s);
    ReturnPassed(s);
    var d := s.drain;
    if d.stale <= 2 {
      assert d.barriers[2 - d.stale] < Handled(s);
    }
    if d.stale <= 1 {
      forall f | 0 <= f < d.idle[1 - d.stale] ensures Settled(s.frames[f]) {
        assert ClearBefore(d, 1 - d.stale, s.frames[f]);
      }
    }
    if d.stale == 0 {
      forall f | 0 <= f < |s.frames| && s.frames[f].cause.EchoOf? && s.frames[f].cause.event < d.events
        ensures Settled(s.frames[f])
      {
        assert f < d.idle[1];
      }
    }
  }

  /** A drain finds nothing outstanding unless some earlier flush timed out while waiting. */
  lemma StaleOnlyAfterTimeout(s: Node)
    requires Reachable(s) && Enabled(s, ByFlush(BeginDrain))
    ensures Apply(s, ByFlush(BeginDrain)).drain.stale <= s.timedOutWaits
  {
    EveryRunIsSound(s);
  }

  // ----- the counters a drained node reports -----

  /** Frames accepted before the last reset whose completions were still to come. */
  function CarriedOver(s: Node): int {
    s.baseline.frames - s.baseline.settled
  }

  /** On every run each request is accounted for, up to the sends in progress now and at the last reset. */
  lemma RequestsAccounted(s: Node)
    requires Reachable(s)
    ensures s.counters.requested + s.baseline.inProgress
         == s.counters.submitted + s.counters.apiFailure + s.counters.slotTimeout + InProgress(s)
    ensures InProgress(s) <= 2
  {
    EveryRunIsSound(s);
  }

  /** On every run, on any node: completions counted, dropped and still to come are the submissions since the
      last reset and what was outstanding then. */
  lemma CompletionsAccounted(s: Node)
    requires Reachable(s)
    ensures s.counters.cbSuccess + s.counters.cbFailure + s.baseline.droppedSince + (|s.frames| - SettledFrames(s))
         == s.counters.submitted + AcceptedUnrecorded(s) + CarriedOver(s) - s.baseline.accepted
  {
    EveryRunIsSound(s);
  }

  /** On a node that made no echo since the last reset, a drain that succeeds without a second outstanding
      flush leaves every accepted frame's completion counted or dropped. The counters then match the
      submissions exactly if nothing was outstanding at the reset, and are off by precisely what was. */
  lemma DrainedCounts(s: Node)
    requires Reachable(s) && DrainSucceeds(s) && s.drain.stale <= 1 && s.baseline.echoes == 0
    ensures s.counters.cbSuccess + s.counters.cbFailure + s.baseline.droppedSince
         == s.counters.submitted + CarriedOver(s) - s.baseline.accepted
    ensures CarriedOver(s) == 0 && s.baseline.accepted == 0 ==>
      s.counters.submitted - s.counters.queueDrops
      <= s.counters.cbSuccess + s.counters.cbFailure <= s.counters.submitted
  {
    EveryRunIsSound(s);
    DrainIsFence(s);
    AtMostAll(s.frames, Settled);
  }
}
