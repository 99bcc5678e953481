/** Runs from boot that show the limits of the transmit window and of the drain fence. */
module TxScenarios {
  import opened DrainFence
  import opened TxFence
  import opened TxSafety

  // ----- single steps -----

  lemma Windows(s: Node, w: WindowMove) returns (t: Node)
    requires Reachable(s) && WindowMay(s, w)
    ensures t == WindowDoes(s, w) && Reachable(t)
  {
    AlsoReachable(s, ByWindow(w));
    t := WindowDoes(s, w);
  }

  lemma Flush(s: Node, u: FlushMove) returns (t: Node)
    requires Reachable(s) && FlushMay(s, u)
    ensures t == FlushDoes(s, u) && Reachable(t)
  {
    AlsoReachable(s, ByFlush(u));
    t := FlushDoes(s, u);
  }

  lemma Receive(s: Node, v: ReceiverMove) returns (t: Node)
    requires Reachable(s) && ReceiverMay(s, v)
    ensures t == ReceiverDoes(s, v) && Reachable(t)
  {
    AlsoReachable(s, ByReceiver(v));
    t := ReceiverDoes(s, v);
  }

  lemma Radio(s: Node, r: RadioMove) returns (t: Node)
    requires Reachable(s) && RadioMay(s, r)
    ensures t == RadioDoes(s, r) && Reachable(t)
  {
    AlsoReachable(s, ByRadio(r));
    t := RadioDoes(s, r);
  }

  lemma Sends(s: Node, x: Actor, m: SendMove) returns (t: Node)
    requires Reachable(s) && SenderMay(s, x, m)
    ensures t == SenderDoes(s, x, m) && Reachable(t)
  {
    AlsoReachable(s, BySender(x, m));
    t := SenderDoes(s, x, m);
  }

  lemma Generates(s: Node, g: GeneratorMove) returns (t: Node)
    requires Reachable(s) && GeneratorMay(s, g)
    ensures t == GeneratorDoes(s, g) && Reachable(t)
  {
    AlsoReachable(s, ByGenerator(g));
    t := GeneratorDoes(s, g);
  }

  lemma ResetsMetrics(s: Node) returns (t: Node)
    requires Reachable(s) && s.control == Ready
    ensures t == Cleared(s) && Reachable(t)
  {
    AlsoReachable(s, ResetMetrics);
    t := Cleared(s);
  }

  // ----- stretches of runs -----

  lemma Booted() returns (s: Node)
    ensures s == Boot() && Reachable(s)
  {
    s := Boot();
    var p := [s];
    assert Path(p) && p[|p| - 1] == s;
  }

  lemma TakesSlot(s: Node, p: Purpose, got: nat) returns (t: Node)
    requires Reachable(s) && s.control == Taking(p, got) && got < s.window && s.free > 0
    ensures Reachable(t) && t == s.(free := s.free - 1, control := Taking(p, got + 1))
  {
    t := Windows(s, TakeSlot);
  }

  lemma Shrinks(s: Node, got: nat, want: nat) returns (t: Node)
    requires Reachable(s) && s.control == Shrinking(got, want) && got < s.window && s.free > 0
    ensures Reachable(t) && t == s.(free := s.free - 1, control := Shrinking(got + 1, want))
  {
    t := Windows(s, TakeSlot);
  }

  lemma HoldsAll(s: Node, p: Purpose) returns (t: Node)
    requires Reachable(s) && s.control == Taking(p, s.window)
    ensures Reachable(t)
    ensures t == s.(control := Giving(p, s.window),
                    drain := if p.ForDrain? then s.drain.(idle := s.drain.idle + [|s.frames|]) else s.drain)
  {
    t := Windows(s, AllTaken);
  }

  lemma Resizes(s: Node, want: nat) returns (t: Node)
    requires Reachable(s) && s.control == Shrinking(s.window, want)
    ensures Reachable(t) && t == s.(window := want, control := Growing(want))
  {
    t := Windows(s, AllTaken);
  }

  lemma GivesSlot(s: Node, p: Purpose, left: nat) returns (t: Node)
    requires Reachable(s) && s.control == Giving(p, left) && left > 0 && s.free < MAX_WINDOW
    ensures Reachable(t) && t == s.(free := s.free + 1, control := Giving(p, left - 1))
  {
    t := Windows(s, GiveSlot);
  }

  lemma Grows(s: Node, left: nat) returns (t: Node)
    requires Reachable(s) && s.control == Growing(left) && left > 0 && s.free < MAX_WINDOW
    ensures Reachable(t) && t == s.(free := s.free + 1, control := Growing(left - 1))
  {
    t := Windows(s, GiveSlot);
  }

  lemma GoesOn(s: Node) returns (t: Node)
    requires Reachable(s) && (s.control.Giving? || s.control.Growing?) && s.control.left == 0
    ensures Reachable(t)
    ensures t == s.(control := match s.control
                               case Giving(ForDrain(round), _) => Posting(round + 1)
                               case Giving(ForConfigure(want), _) => Shrinking(0, want)
                               case _ => Ready)
  {
    t := Windows(s, AllGiven);
  }

  lemma Posts(s: Node, round: nat) returns (t: Node)
    requires Reachable(s) && s.control == Posting(round) && s.taken <= |s.log| < 8
    ensures Reachable(t)
    ensures t == s.(control := Awaiting(round), log := s.log + [Barrier],
                    drain := s.drain.(barriers := s.drain.barriers + [|s.log|]))
  {
    t := Flush(s, PostBarrier);
  }

  lemma HandlesBarrier(s: Node) returns (t: Node)
    requires Reachable(s) && s.receiver == Waiting && s.taken < |s.log| && s.log[s.taken] == Barrier
    ensures Reachable(t) && t == s.(taken := s.taken + 1, notifications := s.notifications + 1)
  {
    t := Receive(s, Dequeue);
    t := Receive(t, Handle(false));
  }

  lemma HandlesCompletion(s: Node, f: nat, ok: bool) returns (t: Node)
    requires Reachable(s) && s.receiver == Waiting && s.taken < |s.log| && s.log[s.taken] == Completion(f, ok)
    requires f < |s.frames| && ok
    ensures Reachable(t)
    ensures t == s.(taken := s.taken + 1, frames := s.frames[f := s.frames[f].(fate := Counted)],
                    counters := s.counters.(cbSuccess := s.counters.cbSuccess + 1))
  {
    t := Receive(s, Dequeue);
    t := Receive(t, Handle(false));
  }

  lemma Notified(s: Node, round: nat) returns (t: Node)
    requires Reachable(s) && s.control == Awaiting(round) && round < 2 && s.notifications > 0
    ensures Reachable(t) && t == s.(notifications := 0, control := Taking(ForDrain(round), 0))
  {
    t := Flush(s, TakeNotification);
  }

  /** Taking a window of one or two slots. */
  lemma TakesAll(s0: Node, p: Purpose) returns (s: Node)
    requires Reachable(s0) && s0.control == Taking(p, 0) && 1 <= s0.window == s0.free <= 2
    ensures Reachable(s) && s == s0.(free := 0, control := Taking(p, s0.window))
  {
    s := TakesSlot(s0, p, 0);
    if s0.window == 2 {
      s := TakesSlot(s, p, 1);
    }
  }

  lemma GivesAll(s0: Node, p: Purpose) returns (s: Node)
    requires Reachable(s0) && s0.control == Giving(p, s0.window) && 1 <= s0.window <= 2 && s0.free == 0
    ensures Reachable(s) && s == s0.(free := s0.window, control := Giving(p, 0))
  {
    s := GivesSlot(s0, p, s0.window);
    if s0.window == 2 {
      s := GivesSlot(s, p, 1);
    }
  }

  /** Waiting for an idle radio within a drain. */
  lemma GoesIdle(s0: Node, round: nat) returns (s: Node)
    requires Reachable(s0) && s0.control == Taking(ForDrain(round), 0) && 1 <= s0.window == s0.free <= 2
    ensures Reachable(s)
    ensures s == s0.(control := Posting(round + 1), drain := s0.drain.(idle := s0.drain.idle + [|s0.frames|]))
  {
    s := TakesAll(s0, ForDrain(round));
    s := HoldsAll(s, ForDrain(round));
    s := GivesAll(s, ForDrain(round));
    s := GoesOn(s);
  }

  /** The first pass of a configure, which finds the radio idle. */
  lemma FindsIdle(s0: Node, want: nat, responder: bool) returns (s: Node)
    requires Reachable(s0) && s0.control == Ready && 1 <= s0.window == s0.free <= 2 && 1 <= want <= 2
    ensures Reachable(s) && s == s0.(responder := responder, control := Shrinking(0, want))
  {
    s := Windows(s0, BeginConfigure(want, responder));
    s := TakesAll(s, ForConfigure(want));
    s := HoldsAll(s, ForConfigure(want));
    s := GivesAll(s, ForConfigure(want));
    s := GoesOn(s);
  }

  /** A configure on an idle node with a window of one. */
  lemma Configures(s0: Node, want: nat, responder: bool) returns (s: Node)
    requires Reachable(s0) && s0.control == Ready && s0.window == s0.free == 1 && 1 <= want <= 2
    ensures Reachable(s) && s == s0.(responder := responder, window := want, free := want)
  {
    s := FindsIdle(s0, want, responder);
    s := Shrinks(s, 0, want);
    s := Resizes(s, want);
    s := Grows(s, want);
    if want == 2 {
      s := Grows(s, 1);
    }
    s := GoesOn(s);
  }

  /** A flush of a drain, answered by the next barrier in the queue. */
  lemma FlushAnswered(s0: Node, round: nat) returns (s: Node)
    requires Reachable(s0) && s0.control == Posting(round) && round < 2 && s0.receiver == Waiting
    requires s0.notifications == 0 && s0.taken <= |s0.log| < 8 && (s0.log + [Barrier])[s0.taken] == Barrier
    ensures Reachable(s)
    ensures s == s0.(log := s0.log + [Barrier], taken := s0.taken + 1, control := Taking(ForDrain(round), 0),
                     drain := s0.drain.(barriers := s0.drain.barriers + [|s0.log|]))
  {
    s := Posts(s0, round);
    s := HandlesBarrier(s);
    s := Notified(s, round);
  }

  /** The last flush, just before it returns. */
  lemma LastFlush(s0: Node) returns (s: Node)
    requires Reachable(s0) && s0.control == Posting(2) && s0.receiver == Waiting
    requires s0.notifications == 0 && s0.taken <= |s0.log| < 8 && (s0.log + [Barrier])[s0.taken] == Barrier
    ensures Reachable(s) && DrainSucceeds(s)
    ensures s == s0.(log := s0.log + [Barrier], taken := s0.taken + 1, notifications := 1, control := Awaiting(2),
                     drain := s0.drain.(barriers := s0.drain.barriers + [|s0.log|]))
  {
    s := Posts(s0, 2);
    s := HandlesBarrier(s);
  }

  /** A flush whose wait times out: its barrier stays queued. */
  lemma FlushTimesOut(s0: Node) returns (s: Node)
    requires Reachable(s0) && s0.control == Ready && !s0.generating && s0.notifications == 0 && |s0.log| < 8
    ensures Reachable(s)
    ensures s == s0.(log := s0.log + [Barrier], timedOutWaits := s0.timedOutWaits + 1,
                     drain := Drain(Outstanding(s0), |s0.log|, |s0.frames|, [|s0.log|], [], false))
  {
    s := Flush(s0, BeginDrain);
    s := Flush(s, PostBarrier);
    s := Flush(s, AwaitTimesOut);
  }

  /** The send callback of a frame: its completion is queued, then its slot returned. */
  lemma Completes(s0: Node, f: nat) returns (s: Node)
    requires Reachable(s0) && f < |s0.frames| && s0.frames[f].fate == Pending && s0.frames[f].token
    requires s0.taken <= |s0.log| < 8 && s0.free < MAX_WINDOW
    ensures Reachable(s)
    ensures s == s0.(log := s0.log + [Completion(f, true)], free := s0.free + 1,
                     frames := s0.frames[f := s0.frames[f].(token := false, fate := Queued(|s0.log|))])
  {
    s := Radio(s0, PostCompletion(f, true));
    s := Radio(s, ReturnSlot(f));
    assert s.frames == s0.frames[f := s0.frames[f].(token := false, fate := Queued(|s0.log|))];
  }

  /** The generator submits one frame and ends. */
  lemma GeneratorSubmits(s0: Node) returns (s: Node)
    requires Reachable(s0) && s0.control == Ready && !s0.generating && s0.generator == Idle && s0.free > 0
    ensures Reachable(s)
    ensures s == s0.(free := s0.free - 1, frames := s0.frames + [Frame(true, Pending, Own)],
                     counters := s0.counters.(requested := s0.counters.requested + 1,
                                              submitted := s0.counters.submitted + 1))
  {
    s := Generates(s0, Starts);
    s := Generates(s, Requests);
    s := Sends(s, Generator, Acquire);
    s := Sends(s, Generator, Submit(true));
    s := Sends(s, Generator, Record);
    s := Generates(s, Ends);
  }

  // ----- a resize that loses a slot -----

  lemma IdleThenShrink(s0: Node) returns (s: Node)
    requires Reachable(s0) && s0.control == Ready && s0.window == 2 && s0.free == 2 && s0.responder
    ensures Reachable(s) && s == s0.(control := Shrinking(1, 2), free := 1)
  {
    s := FindsIdle(s0, 2, true);
    s := Shrinks(s, 0, 2);
  }

  /** An echo that had passed the run check takes its slot in the middle of a resize: the resize aborts, and
      the slot it had already taken is gone. */
  lemma EchoOvertakes(s0: Node) returns (s: Node)
    requires Reachable(s0) && s0.control == Ready && s0.window == 2 && s0.free == 2 && s0.responder
    requires s0.receiver == Waiting && s0.taken == |s0.log| && s0.lost == 0 && s0.echo == Idle
    ensures Reachable(s) && s.lost == 1 && s.control == Ready && s.drain == s0.drain
  {
    s := Radio(s0, Arrive(false));
    assert s.log[s.taken] == Received;
    s := Receive(s, Dequeue);
    s := Receive(s, Handle(true));
    s := IdleThenShrink(s);
    s := Sends(s, Echo, Acquire);
    s := Windows(s, TakeTimesOut);
  }

  lemma ResizeCanLoseASlot() returns (s: Node)
    ensures Reachable(s) && s.lost == 1 && s.control == Ready
  {
    s := Booted();
    s := Configures(s, 2, true);
    s := EchoOvertakes(s);
  }

  lemma FirstDrain(s0: Node) returns (s: Node)
    requires Reachable(s0) && s0 == Boot().(responder := true, window := 2, free := 2)
    ensures Reachable(s) && s.control == Ready && s.window == s.free == 2 && s.responder && s.drain.done
    ensures s.receiver == Waiting && s.taken == |s.log| && s.lost == 0 && s.echo == Idle
  {
    s := Flush(s0, BeginDrain);
    s := FlushAnswered(s, 0);
    s := GoesIdle(s, 0);
    s := FlushAnswered(s, 1);
    s := GoesIdle(s, 1);
    s := LastFlush(s);
    s := Flush(s, TakeNotification);
  }

  /** It also happens to a node whose last drain had succeeded: a stop, then the next run's configure. */
  lemma ResizeCanLoseASlotAfterADrain() returns (s: Node)
    ensures Reachable(s) && s.lost == 1 && s.control == Ready && s.drain.done
  {
    s := Booted();
    s := Configures(s, 2, true);
    s := FirstDrain(s);
    s := EchoOvertakes(s);
  }

  // ----- drains answered by older flushes -----

  lemma FirstFlushAnswered() returns (s: Node)
    ensures Reachable(s)
    ensures s == Boot().(responder := true, log := [Barrier, Received, Barrier], taken := 1, timedOutWaits := 1,
                         control := Taking(ForDrain(0), 0), drain := Drain(1, 2, 0, [2], [], false))
  {
    s := Booted();
    s := Configures(s, 1, true);
    s := FlushTimesOut(s);
    s := Radio(s, Arrive(false));
    assert s.log == [Barrier, Received];
    BarriersFrom(s.log, 1);
    BarriersFrom(s.log, 0);
    s := Flush(s, BeginDrain);
    s := FlushAnswered(s, 0);
  }

  /** The receiver takes a ping off the queue and echoes it. */
  lemma Echoes(s0: Node) returns (s: Node)
    requires Reachable(s0) && s0.receiver == Waiting && s0.taken < |s0.log| && s0.log[s0.taken] == Received
    requires s0.responder && s0.echo == Idle && s0.free > 0
    ensures Reachable(s)
    ensures s == s0.(taken := s0.taken + 1, free := s0.free - 1,
                     frames := s0.frames + [Frame(true, Pending, EchoOf(s0.taken))],
                     counters := s0.counters.(requested := s0.counters.requested + 1,
                                              submitted := s0.counters.submitted + 1),
                     baseline := s0.baseline.(echoes := s0.baseline.echoes + 1))
  {
    s := Receive(s0, Dequeue);
    s := Receive(s, Handle(true));
    s := Sends(s, Echo, Acquire);
    s := Sends(s, Echo, Submit(true));
    s := Sends(s, Echo, Record);
  }

  lemma EchoSubmitted() returns (s: Node)
    ensures Reachable(s)
    ensures s == Boot().(responder := true, log := [Barrier, Received, Barrier, Barrier], taken := 2, free := 0,
                         timedOutWaits := 1, frames := [Frame(true, Pending, EchoOf(1))],
                         control := Awaiting(1), drain := Drain(1, 2, 0, [2, 3], [0], false),
                         counters := Counters(1, 1, 0, 0, 0, 0, 0), baseline := Baseline(0, 0, 0, 0, 0, 1))
  {
    s := FirstFlushAnswered();
    s := GoesIdle(s, 0);
    s := Posts(s, 1);
    assert s.log == [Barrier, Received, Barrier, Barrier];
    s := Echoes(s);
  }

  lemma EchoCompleted() returns (s: Node)
    ensures Reachable(s) && s.control == Taking(ForDrain(1), 0) && s.receiver == Waiting && s.notifications == 0
    ensures s.log == [Barrier, Received, Barrier, Barrier, Completion(0, true)] && s.taken == 3
    ensures s.window == s.free == 1 && s.frames == [Frame(false, Queued(4), EchoOf(1))]
    ensures s.drain == Drain(1, 2, 0, [2, 3], [0], false)
  {
    s := EchoSubmitted();
    s := HandlesBarrier(s);
    s := Notified(s, 1);
    s := Completes(s, 0);
  }

  /** One flush that timed out earlier is enough: the next drain succeeds although an echo of an event
      queued before it began has a completion that is still unprocessed. */
  lemma OneStaleFlushBreaksTheFence() returns (s: Node)
    ensures Reachable(s) && DrainSucceeds(s) && s.drain.stale == 1 && !EchoesFenced(s)
  {
    s := EchoCompleted();
    s := GoesIdle(s, 1);
    s := LastFlush(s);
    assert s.frames[0].cause == EchoOf(1) && !Settled(s.frames[0]);
  }

  lemma TwoFlushesTimedOut() returns (s: Node)
    ensures Reachable(s) && s.receiver == Waiting && s.notifications == 0
    ensures s.control == Posting(0) && s.drain == Drain(2, 2, 1, [], [], false)
    ensures s.log == [Barrier, Barrier] && s.taken == 0 && s.window == 1 && s.free == 0
    ensures s.frames == [Frame(true, Pending, Own)]
  {
    s := Booted();
    s := GeneratorSubmits(s);
    s := FlushTimesOut(s);
    s := FlushTimesOut(s);
    assert s.log == [Barrier, Barrier];
    BarriersFrom(s.log, 1);
    BarriersFrom(s.log, 0);
    s := Flush(s, BeginDrain);
  }

  lemma FrameCompleted() returns (s: Node)
    ensures Reachable(s) && s.receiver == Waiting && s.notifications == 0
    ensures s.control == Taking(ForDrain(0), 0) && s.drain == Drain(2, 2, 1, [2], [], false)
    ensures s.log == [Barrier, Barrier, Barrier, Completion(0, true)] && s.taken == 1 && s.window == s.free == 1
    ensures s.frames == [Frame(false, Queued(3), Own)]
  {
    s := TwoFlushesTimedOut();
    s := FlushAnswered(s, 0);
    s := Completes(s, 0);
  }

  /** With two, a drain succeeds although a frame submitted before it began has its completion unprocessed. */
  lemma TwoStaleFlushesLoseAFrame() returns (s: Node)
    ensures Reachable(s) && DrainSucceeds(s) && s.drain.stale == 2 && !FramesFenced(s)
  {
    s := FrameCompleted();
    s := GoesIdle(s, 0);
    s := FlushAnswered(s, 1);
    s := GoesIdle(s, 1);
    s := LastFlush(s);
    assert !Settled(s.frames[0]);
  }

  lemma ThreeFlushesTimedOut() returns (s: Node)
    ensures Reachable(s) && s.receiver == Waiting && s.notifications == 0
    ensures s.control == Posting(0) && s.drain == Drain(3, 4, 0, [], [], false)
    ensures s.log == [Barrier, Barrier, Barrier, Received] && s.taken == 0 && s.window == s.free == 1
  {
    s := Booted();
    s := FlushTimesOut(s);
    s := FlushTimesOut(s);
    s := FlushTimesOut(s);
    s := Radio(s, Arrive(false));
    assert s.log == [Barrier, Barrier, Barrier, Received];
    BarriersFrom(s.log, 3);
    BarriersFrom(s.log, 2);
    BarriersFrom(s.log, 1);
    BarriersFrom(s.log, 0);
    s := Flush(s, BeginDrain);
  }

  /** With three, a drain succeeds although an event queued before it began was not even dequeued. */
  lemma ThreeStaleFlushesLoseAnEvent() returns (s: Node)
    ensures Reachable(s) && DrainSucceeds(s) && s.drain.stale == 3 && !EventsFenced(s)
  {
    s := ThreeFlushesTimedOut();
    s := FlushAnswered(s, 0);
    s := GoesIdle(s, 0);
    s := FlushAnswered(s, 1);
    s := GoesIdle(s, 1);
    s := LastFlush(s);
  }

  /** The thresholds are exact: over all drains that succeed with at most k barriers and notifications
      outstanding when they began, each part of the promise holds if and only if k is 0, at most 1 and at
      most 2 respectively. */
  lemma Thresholds(k: nat)
    ensures (forall s | Reachable(s) && DrainSucceeds(s) && s.drain.stale <= k :: EchoesFenced(s)) <==> k <= 0
    ensures (forall s | Reachable(s) && DrainSucceeds(s) && s.drain.stale <= k :: FramesFenced(s)) <==> k <= 1
    ensures (forall s | Reachable(s) && DrainSucceeds(s) && s.drain.stale <= k :: EventsFenced(s)) <==> k <= 2
  {
    forall s | Reachable(s) && DrainSucceeds(s)
      ensures FencePromise(s)
    {
      DrainIsFence(s);
    }
    var one := OneStaleFlushBreaksTheFence();
    var two := TwoStaleFlushesLoseAFrame();
    var three := ThreeStaleFlushesLoseAnEvent();
  }

  // ----- a completion that outlives the reset of the metrics -----

  lemma CompletionQueuedAtReset() returns (s: Node)
    ensures Reachable(s) && s.control == Ready && !s.generating && s.receiver == Waiting && s.notifications == 0
    ensures s.log == [Completion(0, true)] && s.taken == 0 && s.window == s.free == 1
    ensures s.frames == [Frame(false, Queued(0), Own)]
    ensures s.counters == Counters(0, 0, 0, 0, 0, 0, 0)
  {
    s := Booted();
    s := GeneratorSubmits(s);
    s := Completes(s, 0);
    s := Configures(s, 1, false);
    s := ResetsMetrics(s);
  }

  lemma CompletionCounted() returns (s: Node)
    ensures Reachable(s) && s.control == Taking(ForDrain(0), 0) && s.receiver == Waiting && s.notifications == 0
    ensures s.log == [Completion(0, true), Barrier] && s.taken == 2 && s.window == s.free == 1
    ensures s.counters == Counters(0, 0, 0, 0, 1, 0, 0) && s.drain.stale == 0
  {
    s := CompletionQueuedAtReset();
    BarriersFrom(s.log, 0);
    s := Flush(s, BeginDrain);
    s := Posts(s, 0);
    s := HandlesCompletion(s, 0, true);
    s := HandlesBarrier(s);
    s := Notified(s, 0);
  }

  /** A configure that found the radio idle resets the metrics while the last run's completion is still
      queued; after a drain the new run reports a completed frame and none submitted. */
  lemma CompletionOutlivesReset() returns (s: Node)
    ensures Reachable(s) && DrainSucceeds(s) && s.drain.stale == 0
    ensures s.counters.submitted == 0 && s.counters.cbSuccess == 1
  {
    s := CompletionCounted();
    s := GoesIdle(s, 0);
    s := FlushAnswered(s, 1);
    s := GoesIdle(s, 1);
    s := LastFlush(s);
  }
}
