/** The transmit counters in every interleaving: each request ends in exactly one of submitted,
    API failure or slot timeout, and each accepted frame's completion is counted once or dropped. */
module TxAccounting {
  import opened TxFence
  import opened FrameTracking

  /** Sends an actor has requested and not yet recorded. */
  function InProgress(s: Node): nat {
    BusyOf(s.generator) + BusyOf(s.echo)
  }

  function AcceptedUnrecorded(s: Node): nat {
    AcceptedOf(s.generator) + AcceptedOf(s.echo)
  }

  /** Frames whose completion was counted or dropped. */
  function SettledFrames(s: Node): nat {
    Count(s.frames, Settled)
  }

  ghost predicate RequestsBalance(s: Node) {
    s.counters.requested + s.baseline.inProgress
    == s.counters.submitted + s.counters.apiFailure + s.counters.slotTimeout + InProgress(s)
  }

  ghost predicate SubmissionsBalance(s: Node) {
    s.counters.submitted + AcceptedUnrecorded(s) + s.baseline.frames == |s.frames| + s.baseline.accepted
  }

  ghost predicate CompletionsBalance(s: Node) {
    && s.counters.cbSuccess + s.counters.cbFailure + s.baseline.droppedSince + s.baseline.settled == SettledFrames(s)
    && s.baseline.droppedSince <= s.counters.queueDrops
    && s.baseline.settled <= s.baseline.frames <= |s.frames|
  }

  /** The counters balance against the frames, up to what was outstanding at the last reset. */
  ghost predicate Balanced(s: Node) {
    RequestsBalance(s) && SubmissionsBalance(s) && CompletionsBalance(s)
  }

  /** Actors change the balances only through the frames, the counters and their own progress. */
  lemma SameFramesBalanced(s: Node, t: Node)
    requires Balanced(s) && t.frames == s.frames && t.baseline.(echoes := 0) == s.baseline.(echoes := 0)
    requires RequestsBalance(t)
    requires t.counters.submitted + AcceptedUnrecorded(t) == s.counters.submitted + AcceptedUnrecorded(s)
    requires t.counters.cbSuccess == s.counters.cbSuccess && t.counters.cbFailure == s.counters.cbFailure
    requires t.counters.queueDrops >= s.counters.queueDrops
    ensures Balanced(t)
  {}

  lemma SubmitBalanced(s: Node, x: Actor)
    requires Balanced(s) && SenderMay(s, x, Submit(true))
    ensures Balanced(SenderDoes(s, x, Submit(true)))
  {
    var t := SenderDoes(s, x, Submit(true));
    assert t.baseline == s.baseline && t.counters == s.counters;
    assert t.frames == s.frames + [NewFrame(s, x)];
    CountAppend(s.frames, NewFrame(s, x), Settled);
    assert InProgress(t) == InProgress(s) && AcceptedUnrecorded(t) == AcceptedUnrecorded(s) + 1;
  }

  lemma SenderBalanced(s: Node, x: Actor, m: SendMove)
    requires Balanced(s) && SenderMay(s, x, m)
    ensures Balanced(SenderDoes(s, x, m))
  {
    if m == Submit(true) {
      SubmitBalanced(s, x);
    } else {
      var t := SenderDoes(s, x, m);
      assert t.frames == s.frames && t.baseline == s.baseline;
      assert if x == Generator then t.echo == s.echo else t.generator == s.generator;
      SameFramesBalanced(s, t);
    }
  }

  /** A frame's completion settles it, counted or dropped, or leaves it as settled as it was. */
  lemma FrameBalanced(s: Node, t: Node, i: nat)
    requires Balanced(s) && i < |s.frames| == |t.frames| && t.frames == s.frames[i := t.frames[i]]
    requires t.generator == s.generator && t.echo == s.echo
    requires t.counters.(cbSuccess := 0, cbFailure := 0, queueDrops := 0)
          == s.counters.(cbSuccess := 0, cbFailure := 0, queueDrops := 0)
    requires t.baseline.(droppedSince := 0) == s.baseline.(droppedSince := 0)
    requires t.counters.cbSuccess + t.counters.cbFailure + t.baseline.droppedSince
          == s.counters.cbSuccess + s.counters.cbFailure + s.baseline.droppedSince
             + (if Settled(t.frames[i]) then 1 else 0) - (if Settled(s.frames[i]) then 1 else 0)
    requires t.baseline.droppedSince - s.baseline.droppedSince <= t.counters.queueDrops - s.counters.queueDrops
    ensures Balanced(t)
  {
    CountUpdate(s.frames, i, t.frames[i], Settled);
  }

  lemma RadioBalanced(s: Node, r: RadioMove)
    requires Balanced(s) && RadioMay(s, r)
    ensures Balanced(RadioDoes(s, r))
  {
    var t := RadioDoes(s, r);
    assert t.generator == s.generator && t.echo == s.echo;
    if r.Arrive? {
      assert t.frames == s.frames && t.baseline == s.baseline;
      SameFramesBalanced(s, t);
    } else {
      assert t.frames == s.frames[r.frame := t.frames[r.frame]];
      FrameBalanced(s, t, r.frame);
    }
  }

  lemma ReceiverBalanced(s: Node, v: ReceiverMove)
    requires Consistent(s) && Balanced(s) && ReceiverMay(s, v)
    ensures Balanced(ReceiverDoes(s, v))
  {
    var t := ReceiverDoes(s, v);
    assert t.generator == s.generator;
    if v == Handle(false) && s.log[s.taken - 1].Completion? {
      var f := s.log[s.taken - 1].frame;
      assert s.frames[f].fate == Queued(s.taken - 1);
      assert t.frames == s.frames[f := s.frames[f].(fate := Counted)];
      FrameBalanced(s, t, f);
    } else {
      assert t.frames == s.frames;
      SameFramesBalanced(s, t);
    }
  }

  lemma ControlBalanced(s: Node, a: Action)
    requires Balanced(s) && Enabled(s, a) && (a.ByFlush? || a.ByWindow?)
    ensures Balanced(Apply(s, a))
  {
    var t := Apply(s, a);
    assert t.counters == s.counters && t.baseline == s.baseline && t.frames == s.frames;
    assert t.generator == s.generator && t.echo == s.echo;
  }

  lemma ResetBalanced(s: Node)
    ensures Balanced(Cleared(s))
  {
    AtMostAll(s.frames, Settled);
  }

  lemma {:induction false} AtMostAll(fs: seq<Frame>, p: Frame -> bool)
    ensures Count(fs, p) <= |fs|
    ensures Count(fs, p) == |fs| <==> forall f | 0 <= f < |fs| :: p(fs[f])
  {
    if fs == [] {
      assert Which(fs, p) == {};
    } else {
      var past, last := fs[..|fs| - 1], fs[|fs| - 1];
      AtMostAll(past, p);
      assert fs == past + [last];
      CountAppend(past, last, p);
    }
  }

  lemma BalancedStep(s: Node, a: Action)
    requires Consistent(s) && Balanced(s) && Enabled(s, a)
    ensures Balanced(Apply(s, a))
  {
    match a
    case BySender(x, m) => SenderBalanced(s, x, m);
    case ByRadio(r) => RadioBalanced(s, r);
    case ByReceiver(v) => ReceiverBalanced(s, v);
    case ByFlush(_) => ControlBalanced(s, a);
    case ByWindow(_) => ControlBalanced(s, a);
    case ByGenerator(_) =>
    case ResetMetrics => ResetBalanced(s);
  }
}
