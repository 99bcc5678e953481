/** What each transmit counter counts: on every run, the occurrences of one kind of event since the metrics were
    last reset. */
module TxCounts {
  import opened FrameTracking
  import opened TxFence
  import opened TxSafety

  // ----- the events counted -----

  predicate Asks(s: Node, a: Action) {
    a == ByGenerator(Requests) || a == ByReceiver(Handle(true))
  }

  predicate TimesOut(s: Node, a: Action) {
    a.BySender? && a.m == AcquireTimesOut
  }

  predicate RecordsAccepted(s: Node, a: Action) {
    a.BySender? && a.m == Record && Sender(s, a.x) == Accepted
  }

  predicate RecordsRefused(s: Node, a: Action) {
    a.BySender? && a.m == Record && Sender(s, a.x) == Failed
  }

  predicate HandlesCompletion(s: Node, a: Action, ok: bool) {
    && a == ByReceiver(Handle(false)) && 0 < s.taken <= |s.log|
    && s.log[s.taken - 1].Completion? && s.log[s.taken - 1].ok == ok
  }

  predicate HandlesSuccess(s: Node, a: Action) {
    HandlesCompletion(s, a, true)
  }

  predicate HandlesFailure(s: Node, a: Action) {
    HandlesCompletion(s, a, false)
  }

  /** A completion, or a frame that is not malformed, finds 64 events queued. */
  predicate Drops(s: Node, a: Action) {
    && a.ByRadio? && |s.log| - s.taken >= 64
    && (a.r.PostCompletion? || a.r == Arrive(false))
  }

  // ----- counting since the last reset -----

  function Since(p: seq<Node>, actions: seq<Action>, happens: (Node, Action) -> bool): nat
    requires |p| == |actions| + 1
  {
    if actions == [] then 0
    else
      var n := |actions| - 1;
      if actions[n] == ResetMetrics then 0
      else Since(p[..n + 1], actions[..n], happens) + (if happens(p[n], actions[n]) then 1 else 0)
  }

  /** The state the last reset left, or boot. */
  function AtReset(p: seq<Node>, actions: seq<Action>): Node
    requires |p| == |actions| + 1
  {
    if actions == [] then p[0]
    else
      var n := |actions| - 1;
      if actions[n] == ResetMetrics then p[n + 1] else AtReset(p[..n + 1], actions[..n])
  }

  function One(b: bool): nat {
    if b then 1 else 0
  }

  /** One action counts exactly what it is. */
  ghost predicate Counts(s: Node, a: Action, t: Node) {
    && t.counters.requested == s.counters.requested + One(Asks(s, a))
    && t.counters.slotTimeout == s.counters.slotTimeout + One(TimesOut(s, a))
    && t.counters.submitted == s.counters.submitted + One(RecordsAccepted(s, a))
    && t.counters.apiFailure == s.counters.apiFailure + One(RecordsRefused(s, a))
    && t.counters.cbSuccess == s.counters.cbSuccess + One(HandlesSuccess(s, a))
    && t.counters.cbFailure == s.counters.cbFailure + One(HandlesFailure(s, a))
    && t.counters.queueDrops == s.counters.queueDrops + One(Drops(s, a))
  }

  lemma SenderCounts(s: Node, x: Actor, m: SendMove)
    requires SenderMay(s, x, m)
    ensures Counts(s, BySender(x, m), SenderDoes(s, x, m))
  {}

  lemma RadioCounts(s: Node, r: RadioMove)
    requires RadioMay(s, r)
    ensures Counts(s, ByRadio(r), RadioDoes(s, r))
  {}

  lemma ReceiverCounts(s: Node, v: ReceiverMove)
    requires ReceiverMay(s, v)
    ensures Counts(s, ByReceiver(v), ReceiverDoes(s, v))
  {}

  lemma ControlCounts(s: Node, a: Action)
    requires Enabled(s, a) && (a.ByFlush? || a.ByWindow?)
    ensures Counts(s, a, Apply(s, a))
  {
    assert Apply(s, a).counters == s.counters;
  }

  lemma StepCounts(s: Node, a: Action)
    requires Enabled(s, a) && a != ResetMetrics
    ensures Counts(s, a, Apply(s, a))
  {
    match a
    case BySender(x, m) => SenderCounts(s, x, m);
    case ByRadio(r) => RadioCounts(s, r);
    case ByReceiver(v) => ReceiverCounts(s, v);
    case ByFlush(_) => ControlCounts(s, a);
    case ByWindow(_) => ControlCounts(s, a);
    case ByGenerator(_) =>
  }

  lemma ShorterTrail(p: seq<Node>, actions: seq<Action>)
    requires Trail(p, actions) && actions != []
    ensures var n := |actions| - 1;
      Trail(p[..n + 1], actions[..n]) && Follows(p[n], p[n + 1], actions[n]) && p[..n + 1][n] == p[n]
  {
    var n := |actions| - 1;
    forall i | 0 <= i < n
      ensures Follows(p[..n + 1][i], p[..n + 1][i + 1], actions[..n][i])
    {
      assert Follows(p[i], p[i + 1], actions[i]);
    }
  }

  ghost predicate Counted(t: Node, p: seq<Node>, actions: seq<Action>)
    requires |p| == |actions| + 1
  {
    && t.counters.requested == Since(p, actions, Asks)
    && t.counters.slotTimeout == Since(p, actions, TimesOut)
    && t.counters.submitted == Since(p, actions, RecordsAccepted)
    && t.counters.apiFailure == Since(p, actions, RecordsRefused)
    && t.counters.cbSuccess == Since(p, actions, HandlesSuccess)
    && t.counters.cbFailure == Since(p, actions, HandlesFailure)
    && t.counters.queueDrops == Since(p, actions, Drops)
  }

  /** On every run each counter is the number of its events since the last reset: requests made by the
      generator or for an echo, slot waits that timed out, accepted and refused submissions recorded,
      completions handled by the outcome they carry, and events that found the queue full. */
  lemma {:induction false} EachCounterCountsItsEvents(p: seq<Node>, actions: seq<Action>)
    requires Trail(p, actions)
    ensures Counted(p[|actions|], p, actions)
  {
    if actions != [] {
      var n := |actions| - 1;
      ShorterTrail(p, actions);
      EachCounterCountsItsEvents(p[..n + 1], actions[..n]);
      if actions[n] != ResetMetrics {
        StepCounts(p[n], actions[n]);
      }
    }
  }

  // ----- what was submitted, not only recorded -----

  predicate SubmitsAccepted(s: Node, a: Action) {
    a.BySender? && a.m == Submit(true)
  }

  predicate SubmitsRefused(s: Node, a: Action) {
    a.BySender? && a.m == Submit(false)
  }

  /** Refusals not yet recorded. */
  function Refused(s: Node): nat {
    One(s.generator == Rejected || s.generator == Failed) + One(s.echo == Rejected || s.echo == Failed)
  }

  function Unrecorded(s: Node): nat {
    One(s.generator == Accepted) + One(s.echo == Accepted)
  }

  lemma SenderRefuses(s: Node, x: Actor, m: SendMove)
    requires SenderMay(s, x, m)
    ensures var t, a := SenderDoes(s, x, m), BySender(x, m);
      && t.counters.apiFailure + Refused(t) == s.counters.apiFailure + Refused(s) + One(SubmitsRefused(s, a))
      && t.counters.submitted + Unrecorded(t) == s.counters.submitted + Unrecorded(s) + One(SubmitsAccepted(s, a))
  {}

  lemma FlushKeepsSenders(s: Node, u: FlushMove)
    requires FlushMay(s, u)
    ensures FlushDoes(s, u).generator == s.generator && FlushDoes(s, u).echo == s.echo
  {}

  lemma WindowKeepsSenders(s: Node, w: WindowMove)
    requires WindowMay(s, w)
    ensures WindowDoes(s, w).generator == s.generator && WindowDoes(s, w).echo == s.echo
  {}

  lemma RadioKeepsSenders(s: Node, r: RadioMove)
    requires RadioMay(s, r)
    ensures RadioDoes(s, r).generator == s.generator && RadioDoes(s, r).echo == s.echo
  {}

  lemma ReceiverStartsEchoes(s: Node, v: ReceiverMove)
    requires Consistent(s) && ReceiverMay(s, v)
    ensures var t := ReceiverDoes(s, v);
      t.generator == s.generator && (t.echo == s.echo || (s.echo == Idle && t.echo == Acquiring))
  {}

  /** Only a sender's own steps take it past a refusal or an acceptance. */
  lemma OnlySendersProgress(s: Node, a: Action)
    requires Consistent(s) && Enabled(s, a) && !a.BySender?
    ensures Refused(Apply(s, a)) == Refused(s) && Unrecorded(Apply(s, a)) == Unrecorded(s)
  {
    match a
    case ByGenerator(_) =>
    case ByRadio(r) => RadioKeepsSenders(s, r);
    case ByReceiver(v) => ReceiverStartsEchoes(s, v);
    case ByFlush(u) => FlushKeepsSenders(s, u);
    case ByWindow(w) => WindowKeepsSenders(s, w);
    case ResetMetrics =>
  }

  lemma StepRefuses(s: Node, a: Action)
    requires Consistent(s) && Enabled(s, a) && a != ResetMetrics
    ensures var t := Apply(s, a);
      && t.counters.apiFailure + Refused(t) == s.counters.apiFailure + Refused(s) + One(SubmitsRefused(s, a))
      && t.counters.submitted + Unrecorded(t) == s.counters.submitted + Unrecorded(s) + One(SubmitsAccepted(s, a))
  {
    if a.BySender? {
      SenderRefuses(s, a.x, a.m);
    } else {
      StepCounts(s, a);
      OnlySendersProgress(s, a);
    }
  }

  lemma {:induction false} TrailIsSound(p: seq<Node>, actions: seq<Action>)
    requires Trail(p, actions)
    ensures Sound(p[|actions|])
  {
    forall i | 0 < i < |p|
      ensures Moves(p[i - 1], p[i])
    {
      assert Follows(p[i - 1], p[i - 1 + 1], actions[i - 1]);
    }
    SoundPath(p);
  }

  /** On every run the API failures counted and those still to be recorded are the submissions the radio refused
      since the last reset and those it left unrecorded, and likewise for the accepted ones. */
  lemma {:induction false} RefusalsAndAcceptances(p: seq<Node>, actions: seq<Action>)
    requires Trail(p, actions)
    ensures var t, z := p[|actions|], AtReset(p, actions);
      && t.counters.apiFailure + Refused(t) == Since(p, actions, SubmitsRefused) + Refused(z)
      && t.counters.submitted + Unrecorded(t) == Since(p, actions, SubmitsAccepted) + Unrecorded(z)
  {
    if actions != [] {
      var n := |actions| - 1;
      ShorterTrail(p, actions);
      RefusalsAndAcceptances(p[..n + 1], actions[..n]);
      if actions[n] != ResetMetrics {
        TrailIsSound(p[..n + 1], actions[..n]);
        StepRefuses(p[n], actions[n]);
      }
    }
  }

  // ----- the outcomes counted are those the radio reported -----

  lemma RadioReports(s: Node, r: RadioMove, k: nat)
    requires RadioMay(s, r) && k < |RadioDoes(s, r).log| && RadioDoes(s, r).log[k].Completion?
    ensures var e := RadioDoes(s, r).log[k]; (k < |s.log| && s.log[k] == e) || r == PostCompletion(e.frame, e.ok)
  {}

  lemma FlushReports(s: Node, u: FlushMove, k: nat)
    requires FlushMay(s, u) && k < |FlushDoes(s, u).log| && FlushDoes(s, u).log[k].Completion?
    ensures k < |s.log| && s.log[k] == FlushDoes(s, u).log[k]
  {}

  lemma LogKept(s: Node, a: Action)
    requires Enabled(s, a) && (a.BySender? || a.ByReceiver? || a.ByWindow?)
    ensures Apply(s, a).log == s.log
  {}

  lemma StepReports(s: Node, a: Action, k: nat)
    requires Enabled(s, a) && k < |Apply(s, a).log| && Apply(s, a).log[k].Completion?
    ensures var e := Apply(s, a).log[k];
      (k < |s.log| && s.log[k] == e) || a == ByRadio(PostCompletion(e.frame, e.ok))
  {
    match a
    case ByRadio(r) => RadioReports(s, r, k);
    case ByFlush(u) => FlushReports(s, u, k);
    case ByGenerator(_) =>
    case ResetMetrics =>
    case _ => LogKept(s, a);
  }

  /** On every run the outcome a queued completion carries, and so the counter it goes to, is what the radio
      reported for that frame. */
  lemma {:induction false} OutcomesAreReported(p: seq<Node>, actions: seq<Action>, k: nat)
    requires Trail(p, actions) && k < |p[|actions|].log| && p[|actions|].log[k].Completion?
    ensures var e := p[|actions|].log[k]; ByRadio(PostCompletion(e.frame, e.ok)) in actions
  {
    if actions != [] {
      var n := |actions| - 1;
      ShorterTrail(p, actions);
      StepReports(p[n], actions[n], k);
      if k < |p[n].log| && p[n].log[k] == p[n + 1].log[k] {
        OutcomesAreReported(p[..n + 1], actions[..n], k);
      }
    }
  }

  // ----- echoes -----

  /** The node is not asked to echo. */
  predicate AsksToEcho(a: Action) {
    a.ByWindow? && a.w.BeginConfigure? && a.w.responder
  }

  predicate Silent(s: Node) {
    && !s.responder && s.echo == Idle && s.receiver != Echoing
    && forall f | 0 <= f < |s.frames| :: s.frames[f].cause == Own
  }

  lemma SilentSender(s: Node, x: Actor, m: SendMove)
    requires Silent(s) && SenderMay(s, x, m)
    ensures Silent(SenderDoes(s, x, m))
  {}

  lemma SilentRadio(s: Node, r: RadioMove)
    requires Silent(s) && RadioMay(s, r)
    ensures Silent(RadioDoes(s, r))
  {}

  lemma SilentReceiver(s: Node, v: ReceiverMove)
    requires Silent(s) && ReceiverMay(s, v)
    ensures Silent(ReceiverDoes(s, v))
  {}

  lemma SilentFlush(s: Node, u: FlushMove)
    requires Silent(s) && FlushMay(s, u)
    ensures Silent(FlushDoes(s, u))
  {}

  lemma SilentWindow(s: Node, w: WindowMove)
    requires Silent(s) && WindowMay(s, w) && !AsksToEcho(ByWindow(w))
    ensures Silent(WindowDoes(s, w))
  {}

  lemma StaysSilent(s: Node, a: Action)
    requires Silent(s) && Enabled(s, a) && !AsksToEcho(a)
    ensures Silent(Apply(s, a))
  {
    match a
    case ByGenerator(_) =>
    case BySender(x, m) => SilentSender(s, x, m);
    case ByRadio(r) => SilentRadio(s, r);
    case ByReceiver(v) => SilentReceiver(s, v);
    case ByFlush(u) => SilentFlush(s, u);
    case ByWindow(w) => SilentWindow(s, w);
    case ResetMetrics =>
  }

  /** A node that was never configured to echo never does: all its frames are its generator's. */
  lemma {:induction false} OnlyRespondersEcho(p: seq<Node>, actions: seq<Action>)
    requires Trail(p, actions) && forall i | 0 <= i < |actions| :: !AsksToEcho(actions[i])
    ensures Silent(p[|actions|])
  {
    if actions != [] {
      var n := |actions| - 1;
      ShorterTrail(p, actions);
      OnlyRespondersEcho(p[..n + 1], actions[..n]);
      StaysSilent(p[n], actions[n]);
    }
  }
}
