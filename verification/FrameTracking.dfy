/** The queue and the frames agree in every interleaving: each completion event still to be
    processed belongs to exactly one accepted frame, and no window slot returns before the
    completion it stands for was posted. */
module FrameTracking {
  import opened TxFence

  // ----- counting frames -----

  lemma CountAppend(fs: seq<Frame>, f: Frame, p: Frame -> bool)
    ensures Count(fs + [f], p) == Count(fs, p) + (if p(f) then 1 else 0)
  {
    assert Which(fs + [f], p) == Which(fs, p) + (if p(f) then {|fs|} else {});
  }

  lemma OthersCounted(fs: seq<Frame>, i: nat, f: Frame, p: Frame -> bool)
    requires i < |fs|
    ensures Which(fs[i := f], p) - {i} == Which(fs, p) - {i}
  {
    forall k
      ensures k in Which(fs[i := f], p) - {i} <==> k in Which(fs, p) - {i}
    {}
  }

  lemma CountUpdate(fs: seq<Frame>, i: nat, f: Frame, p: Frame -> bool)
    requires i < |fs|
    ensures Count(fs[i := f], p) == Count(fs, p) - (if p(fs[i]) then 1 else 0) + (if p(f) then 1 else 0)
  {
    OthersCounted(fs, i, f, p);
    OneOut(Which(fs, p), i);
    OneOut(Which(fs[i := f], p), i);
  }

  lemma OneOut(s: set<int>, i: int)
    ensures |s| == |s - {i}| + (if i in s then 1 else 0)
  {
    if i in s {
      assert s == (s - {i}) + {i};
    } else {
      assert s == s - {i};
    }
  }

  // ----- frames and events -----

  /** Of the events at position `handled` or later: a frame that gave up its slot has had its completion
      posted, and completions still queued correspond one to one to the frames waiting for them. */
  ghost predicate Tracks(frames: seq<Frame>, log: seq<Event>, handled: int) {
    && (forall i | 0 <= i < |frames| ::
          && (frames[i].fate == Pending ==> frames[i].token)
          && (frames[i].fate.Queued? ==>
                && handled <= frames[i].fate.at < |log|
                && log[frames[i].fate.at].Completion? && log[frames[i].fate.at].frame == i))
    && (forall k | 0 <= k < |log| && handled <= k && log[k].Completion? ::
          log[k].frame < |frames| && frames[log[k].frame].fate == Queued(k))
  }

  lemma TrackSubmit(frames: seq<Frame>, log: seq<Event>, handled: int, f: Frame)
    requires Tracks(frames, log, handled) && f.token && f.fate == Pending
    ensures Tracks(frames + [f], log, handled)
  {}

  lemma TrackArrival(frames: seq<Frame>, log: seq<Event>, handled: int, e: Event)
    requires Tracks(frames, log, handled) && !e.Completion?
    ensures Tracks(frames, log + [e], handled)
  {}

  lemma TrackPost(frames: seq<Frame>, log: seq<Event>, handled: int, i: nat, ok: bool)
    requires Tracks(frames, log, handled) && i < |frames| && frames[i].fate == Pending && handled <= |log|
    ensures Tracks(frames[i := frames[i].(fate := Queued(|log|))], log + [Completion(i, ok)], handled)
  {}

  lemma TrackDrop(frames: seq<Frame>, log: seq<Event>, handled: int, i: nat)
    requires Tracks(frames, log, handled) && i < |frames| && frames[i].fate == Pending
    ensures Tracks(frames[i := frames[i].(fate := Dropped)], log, handled)
  {}

  lemma TrackReturn(frames: seq<Frame>, log: seq<Event>, handled: int, i: nat)
    requires Tracks(frames, log, handled) && i < |frames| && frames[i].fate != Pending
    ensures Tracks(frames[i := frames[i].(token := false)], log, handled)
  {}

  lemma TrackCompletion(frames: seq<Frame>, log: seq<Event>, handled: nat)
    requires Tracks(frames, log, handled) && handled < |log| && log[handled].Completion?
    ensures log[handled].frame < |frames|
    ensures var i := log[handled].frame; Tracks(frames[i := frames[i].(fate := Counted)], log, handled + 1)
  {}

  lemma TrackOther(frames: seq<Frame>, log: seq<Event>, handled: nat)
    requires Tracks(frames, log, handled) && handled < |log| && !log[handled].Completion?
    ensures Tracks(frames, log, handled + 1)
  {}

  // ----- consistency of a node -----

  ghost predicate Consistent(s: Node) {
    && s.taken <= |s.log| <= s.taken + QUEUE_LENGTH
    && (s.receiver != Waiting ==> s.taken > 0)
    && (s.receiver == Echoing <==> s.echo != Idle)
    && (s.echo != Idle ==> s.baseline.echoes > 0)
    && (s.generator != Idle ==> s.generating)
    && (s.receiver == Echoing ==> s.log[s.taken - 1] == Received)
    && Tracks(s.frames, s.log, Handled(s))
  }

  lemma SenderConsistent(s: Node, x: Actor, m: SendMove)
    requires Consistent(s) && SenderMay(s, x, m)
    ensures Consistent(SenderDoes(s, x, m)) && Handled(s) <= Handled(SenderDoes(s, x, m))
  {
    if m == Submit(true) {
      TrackSubmit(s.frames, s.log, Handled(s), NewFrame(s, x));
    } else if x == Echo {
      TrackOther(s.frames, s.log, Handled(s));
    }
  }

  /** Radio steps leave the receiver and the echo path where they are. */
  lemma RadioKeepsReceiver(s: Node, r: RadioMove)
    requires RadioMay(s, r)
    ensures var t := RadioDoes(s, r);
      && t.taken == s.taken && t.receiver == s.receiver && t.echo == s.echo && t.generator == s.generator
      && t.generating == s.generating && t.baseline.echoes == s.baseline.echoes
      && |s.log| <= |t.log| && t.log[..|s.log|] == s.log
  {}

  lemma RadioConsistent(s: Node, r: RadioMove)
    requires Consistent(s) && RadioMay(s, r)
    ensures Consistent(RadioDoes(s, r)) && Handled(s) == Handled(RadioDoes(s, r))
  {
    var t := RadioDoes(s, r);
    RadioKeepsReceiver(s, r);
    assert forall k | 0 <= k < |s.log| :: t.log[k] == t.log[..|s.log|][k];
    RadioTracks(s, r);
  }

  lemma RadioTracks(s: Node, r: RadioMove)
    requires Consistent(s) && RadioMay(s, r)
    ensures Tracks(RadioDoes(s, r).frames, RadioDoes(s, r).log, Handled(s))
  {
    match r
    case PostCompletion(i, ok) =>
      if QueueFull(s) {
        TrackDrop(s.frames, s.log, Handled(s), i);
      } else {
        TrackPost(s.frames, s.log, Handled(s), i, ok);
      }
    case ReturnSlot(i) =>
      TrackReturn(s.frames, s.log, Handled(s), i);
    case Arrive(malformed) =>
      TrackArrival(s.frames, s.log, Handled(s), if malformed then Malformed else Received);
  }

  lemma ReceiverConsistent(s: Node, v: ReceiverMove)
    requires Consistent(s) && ReceiverMay(s, v)
    ensures Consistent(ReceiverDoes(s, v)) && Handled(s) <= Handled(ReceiverDoes(s, v))
  {
    if v.Handle? {
      if s.log[s.taken - 1].Completion? {
        TrackCompletion(s.frames, s.log, Handled(s));
      } else {
        TrackOther(s.frames, s.log, Handled(s));
      }
    }
  }

  lemma FlushConsistent(s: Node, u: FlushMove)
    requires Consistent(s) && FlushMay(s, u)
    ensures Consistent(FlushDoes(s, u)) && Handled(s) == Handled(FlushDoes(s, u))
  {
    TrackArrival(s.frames, s.log, Handled(s), Barrier);
  }

  /** What the remaining steps leave alone is all that consistency speaks of. */
  ghost predicate SameEvents(s: Node, t: Node) {
    && t.frames == s.frames && t.log == s.log && t.taken == s.taken
    && t.receiver == s.receiver && t.echo == s.echo && (t.echo != Idle ==> t.baseline.echoes > 0)
    && (t.generator != Idle ==> t.generating)
  }

  lemma GeneratorKeepsEvents(s: Node, g: GeneratorMove)
    requires Consistent(s) && GeneratorMay(s, g)
    ensures SameEvents(s, GeneratorDoes(s, g))
  {}

  lemma WindowKeepsEvents(s: Node, w: WindowMove)
    requires Consistent(s) && WindowMay(s, w)
    ensures SameEvents(s, WindowDoes(s, w))
  {}

  lemma ResetKeepsEvents(s: Node)
    requires Consistent(s)
    ensures SameEvents(s, Cleared(s))
  {}

  lemma SameEventsConsistent(s: Node, t: Node)
    requires Consistent(s) && SameEvents(s, t)
    ensures Consistent(t) && Handled(s) == Handled(t)
  {}

  lemma StaysConsistent(s: Node, a: Action)
    requires Consistent(s) && Enabled(s, a)
    ensures Consistent(Apply(s, a)) && Handled(s) <= Handled(Apply(s, a))
  {
    match a
    case BySender(x, m) => SenderConsistent(s, x, m);
    case ByRadio(r) => RadioConsistent(s, r);
    case ByReceiver(v) => ReceiverConsistent(s, v);
    case ByFlush(u) => FlushConsistent(s, u);
    case ByGenerator(g) =>
      GeneratorKeepsEvents(s, g);
      SameEventsConsistent(s, GeneratorDoes(s, g));
    case ByWindow(w) =>
      WindowKeepsEvents(s, w);
      SameEventsConsistent(s, WindowDoes(s, w));
    case ResetMetrics =>
      ResetKeepsEvents(s);
      SameEventsConsistent(s, Cleared(s));
  }
}
