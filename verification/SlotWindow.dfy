/** The transmit window in every interleaving: slots are conserved, frames in flight never
    exceed the window, and a slot lost by an aborted resize stays lost. */
module SlotWindow {
  import opened TxFence
  import opened FrameTracking

  // ----- conservation -----

  /** Frames holding a window slot: in flight, or delivered with the slot not yet returned. */
  function InFlight(s: Node): nat {
    Count(s.frames, HoldsToken)
  }

  /** The slots accounted for, apart from those of frames. */
  function SlotsElsewhere(s: Node): nat {
    s.free + SlotsOf(s.generator) + SlotsOf(s.echo) + SlotsOfControl(s.control) + s.lost
  }

  predicate WidthInRange(c: Control) {
    match c
    case Taking(ForConfigure(want), _) => 1 <= want <= MAX_WINDOW
    case Giving(ForConfigure(want), _) => 1 <= want <= MAX_WINDOW
    case Shrinking(_, want) => 1 <= want <= MAX_WINDOW
    case _ => true
  }

  /** Every slot of the window is free, held by one of the actors, with a frame in flight, or was
      lost in an aborted resize. */
  ghost predicate SlotsConserved(s: Node) {
    && 1 <= s.window <= MAX_WINDOW
    && SlotsElsewhere(s) + InFlight(s) == s.window
    && WidthInRange(s.control)
  }

  lemma SenderConserves(s: Node, x: Actor, m: SendMove)
    requires SlotsConserved(s) && SenderMay(s, x, m)
    ensures SlotsConserved(SenderDoes(s, x, m))
  {
    var t := SenderDoes(s, x, m);
    assert t.window == s.window && t.lost == s.lost && t.control == s.control;
    assert if x == Generator then t.echo == s.echo else t.generator == s.generator;
    assert t.frames == if m == Submit(true) then s.frames + [NewFrame(s, x)] else s.frames;
    CountAppend(s.frames, NewFrame(s, x), HoldsToken);
  }

  lemma RadioConserves(s: Node, r: RadioMove)
    requires SlotsConserved(s) && RadioMay(s, r)
    ensures SlotsConserved(RadioDoes(s, r))
  {
    var t := RadioDoes(s, r);
    assert t.window == s.window && t.lost == s.lost && t.control == s.control;
    assert t.generator == s.generator && t.echo == s.echo;
    if r.Arrive? {
      assert t.frames == s.frames && t.free == s.free;
    } else {
      assert t.frames == s.frames[r.frame := t.frames[r.frame]];
      assert t.free == if r.ReturnSlot? then Give(s.free) else s.free;
      CountUpdate(s.frames, r.frame, t.frames[r.frame], HoldsToken);
    }
  }

  lemma ReceiverConserves(s: Node, v: ReceiverMove)
    requires SlotsConserved(s) && Consistent(s) && ReceiverMay(s, v)
    ensures SlotsConserved(ReceiverDoes(s, v))
  {
    var t := ReceiverDoes(s, v);
    assert t.window == s.window && t.free == s.free && t.lost == s.lost && t.control == s.control;
    assert t.generator == s.generator && SlotsOf(t.echo) == SlotsOf(s.echo);
    if v == Handle(false) && s.log[s.taken - 1].Completion? {
      var f := s.log[s.taken - 1].frame;
      assert t.frames == s.frames[f := s.frames[f].(fate := Counted)];
      CountUpdate(s.frames, f, s.frames[f].(fate := Counted), HoldsToken);
    } else {
      assert t.frames == s.frames;
    }
  }

  lemma FlushConserves(s: Node, u: FlushMove)
    requires SlotsConserved(s) && FlushMay(s, u)
    ensures SlotsConserved(FlushDoes(s, u))
  {
    var t := FlushDoes(s, u);
    assert t.window == s.window && t.free == s.free && t.lost == s.lost && t.frames == s.frames;
    assert t.generator == s.generator && t.echo == s.echo;
    assert SlotsOfControl(t.control) == SlotsOfControl(s.control);
  }

  lemma WindowConserves(s: Node, w: WindowMove)
    requires SlotsConserved(s) && WindowMay(s, w)
    ensures SlotsConserved(WindowDoes(s, w))
  {
    var t := WindowDoes(s, w);
    assert t.generator == s.generator && t.echo == s.echo && t.frames == s.frames;
  }

  lemma SlotsStep(s: Node, a: Action)
    requires SlotsConserved(s) && Consistent(s) && Enabled(s, a)
    ensures SlotsConserved(Apply(s, a))
  {
    match a
    case BySender(x, m) => SenderConserves(s, x, m);
    case ByRadio(r) => RadioConserves(s, r);
    case ByReceiver(v) => ReceiverConserves(s, v);
    case ByFlush(u) => FlushConserves(s, u);
    case ByWindow(w) => WindowConserves(s, w);
    case ByGenerator(_) =>
    case ResetMetrics =>
  }
}
