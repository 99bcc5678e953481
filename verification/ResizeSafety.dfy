/** When a resize of the transmit window can lose a slot: exactly when somebody may take one behind the idle
    wait, told from the state in which the configure begins. */
module ResizeSafety {
  import opened DrainFence
  import opened FrameTracking
  import opened SlotWindow
  import opened TxFence
  import opened TxSafety

  // ----- what may follow, up to the next configure -----

  predicate NoConfigure(a: Action) {
    !(a.ByWindow? && a.w.BeginConfigure?)
  }

  ghost predicate Onward(s: Node, t: Node) {
    exists a :: Follows(s, t, a) && NoConfigure(a)
  }

  ghost predicate Stretch(p: seq<Node>) {
    p != [] && forall i | 0 < i < |p| :: Onward(p[i - 1], p[i])
  }

  /** Some steps of the tasks, none of them another configure, lead from s to t. */
  ghost predicate Leads(s: Node, t: Node) {
    exists p :: Stretch(p) && p[0] == s && p[|p| - 1] == t
  }

  lemma LeadsToItself(s: Node)
    ensures Leads(s, s)
  {
    var p := [s];
    assert Stretch(p) && p[0] == s && p[|p| - 1] == s;
  }

  lemma OneMoreStretch(p: seq<Node>, t: Node)
    requires Stretch(p) && Onward(p[|p| - 1], t)
    ensures Stretch(p + [t])
  {
    var q := p + [t];
    forall i | 0 < i < |q|
      ensures Onward(q[i - 1], q[i])
    {
      if i < |p| {
        assert q[i - 1] == p[i - 1] && q[i] == p[i];
      }
    }
  }

  lemma LeadsOn(s: Node, t: Node, a: Action)
    requires Leads(s, t) && Enabled(t, a) && NoConfigure(a)
    ensures Leads(s, Apply(t, a))
  {
    var u := Apply(t, a);
    assert Follows(t, u, a);
    var p :| Stretch(p) && p[0] == s && p[|p| - 1] == t;
    OneMoreStretch(p, u);
    var q := p + [u];
    assert q[0] == s && q[|q| - 1] == u;
  }

  /** The slots counted as lost may yet grow. */
  ghost predicate MayLose(s: Node) {
    exists t :: Leads(s, t) && t.lost != s.lost
  }

  // ----- a resize that nobody can disturb -----

  predicate InResize(c: Control) {
    match c
    case Taking(p, _) => p.ForConfigure?
    case Giving(p, _) => p.ForConfigure?
    case Shrinking(_, _) => true
    case _ => false
  }

  /** The idle wait of the configure has held every slot. */
  predicate PastIdle(c: Control) {
    match c
    case Giving(p, _) => p.ForConfigure?
    case Shrinking(_, _) => true
    case _ => false
  }

  ghost predicate NothingOut(s: Node) {
    InFlight(s) == 0 && SlotsOf(s.generator) == 0 && SlotsOf(s.echo) == 0
  }

  ghost predicate Clear(s: Node) {
    PastIdle(s.control) ==> NothingOut(s)
  }

  /** Nobody is in a position to take a slot, now or later in the resize. */
  predicate NoTaker(s: Node) {
    !s.generating && !s.responder && s.echo != Acquiring
  }

  predicate Acquires(a: Action) {
    a.BySender? && a.m == Acquire
  }

  lemma SameTokens(fs: seq<Frame>, gs: seq<Frame>)
    requires |fs| == |gs| && forall f | 0 <= f < |fs| :: gs[f].token == fs[f].token
    ensures Count(fs, HoldsToken) == Count(gs, HoldsToken)
  {
    assert Which(fs, HoldsToken) == Which(gs, HoldsToken);
  }

  lemma NoTokenOut(s: Node, f: nat)
    requires InFlight(s) == 0 && f < |s.frames|
    ensures !s.frames[f].token
  {
    assert Which(s.frames, HoldsToken) == {};
    assert f !in Which(s.frames, HoldsToken);
  }

  lemma SenderClear(s: Node, x: Actor, m: SendMove)
    requires NothingOut(s) && SenderMay(s, x, m) && m != Acquire
    ensures NothingOut(SenderDoes(s, x, m))
  {
    var t := SenderDoes(s, x, m);
    assert t.frames == s.frames;
  }

  lemma RadioClear(s: Node, r: RadioMove)
    requires NothingOut(s) && RadioMay(s, r)
    ensures NothingOut(RadioDoes(s, r))
  {
    var t := RadioDoes(s, r);
    assert t.generator == s.generator && t.echo == s.echo;
    if !r.Arrive? {
      NoTokenOut(s, r.frame);
    }
    SameTokens(s.frames, t.frames);
  }

  lemma ReceiverClear(s: Node, v: ReceiverMove)
    requires Consistent(s) && NothingOut(s) && ReceiverMay(s, v)
    ensures NothingOut(ReceiverDoes(s, v))
  {
    var t := ReceiverDoes(s, v);
    assert t.generator == s.generator && SlotsOf(t.echo) == SlotsOf(s.echo);
    SameTokens(s.frames, t.frames);
  }

  lemma GeneratorClear(s: Node, g: GeneratorMove)
    requires NothingOut(s) && GeneratorMay(s, g)
    ensures NothingOut(GeneratorDoes(s, g))
  {}

  lemma WindowClear(s: Node, w: WindowMove)
    requires Consistent(s) && SlotsConserved(s) && Clear(s) && WindowMay(s, w)
    ensures Clear(WindowDoes(s, w))
  {
    var t := WindowDoes(s, w);
    assert t.frames == s.frames && t.generator == s.generator && t.echo == s.echo;
    if w == AllTaken {
      AllTakenMeansIdle(s);
      assert Which(s.frames, HoldsToken) == {};
    } else {
      assert PastIdle(t.control) ==> PastIdle(s.control);
    }
  }

  /** Past the idle wait nothing is out until somebody acquires. */
  lemma ClearStep(s: Node, a: Action)
    requires Sound(s) && Clear(s) && Enabled(s, a) && !Acquires(a)
    ensures Clear(Apply(s, a))
  {
    if a.ByWindow? {
      WindowClear(s, a.w);
    } else if !a.ByFlush? {
      OthersLeaveControl(s, a);
      if PastIdle(s.control) {
        match a
        case BySender(x, m) => SenderClear(s, x, m);
        case ByRadio(r) => RadioClear(s, r);
        case ByReceiver(v) => ReceiverClear(s, v);
        case ByGenerator(g) => GeneratorClear(s, g);
        case _ =>
      }
    }
  }

  lemma NoTakerStep(s: Node, a: Action)
    requires Consistent(s) && NoTaker(s) && Enabled(s, a) && NoConfigure(a) && s.control != Ready
    ensures NoTaker(Apply(s, a)) && !Acquires(a)
  {}

  /** What is left of the window in the second pass. */
  lemma FreeInClear(s: Node)
    requires SlotsConserved(s) && NothingOut(s)
    ensures s.free == s.window - SlotsOfControl(s.control) - s.lost
  {}

  ghost predicate Harmless(s: Node) {
    InResize(s.control) ==> s.window == 1 || s.lost > 0 || (NoTaker(s) && Clear(s))
  }

  lemma StillInResize(s: Node, a: Action)
    requires Enabled(s, a) && NoConfigure(a) && InResize(Apply(s, a).control)
    ensures InResize(s.control) && Apply(s, a).window == s.window && Apply(s, a).lost >= s.lost
  {
    if !a.ByFlush? && !a.ByWindow? {
      OthersLeaveControl(s, a);
    }
  }

  lemma OnlyShrinkingLoses(s: Node, a: Action)
    requires Enabled(s, a) && Apply(s, a).lost != s.lost
    ensures a == ByWindow(TakeTimesOut) && s.control.Shrinking? && 0 < s.control.got < s.window && s.free == 0
  {
    if !a.ByFlush? && !a.ByWindow? {
      OthersLeaveControl(s, a);
    }
  }

  lemma HarmlessStep(s: Node, a: Action)
    requires Sound(s) && Harmless(s) && Enabled(s, a) && NoConfigure(a)
    ensures Harmless(Apply(s, a)) && Apply(s, a).lost == s.lost
  {
    if Apply(s, a).lost != s.lost {
      OnlyShrinkingLoses(s, a);
      FreeInClear(s);
    }
    if InResize(Apply(s, a).control) {
      StillInResize(s, a);
      if NoTaker(s) && Clear(s) {
        NoTakerStep(s, a);
        ClearStep(s, a);
      }
    }
  }

  lemma {:induction false} HarmlessStretch(p: seq<Node>)
    requires Stretch(p) && Sound(p[0]) && Harmless(p[0])
    ensures Sound(p[|p| - 1]) && Harmless(p[|p| - 1]) && p[|p| - 1].lost == p[0].lost
  {
    var n := |p| - 1;
    if n > 0 {
      HarmlessStretch(p[..n]);
      assert p[..n][n - 1] == p[n - 1] && Onward(p[n - 1], p[n]);
      var a :| Follows(p[n - 1], p[n], a) && NoConfigure(a);
      HarmlessStep(p[n - 1], a);
      SoundStep(p[n - 1], a);
    }
  }

  lemma HarmlessKeepsSlots(s: Node)
    requires Sound(s) && Harmless(s)
    ensures !MayLose(s)
  {
    if t :| Leads(s, t) && t.lost != s.lost {
      var p :| Stretch(p) && p[0] == s && p[|p| - 1] == t;
      HarmlessStretch(p);
    }
  }

  ghost predicate Exactly(s: Node) {
    s.lost == 0 && Clear(s)
  }

  lemma ExactStep(s: Node, a: Action)
    requires Sound(s) && Exactly(s) && Enabled(s, a) && NoConfigure(a) && !Acquires(a)
    ensures Exactly(Apply(s, a))
  {
    ClearStep(s, a);
    if Apply(s, a).lost != s.lost {
      OnlyShrinkingLoses(s, a);
      FreeInClear(s);
    }
  }

  lemma {:induction false} StaysExact(s: Node, actions: seq<Action>, t: Node)
    requires Sound(s) && Exactly(s) && Runs(s, actions, t)
    requires forall a | a in actions :: NoConfigure(a) && !Acquires(a)
    ensures t.lost == 0
    decreases |actions|
  {
    if actions != [] {
      assert actions[0] in actions;
      ExactStep(s, actions[0]);
      SoundStep(s, actions[0]);
      assert forall a | a in actions[1..] :: a in actions;
      StaysExact(Apply(s, actions[0]), actions[1..], t);
    }
  }

  /** From the instant the idle wait holds the whole window, a resize that nobody disturbs is exact: as long
      as no sender acquires a slot, none is lost. */
  lemma UndisturbedResizeIsExact(s: Node, want: nat, actions: seq<Action>, t: Node)
    requires Reachable(s) && s.control == Giving(ForConfigure(want), s.window) && Runs(s, actions, t)
    requires forall a | a in actions :: NoConfigure(a) && !Acquires(a)
    ensures t.lost == s.lost == 0
  {
    EveryRunIsSound(s);
    assert SlotsOfControl(s.control) == s.window;
    StaysExact(s, actions, t);
  }

  // ----- a resize that somebody can disturb -----

  /** A state some steps after s, in which the invariant holds. */
  ghost predicate Comes(s: Node, t: Node) {
    Leads(s, t) && Reachable(t)
  }

  lemma Goes(s: Node, t: Node, a: Action) returns (u: Node)
    requires Comes(s, t) && Enabled(t, a) && NoConfigure(a)
    ensures u == Apply(t, a) && Comes(s, u)
  {
    u := Apply(t, a);
    LeadsOn(s, t, a);
    AlsoReachable(t, a);
  }

  /** The control task and the roles are where they were. */
  predicate SameControl(t: Node, u: Node) {
    Untouched(t, u) && u.generating == t.generating && u.responder == t.responder
  }

  lemma SenderGoes(s: Node, t: Node, x: Actor, m: SendMove) returns (u: Node)
    requires Comes(s, t) && SenderMay(t, x, m)
    ensures u == SenderDoes(t, x, m) && Comes(s, u) && SameControl(t, u)
    ensures if x == Generator then u.echo == t.echo else u.generator == t.generator
  {
    SenderLeavesControl(t, x, m);
    u := Goes(s, t, BySender(x, m));
  }

  /** A sender that is neither idle nor waiting for a slot comes to rest. */
  lemma Settles(s: Node, t: Node, x: Actor) returns (u: Node)
    requires Comes(s, t)
    ensures Comes(s, u) && SameControl(t, u)
    ensures if x == Generator then u.echo == t.echo else u.generator == t.generator
    ensures if Sender(t, x) == Acquiring then Sender(u, x) == Acquiring else Sender(u, x) == Idle
  {
    u := t;
    if Sender(u, x) == Holding {
      u := SenderGoes(s, u, x, Submit(false));
    }
    if Sender(u, x) == Rejected {
      u := SenderGoes(s, u, x, GiveBack);
    }
    if Sender(u, x) == Accepted || Sender(u, x) == Failed {
      u := SenderGoes(s, u, x, Record);
    }
  }

  predicate SameSenders(t: Node, u: Node) {
    SameControl(t, u) && u.generator == t.generator && u.echo == t.echo
  }

  lemma RadioGoes(s: Node, t: Node, r: RadioMove) returns (u: Node)
    requires Comes(s, t) && RadioMay(t, r)
    ensures u == RadioDoes(t, r) && Comes(s, u) && SameSenders(t, u)
  {
    RadioLeavesControl(t, r);
    u := Goes(s, t, ByRadio(r));
  }

  /** The send callback of a frame in flight. */
  lemma CallsBack(s: Node, t: Node, f: nat) returns (u: Node)
    requires Comes(s, t) && f < |t.frames| && t.frames[f].token
    ensures Comes(s, u) && SameSenders(t, u) && InFlight(u) == InFlight(t) - 1
  {
    u := t;
    if u.frames[f].fate == Pending {
      u := RadioGoes(s, u, PostCompletion(f, true));
      assert |u.frames| == |t.frames| && u.frames[f].token;
      SameTokens(t.frames, u.frames);
    }
    var v := RadioGoes(s, u, ReturnSlot(f));
    assert v.frames == u.frames[f := u.frames[f].(token := false)];
    CountUpdate(u.frames, f, v.frames[f], HoldsToken);
    u := v;
  }

  lemma {:induction false} AllCallBack(s: Node, t: Node) returns (u: Node)
    requires Comes(s, t)
    ensures Comes(s, u) && SameSenders(t, u) && InFlight(u) == 0
    decreases InFlight(t)
  {
    if InFlight(t) == 0 {
      u := t;
    } else {
      var f :| f in Which(t.frames, HoldsToken);
      u := CallsBack(s, t, f);
      u := AllCallBack(s, u);
    }
  }

  lemma ReceiverGoes(s: Node, t: Node, v: ReceiverMove) returns (u: Node)
    requires Comes(s, t) && ReceiverMay(t, v) && v != Handle(true)
    ensures u == ReceiverDoes(t, v) && Comes(s, u) && SameSenders(t, u) && InFlight(u) == InFlight(t)
    ensures u.log == t.log
  {
    ReceiverLeavesControl(t, v);
    u := Goes(s, t, ByReceiver(v));
    SameTokens(t.frames, u.frames);
  }

  lemma Handles(s: Node, t: Node) returns (u: Node)
    requires Comes(s, t) && t.receiver == Handling
    ensures Comes(s, u) && SameSenders(t, u) && InFlight(u) == InFlight(t)
    ensures u.receiver == Waiting && u.log == t.log && u.taken == t.taken
  {
    EveryRunIsSound(t);
    assert Handled(t) == t.taken - 1;
    u := ReceiverGoes(s, t, Handle(false));
  }

  /** The receiver works off its queue, echoing nothing. */
  lemma {:induction false} EmptiesQueue(s: Node, t: Node) returns (u: Node)
    requires Comes(s, t) && t.receiver == Waiting && t.taken <= |t.log|
    ensures Comes(s, u) && SameSenders(t, u) && InFlight(u) == InFlight(t)
    ensures u.receiver == Waiting && u.taken == |u.log|
    decreases |t.log| - t.taken
  {
    u := t;
    if u.taken < |u.log| {
      u := ReceiverGoes(s, u, Dequeue);
      u := Handles(s, u);
      u := EmptiesQueue(s, u);
    }
  }

  /** A ping arrives at an idle responder, whose echo waits for a slot. */
  lemma PingArrives(s: Node, t: Node) returns (u: Node)
    requires Comes(s, t) && t.responder && t.echo == Idle
    ensures Comes(s, u) && SameControl(t, u) && u.generator == t.generator && u.echo == Acquiring
    ensures InFlight(u) == InFlight(t)
  {
    EveryRunIsSound(t);
    u := t;
    if u.receiver == Handling {
      u := Handles(s, u);
    }
    u := EmptiesQueue(s, u);
    u := PingQueued(s, u);
    u := PingTaken(s, u);
  }

  lemma PingQueued(s: Node, t: Node) returns (u: Node)
    requires Comes(s, t) && t.receiver == Waiting && t.taken == |t.log|
    ensures Comes(s, u) && SameSenders(t, u) && InFlight(u) == InFlight(t)
    ensures u.receiver == Waiting && u.taken == t.taken && u.log == t.log + [Received]
  {
    u := RadioGoes(s, t, Arrive(false));
    assert u.frames == t.frames;
  }

  lemma PingTaken(s: Node, t: Node) returns (u: Node)
    requires Comes(s, t) && t.receiver == Waiting && t.taken < |t.log| && t.log[t.taken] == Received && t.responder
    ensures Comes(s, u) && SameControl(t, u) && u.generator == t.generator && u.echo == Acquiring
    ensures InFlight(u) == InFlight(t)
  {
    u := ReceiverGoes(s, t, Dequeue);
    ReceiverLeavesControl(u, Handle(true));
    u := Goes(s, u, ByReceiver(Handle(true)));
  }

  /** Everything comes to rest but one sender, who waits for a slot. */
  lemma OneWaits(s: Node, t: Node) returns (u: Node, x: Actor)
    requires Comes(s, t) && (t.generating || t.responder || t.echo == Acquiring) && t.control != Ready
    ensures Comes(s, u) && Untouched(t, u) && NothingOut(u) && Sender(u, x) == Acquiring
  {
    u := Settles(s, t, Generator);
    u := Settles(s, u, Echo);
    u := AllCallBack(s, u);
    if u.echo == Acquiring {
      x := Echo;
    } else if u.generator == Acquiring {
      x := Generator;
    } else if u.generating {
      u := Goes(s, u, ByGenerator(Requests));
      x := Generator;
    } else {
      u := PingArrives(s, u);
      x := Echo;
    }
  }

  /** What the control task's own steps leave alone. */
  predicate SameOutside(t: Node, u: Node) {
    && u.window == t.window && u.lost == t.lost && u.frames == t.frames
    && u.generator == t.generator && u.echo == t.echo
  }

  lemma WindowGoes(s: Node, t: Node, w: WindowMove) returns (u: Node)
    requires Comes(s, t) && WindowMay(t, w) && NoConfigure(ByWindow(w))
    requires w != TakeTimesOut && !(w == AllTaken && t.control.Shrinking?)
    ensures u == WindowDoes(t, w) && Comes(s, u) && SameOutside(t, u)
  {
    u := Goes(s, t, ByWindow(w));
  }

  lemma {:induction false} TakesAll(s: Node, t: Node, p: Purpose, got: nat) returns (u: Node)
    requires Comes(s, t) && t.control == Taking(p, got) && t.lost == 0 && NothingOut(t) && got <= t.window
    ensures Comes(s, u) && SameOutside(t, u) && u.control == Taking(p, t.window)
    decreases t.window - got
  {
    u := t;
    if got < t.window {
      EveryRunIsSound(t);
      FreeInClear(t);
      u := WindowGoes(s, t, TakeSlot);
      u := TakesAll(s, u, p, got + 1);
    }
  }

  lemma {:induction false} GivesAll(s: Node, t: Node, p: Purpose, left: nat) returns (u: Node)
    requires Comes(s, t) && t.control == Giving(p, left)
    ensures Comes(s, u) && SameOutside(t, u) && u.control == Giving(p, 0)
    decreases left
  {
    u := t;
    if left > 0 {
      u := WindowGoes(s, t, GiveSlot);
      u := GivesAll(s, u, p, left - 1);
    }
  }

  lemma {:induction false} TakesAllButOne(s: Node, t: Node, want: nat, got: nat) returns (u: Node)
    requires Comes(s, t) && t.control == Shrinking(got, want) && t.lost == 0 && NothingOut(t) && got < t.window
    ensures Comes(s, u) && SameOutside(t, u) && u.control == Shrinking(t.window - 1, want)
    decreases t.window - got
  {
    u := t;
    if got < t.window - 1 {
      EveryRunIsSound(t);
      FreeInClear(t);
      u := WindowGoes(s, t, TakeSlot);
      u := TakesAllButOne(s, u, want, got + 1);
    }
  }

  /** The idle wait and the second pass up to its last slot. */
  lemma ComesToLastSlot(s: Node, t: Node, want: nat) returns (u: Node)
    requires Comes(s, t) && t.control == Taking(ForConfigure(want), 0) && t.lost == 0 && NothingOut(t)
    requires t.window >= 2
    ensures Comes(s, u) && SameOutside(t, u) && u.control == Shrinking(t.window - 1, want) && u.free == 1
  {
    var p := ForConfigure(want);
    u := TakesAll(s, t, p, 0);
    u := WindowGoes(s, u, AllTaken);
    u := GivesAll(s, u, p, u.window);
    u := WindowGoes(s, u, AllGiven);
    EveryRunIsSound(u);
    u := TakesAllButOne(s, u, want, 0);
    EveryRunIsSound(u);
    FreeInClear(u);
  }

  lemma LastSlotTaken(s: Node, t: Node, x: Actor) returns (u: Node)
    requires Comes(s, t) && t.control.Shrinking? && t.control.got < t.window
    requires t.free == 1 && Sender(t, x) == Acquiring
    ensures Comes(s, u) && u.lost == t.lost + t.control.got
  {
    u := SenderGoes(s, t, x, Acquire);
    assert u.free == 0;
    u := Goes(s, u, ByWindow(TakeTimesOut));
  }

  lemma Disturbed(s: Node, want: nat)
    requires Reachable(s) && s.control == Taking(ForConfigure(want), 0) && s.lost == 0 && s.window >= 2
    requires s.generating || s.responder || s.echo == Acquiring
    ensures MayLose(s)
  {
    LeadsToItself(s);
    var t, x := OneWaits(s, s);
    t := ComesToLastSlot(s, t, want);
    t := LastSlotTaken(s, t, x);
  }

  // ----- the exact condition -----

  /** Whether a configure that begins now may lose slots can be told now: on every node a run from boot
      reaches, some course of events up to the next configure loses one if and only if the window has at
      least two slots, none is lost yet, and somebody may take a slot behind the idle wait: a generator that
      is alive, the echo path of the new role, or an echo already waiting for its slot. */
  lemma ResizeMayLoseExactlyWhenSomebodyMayTake(s: Node, want: nat, responder: bool)
    requires Reachable(s) && WindowMay(s, BeginConfigure(want, responder))
    ensures MayLose(WindowDoes(s, BeginConfigure(want, responder)))
       <==> s.window >= 2 && s.lost == 0 && (s.generating || responder || s.echo == Acquiring)
  {
    var t := WindowDoes(s, BeginConfigure(want, responder));
    assert t.control == Taking(ForConfigure(want), 0) && t.responder == responder;
    assert t.window == s.window && t.lost == s.lost && t.generating == s.generating && t.echo == s.echo;
    AlsoReachable(s, ByWindow(BeginConfigure(want, responder)));
    EveryRunIsSound(t);
    if s.window >= 2 && s.lost == 0 && (s.generating || responder || s.echo == Acquiring) {
      Disturbed(t, want);
    } else {
      HarmlessKeepsSlots(t);
    }
  }
}
