/** The control task's loops as the firmware writes them: waiting for an idle radio, resizing the transmit
    window, flushing the event queue and draining. Each take, give, post and wait is one step of the
    transition system, and the other tasks take any steps of theirs in between. */
module ControlLoops {
  import opened DrainFence
  import opened TxCounts
  import opened TxFence
  import opened TxSafety

  /** The steps of the generator, the echo path, the radio callbacks and the receiver task. */
  predicate OfAnotherTask(a: Action) {
    a.ByGenerator? || a.BySender? || a.ByRadio? || a.ByReceiver?
  }

  /** Where the control task goes on once it has given everything back. */
  function AfterGiving(c: Control): Control {
    match c
    case Giving(ForDrain(round), _) => Posting(round + 1)
    case Giving(ForConfigure(want), _) => Shrinking(0, want)
    case _ => Ready
  }

  lemma WhereToGoOn(c: Control, left: nat)
    requires c.Giving? || c.Releasing? || c.Growing?
    ensures AfterGiving(c.(left := left)) == AfterGiving(c)
  {}

  lemma GoesOn(s: Node)
    requires WindowMay(s, AllGiven)
    ensures WindowDoes(s, AllGiven) == s.(control := AfterGiving(s.control))
  {}

  // ----- what happened on the way -----

  /** The control task gives up waiting: for a slot while none is free, for room in the queue while 64 events
      are in it, or for a notification while there is none. */
  predicate GivesUp(s: Node, a: Action) {
    || (a == ByWindow(TakeTimesOut) && s.free == 0)
    || (a == ByFlush(PostTimesOut) && |s.log| - s.taken >= 64)
    || (a == ByFlush(AwaitTimesOut) && s.notifications == 0)
  }

  /** A resize or a drain begins. */
  predicate Begins(s: Node, a: Action) {
    a == ByFlush(BeginDrain) || (a.ByWindow? && a.w.BeginConfigure?)
  }

  /** How often it happened on a run. */
  function Tally(states: seq<Node>, actions: seq<Action>, happens: (Node, Action) -> bool): nat
    requires |states| > |actions|
  {
    if actions == [] then 0
    else
      var n := |actions| - 1;
      Tally(states[..n + 1], actions[..n], happens) + One(happens(states[n], actions[n]))
  }

  lemma TallyOneMore(states: seq<Node>, actions: seq<Action>, t: Node, a: Action, happens: (Node, Action) -> bool)
    requires |states| == |actions| + 1
    ensures Tally(states + [t], actions + [a], happens)
         == Tally(states, actions, happens) + One(happens(states[|actions|], a))
  {
    assert (states + [t])[..|actions| + 1] == states && (actions + [a])[..|actions|] == actions;
  }

  lemma LongerTrail(states: seq<Node>, actions: seq<Action>, t: Node, a: Action)
    requires Trail(states, actions) && Follows(states[|actions|], t, a)
    ensures Trail(states + [t], actions + [a])
  {
    var p, q := states + [t], actions + [a];
    forall i | 0 <= i < |q|
      ensures Follows(p[i], p[i + 1], q[i])
    {
      if i < |actions| {
        assert Follows(states[i], states[i + 1], actions[i]);
      }
    }
  }

  /** The actions of a run from boot to this node, and how often on it the control task gave up and how many
      resizes and drains began. */
  ghost predicate Ran(actions: seq<Action>, t: Node, gaveUp: nat, begun: nat) {
    exists p :: Trail(p, actions) && p[|actions|] == t
      && gaveUp == Tally(p, actions, GivesUp) && begun == Tally(p, actions, Begins)
  }

  lemma RanOneMore(actions: seq<Action>, s: Node, gaveUp: nat, begun: nat, a: Action)
    requires Ran(actions, s, gaveUp, begun) && Enabled(s, a)
    ensures Ran(actions + [a], Apply(s, a), gaveUp + One(GivesUp(s, a)), begun + One(Begins(s, a)))
  {
    var t := Apply(s, a);
    var p :| Trail(p, actions) && p[|actions|] == s
      && gaveUp == Tally(p, actions, GivesUp) && begun == Tally(p, actions, Begins);
    LongerTrail(p, actions, t, a);
    TallyOneMore(p, actions, t, a, GivesUp);
    TallyOneMore(p, actions, t, a, Begins);
    assert (p + [t])[|actions + [a]|] == t;
  }

  lemma RanReaches(actions: seq<Action>, t: Node, gaveUp: nat, begun: nat)
    requires Ran(actions, t, gaveUp, begun)
    ensures Reachable(t)
  {
    var p :| Trail(p, actions) && p[|actions|] == t
      && gaveUp == Tally(p, actions, GivesUp) && begun == Tally(p, actions, Begins);
    forall i | 0 < i < |p|
      ensures Moves(p[i - 1], p[i])
    {
      assert Follows(p[i - 1], p[i - 1 + 1], actions[i - 1]);
    }
    assert Path(p) && p[|p| - 1] == t;
  }

  class ControlTask {
    var node: Node
    /** What the other tasks would do next, given the chance. */
    var schedule: seq<Action>
    /** What was done since boot. */
    ghost var actions: seq<Action>
    /** How often the control task gave up waiting. */
    ghost var gaveUp: nat
    /** How many resizes and drains began. */
    ghost var begun: nat

    ghost predicate Valid()
      reads `node, `actions, `gaveUp, `begun
    {
      Ran(actions, node, gaveUp, begun) && Reachable(node)
    }

    constructor (schedule: seq<Action>)
      ensures Valid() && node == Boot() && this.schedule == schedule
      ensures actions == [] && gaveUp == begun == 0
    {
      this.schedule := schedule;
      node, actions, gaveUp, begun := Boot(), [], 0, 0;
      new;
      ghost var p := [Boot()];
      assert Trail(p, []) && p[0] == Boot();
      RanReaches(actions, node, gaveUp, begun);
    }

    method Step(a: Action)
      requires Valid() && Enabled(node, a)
      modifies `node, `actions, `gaveUp, `begun
      ensures Valid() && node == Apply(old(node), a)
      ensures actions == old(actions) + [a]
      ensures gaveUp == old(gaveUp) + One(GivesUp(old(node), a))
      ensures begun == old(begun) + One(Begins(old(node), a))
    {
      RanOneMore(actions, node, gaveUp, begun, a);
      actions, gaveUp, begun := actions + [a], gaveUp + One(GivesUp(node, a)), begun + One(Begins(node, a));
      node := Apply(node, a);
      RanReaches(actions, node, gaveUp, begun);
    }

    method WindowStep(w: WindowMove)
      requires Valid() && WindowMay(node, w)
      modifies `node, `actions, `gaveUp, `begun
      ensures Valid() && node == WindowDoes(old(node), w)
      ensures old(actions) <= actions
      ensures gaveUp == old(gaveUp) + One(w == TakeTimesOut) && begun == old(begun) + One(w.BeginConfigure?)
    {
      Step(ByWindow(w));
    }

    method FlushStep(u: FlushMove)
      requires Valid() && FlushMay(node, u)
      modifies `node, `actions, `gaveUp, `begun
      ensures Valid() && node == FlushDoes(old(node), u)
      ensures old(actions) <= actions
      ensures gaveUp == old(gaveUp) + One(u == PostTimesOut || u == AwaitTimesOut)
      ensures begun == old(begun) + One(u == BeginDrain)
    {
      Step(ByFlush(u));
    }

    /** Any number of steps of the other tasks. */
    method Interleave()
      requires Valid()
      modifies this
      ensures Valid() && Untouched(old(node), node)
      ensures old(actions) <= actions
      ensures gaveUp == old(gaveUp) && begun == old(begun)
      ensures old(schedule) == [] ==> schedule == [] && node == old(node)
    {
      var n: nat :| n <= |schedule|;
      for i := 0 to n
        invariant Valid() && Untouched(old(node), node)
        invariant old(actions) <= actions
        invariant gaveUp == old(gaveUp) && begun == old(begun)
        invariant schedule == old(schedule) && (n == 0 ==> node == old(node))
      {
        var a := schedule[i];
        if OfAnotherTask(a) && Enabled(node, a) {
          OthersLeaveControl(node, a);
          Step(a);
        }
      }
      schedule := schedule[n..];
    }

    /** `xSemaphoreTake` with a timeout: the next slot, unless none is free when the wait ends. */
    method Take() returns (ok: bool)
      requires Valid() && (node.control.Taking? || node.control.Shrinking?) && node.control.got < node.window
      modifies this
      ensures Valid() && old(actions) <= actions
      ensures gaveUp == old(gaveUp) + One(!ok) && begun == old(begun)
      ensures node.window == old(node.window) && node.responder == old(node.responder)
      ensures ok ==> node.control == old(node.control).(got := old(node.control.got) + 1) && node.lost == old(node.lost)
      ensures !ok && old(node.control.Taking?) ==>
        node.control == Releasing(old(node.control.got)) && node.lost == old(node.lost)
      ensures !ok && old(node.control.Shrinking?) ==>
        node.control == Ready && node.lost == old(node.lost) + old(node.control.got)
      ensures old(schedule) == [] ==>
        schedule == [] && (ok <==> old(node.free) > 0) && node.free == old(node.free) - One(ok)
    {
      Interleave();
      ok := node.free > 0;
      WindowStep(if ok then TakeSlot else TakeTimesOut);
    }

    /** `xSemaphoreGive` */
    method Give()
      requires Valid() && (node.control.Giving? || node.control.Releasing? || node.control.Growing?)
      requires node.control.left > 0
      modifies this
      ensures Valid() && old(actions) <= actions
      ensures gaveUp == old(gaveUp) && begun == old(begun)
      ensures node.window == old(node.window) && node.lost == old(node.lost) && node.responder == old(node.responder)
      ensures node.control == old(node.control).(left := old(node.control.left) - 1)
      ensures old(schedule) == [] ==> schedule == [] && node.free == old(node.free) + 1
    {
      Interleave();
      NoGiveIsRefused(node, ByWindow(GiveSlot));
      WindowStep(GiveSlot);
    }

    /** Goes on once everything is given back. */
    method GoOn()
      requires Valid() && (node.control.Giving? || node.control.Releasing? || node.control.Growing?)
      requires node.control.left == 0
      modifies `node, `actions, `gaveUp, `begun
      ensures Valid() && old(actions) <= actions
      ensures gaveUp == old(gaveUp) && begun == old(begun)
      ensures node == old(node).(control := AfterGiving(old(node.control)))
    {
      GoesOn(node);
      WindowStep(AllGiven);
    }

    /** Gives `left` slots back, one by one. */
    method GiveBack(left: nat)
      requires Valid() && (node.control.Giving? || node.control.Releasing? || node.control.Growing?)
      requires node.control.left == left
      modifies this
      ensures Valid() && old(actions) <= actions
      ensures gaveUp == old(gaveUp) && begun == old(begun)
      ensures node.window == old(node.window) && node.lost == old(node.lost) && node.responder == old(node.responder)
      ensures node.control == AfterGiving(old(node.control))
      ensures old(schedule) == [] ==> schedule == [] && node.free == old(node.free) + left
    {
      ghost var c := node.control;
      var given := 0;
      while given < left
        invariant Valid() && old(actions) <= actions
        invariant gaveUp == old(gaveUp) && begun == old(begun)
        invariant given <= left && node.control == c.(left := left - given)
        invariant node.window == old(node.window) && node.lost == old(node.lost)
        invariant node.responder == old(node.responder)
        invariant old(schedule) == [] ==> schedule == [] && node.free == old(node.free) + given
      {
        Give();
        given := given + 1;
      }
      WhereToGoOn(c, 0);
      GoOn();
    }

    /** Holds the whole window: then no slot is lost. */
    method Idle()
      requires Valid() && node.control.Taking? && node.control.got >= node.window
      modifies `node, `actions, `gaveUp, `begun
      ensures Valid() && old(actions) <= actions
      ensures gaveUp == old(gaveUp) && begun == old(begun)
      ensures node.lost == old(node.lost) == 0 && node.window == old(node.window)
      ensures node.free == old(node.free) && node.responder == old(node.responder)
      ensures node.control == Giving(old(node.control.purpose), old(node.control.got))
    {
      NothingLost(node);
      WindowStep(AllTaken);
    }

    /** Takes the whole window slot by slot, until a take times out. */
    method TakeAll() returns (ok: bool, acquired: nat)
      requires Valid() && node.control.Taking? && node.control.got == 0
      modifies this
      ensures Valid() && old(actions) <= actions
      ensures gaveUp == old(gaveUp) + One(!ok) && begun == old(begun)
      ensures node.window == old(node.window) && node.lost == old(node.lost) && node.responder == old(node.responder)
      ensures node.control == if ok then Taking(old(node.control.purpose), acquired) else Releasing(acquired)
      ensures ok <==> acquired >= node.window
      ensures old(schedule) == [] ==>
        && schedule == [] && node.free == old(node.free) - acquired
        && (ok <==> old(node.free) >= node.window)
    {
      var purpose := node.control.purpose;
      acquired, ok := 0, true;
      while ok && acquired < node.window
        invariant Valid() && old(actions) <= actions
        invariant gaveUp == old(gaveUp) + One(!ok) && begun == old(begun)
        invariant node.control == if ok then Taking(purpose, acquired) else Releasing(acquired)
        invariant acquired <= node.window && (!ok ==> acquired < node.window)
        invariant node.window == old(node.window) && node.lost == old(node.lost)
        invariant node.responder == old(node.responder)
        invariant old(schedule) == [] ==>
          schedule == [] && node.free == old(node.free) - acquired && (!ok ==> node.free == 0)
        decreases ok, node.window - acquired
      {
        ok := Take();
        if ok {
          acquired := acquired + 1;
        }
      }
    }

    /** `radio_wait_idle`: takes the whole window slot by slot and gives it back, or gives back what it has
        when a take times out. It leaves the window as it was, fails only on a take that finds no slot, never
        succeeds once a slot is lost, and succeeds if all are free and nobody interferes. */
    method WaitIdle() returns (ok: bool)
      requires Valid() && node.control.Taking? && node.control.got == 0
      modifies this
      ensures Valid() && old(actions) <= actions
      ensures gaveUp == old(gaveUp) + One(!ok) && begun == old(begun)
      ensures node.window == old(node.window) && node.lost == old(node.lost) && node.responder == old(node.responder)
      ensures ok ==> node.lost == 0
      ensures node.control == if !ok then Ready
                              else match old(node.control.purpose)
                                   case ForDrain(round) => Posting(round + 1)
                                   case ForConfigure(want) => Shrinking(0, want)
      ensures old(schedule) == [] ==> schedule == [] && node.free == old(node.free)
      ensures old(schedule) == [] && old(node.free) >= node.window ==> ok
    {
      var acquired;
      ok, acquired := TakeAll();
      if ok {
        Idle();
      }
      GiveBack(acquired);
    }

    method BeginToConfigure(want: nat, responder: bool)
      requires Valid() && node.control == Ready && 1 <= want <= MAX_WINDOW
      modifies `node, `actions, `gaveUp, `begun
      ensures Valid() && old(actions) <= actions
      ensures gaveUp == old(gaveUp) && begun == old(begun) + 1
      ensures node == old(node).(responder := responder, control := Taking(ForConfigure(want), 0))
    {
      WindowStep(BeginConfigure(want, responder));
    }

    /** The head of `radio_configure`, up to the new window: either the resize holds every slot there is and
        the new window is whole, or a take finds no slot and those taken in the second pass are lost. It fails
        only so, and with every slot free and nobody interfering the new window is whole and free. */
    method Resize(want: nat, responder: bool) returns (ok: bool, ghost taken: nat)
      requires Valid() && node.control == Ready && 1 <= want <= MAX_WINDOW
      modifies this
      ensures Valid() && old(actions) <= actions && node.control == Ready && node.responder == responder
      ensures gaveUp == old(gaveUp) + One(!ok) && begun == old(begun) + 1
      ensures ok ==> node.window == want && node.lost == 0
      ensures !ok ==> node.window == old(node.window) && node.lost == old(node.lost) + taken
      ensures !ok && taken > 0 ==> old(node.lost) == 0 && taken < node.window
      ensures old(schedule) == [] && old(node.free) == old(node.window) ==> ok && node.free == want
    {
      BeginToConfigure(want, responder);
      taken := 0;
      ok := WaitIdle();
      if !ok {
        return;
      }
      ok := HoldWindow(want);
      if ok {
        GiveBack(want);
      } else {
        taken := node.lost;
      }
    }

    /** The second pass of the resize: takes the old window away and sets the new one. */
    method HoldWindow(want: nat) returns (ok: bool)
      requires Valid() && node.control == Shrinking(0, want) && node.lost == 0 && 1 <= want <= MAX_WINDOW
      modifies this
      ensures Valid() && old(actions) <= actions && node.responder == old(node.responder)
      ensures gaveUp == old(gaveUp) + One(!ok) && begun == old(begun)
      ensures ok ==> node.control == Growing(want) && node.window == want && node.lost == 0
      ensures !ok ==> node.control == Ready && node.window == old(node.window) && node.lost < node.window
      ensures old(schedule) == [] && old(node.free) == old(node.window) ==> ok && schedule == [] && node.free == 0
    {
      var i := 0;
      while i < node.window
        invariant Valid() && old(actions) <= actions
        invariant gaveUp == old(gaveUp) && begun == old(begun)
        invariant node.control == Shrinking(i, want) && i <= node.window
        invariant node.window == old(node.window) && node.lost == 0
        invariant node.responder == old(node.responder)
        invariant old(schedule) == [] ==> schedule == [] && node.free == old(node.free) - i
      {
        ok := Take();
        if !ok {
          return;
        }
        i := i + 1;
      }
      WindowStep(AllTaken);
      ok := true;
    }

    /** Posts a barrier, unless the queue is full when the wait for room ends. */
    method Post() returns (ok: bool)
      requires Valid() && node.control.Posting?
      modifies this
      ensures Valid() && old(actions) <= actions
      ensures gaveUp == old(gaveUp) + One(!ok) && begun == old(begun)
      ensures node.window == old(node.window) && node.lost == old(node.lost)
      ensures node.control == if ok then Awaiting(old(node.control.round)) else Ready
    {
      Interleave();
      ok := !QueueFull(node);
      FlushStep(if ok then PostBarrier else PostTimesOut);
    }

    /** Takes the notifications there are, unless there is none when the wait ends. */
    method Await() returns (ok: bool)
      requires Valid() && node.control.Awaiting?
      modifies this
      ensures Valid() && old(actions) <= actions
      ensures gaveUp == old(gaveUp) + One(!ok) && begun == old(begun)
      ensures node.window == old(node.window) && node.lost == old(node.lost)
      ensures node.control == if ok && old(node.control.round) < 2 then Taking(ForDrain(old(node.control.round)), 0)
                              else Ready
      ensures ok && old(node.control.round) == 2 ==> node.drain.done && FencePromise(node)
    {
      Interleave();
      ok := node.notifications > 0;
      if ok {
        PromiseKept(node);
      }
      FlushStep(if ok then TakeNotification else AwaitTimesOut);
    }

    /** `receiver_flush`: fails only when its post finds the queue full or its wait no notification. */
    method Flush() returns (ok: bool)
      requires Valid() && node.control.Posting?
      modifies this
      ensures Valid() && old(actions) <= actions
      ensures gaveUp == old(gaveUp) + One(!ok) && begun == old(begun)
      ensures node.window == old(node.window) && node.lost == old(node.lost)
      ensures node.control == if ok && old(node.control.round) < 2 then Taking(ForDrain(old(node.control.round)), 0)
                              else Ready
      ensures ok && old(node.control.round) == 2 ==> node.drain.done && FencePromise(node)
    {
      ok := Post();
      if ok {
        ok := Await();
      }
    }

    method BeginToDrain()
      requires Valid() && node.control == Ready && !node.generating
      modifies `node, `actions, `gaveUp, `begun
      ensures Valid() && old(actions) <= actions && node.control == Posting(0)
      ensures gaveUp == old(gaveUp) && begun == old(begun) + 1
      ensures node.window == old(node.window) && node.lost == old(node.lost)
    {
      FlushStep(BeginDrain);
    }

    /** `drain_measurement_events`, with the generator stopped. Whatever the other tasks do meanwhile, true
        means the fence holds when it returns, and false that some post, wait or take gave up. */
    method Drain() returns (ok: bool)
      requires Valid() && node.control == Ready && !node.generating
      modifies this
      ensures Valid() && node.control == Ready
      ensures node.window == old(node.window) && node.lost == old(node.lost)
      ensures old(actions) <= actions
      ensures gaveUp == old(gaveUp) + One(!ok) && begun == old(begun) + 1
      ensures ok ==> node.drain.done && FencePromise(node) && node.lost == 0
    {
      BeginToDrain();
      ok := Flush();
      if ok {
        ok := WaitIdle();
      }
      if ok {
        ok := Flush();
      }
      if ok {
        ok := WaitIdle();
      }
      if ok {
        ok := Flush();
      }
    }
  }

  lemma NothingLost(s: Node)
    requires Reachable(s) && Enabled(s, ByWindow(AllTaken))
    ensures s.lost == 0
  {
    EveryRunIsSound(s);
    AllTakenMeansIdle(s);
  }

  lemma PromiseKept(s: Node)
    requires Reachable(s) && s.control.Awaiting? && s.notifications > 0
    ensures s.control.round == 2 ==> FencePromise(FlushDoes(s, TakeNotification))
  {
    if s.control.round == 2 {
      DrainIsFence(s);
    }
  }
}
