/** Which role each node has in a run, and so when there are echoes: the host asks B to echo exactly in a ping
    run, and a node takes the role it is asked to. */
module RunRoles {
  import opened NodeControl
  import opened TwoNodeRun
  import opened RunSafety

  /** From request k on, which configures it, a node has this role. */
  ghost predicate RoleFits(n: Node, k: nat, role: Role) {
    AnsweredOk(n, k) || n.control.Configuring? ==> n.role == role
  }

  /** Request 0 configures A and request 1 configures B. */
  ghost predicate RolesFit(s: System) {
    && RoleFits(s.a, 0, if s.initiator then PingInitiator else Generator)
    && RoleFits(s.b, 1, if s.initiator then EchoResponder else Sink)
  }

  ghost predicate EchoesFit(s: System) {
    forall f | (f in s.air || f in s.a.inbox || f in s.b.inbox) && f.run == s.run && f.kind == Echo ::
      s.initiator && f.from == B
  }

  // ----- the roles -----

  /** Only a configure changes the role, and then to the one asked for. */
  lemma DispatchRole(n: Node, id: nat, c: Command, valid: bool, created: bool)
    requires n.control == Ready
    ensures var t := Dispatch(n, id, c, valid, created);
      if c.Configure? then
        if t.control.Configuring? then t.role == c.role && t.answers == n.answers
        else t.role == n.role && t.answers == n.answers[id := false]
      else t.role == n.role && !t.control.Configuring?
  {}

  lemma RoleExecuted(n: Node, k: nat, role: Role, valid: bool, created: bool)
    requires RoleFits(n, k, role) && May(n, Execute(valid, created)) && n.requests[0].id !in n.answers
    requires n.requests[0].command.Configure? ==> n.requests[0].command.role == role
    requires n.requests[0].id == k ==> n.requests[0].command.Configure?
    ensures RoleFits(Do(n, Execute(valid, created)), k, role)
  {
    var r := n.requests[0];
    var rest := n.(requests := n.requests[1..]);
    DispatchRole(rest, r.id, r.command, valid, created);
    DispatchAnswers(rest, r.id, r.command, valid, created);
  }

  lemma RoleAnswered(n: Node, k: nat, role: Role, m: Move)
    requires RoleFits(n, k, role) && May(n, m) && (m.RadioConfigured? || (m.Drained? && n.control.id != k))
    ensures RoleFits(Do(n, m), k, role)
  {
    assert Do(n, m).role == n.role && Do(n, m).control == Ready;
    assert Do(n, m).answers == n.answers[n.control.id := m.ok];
  }

  lemma RoleKept(n: Node, k: nat, role: Role, m: Move)
    requires RoleFits(n, k, role) && May(n, m) && TaskMove(m)
    ensures RoleFits(Do(n, m), k, role)
  {
    TaskMoveKeeps(n, m);
  }

  lemma GeneratorRole(s: System, m: Move)
    requires RunInvariant(s) && RolesFit(s) && May(s.a, m)
    ensures RoleFits(Do(s.a, m), 0, if s.initiator then PingInitiator else Generator)
  {
    var role := if s.initiator then PingInitiator else Generator;
    if m.Execute? {
      var r := s.a.requests[0];
      assert r.command == CommandOf(s.initiator, s.run, r.id) && Target(r.id) == A && r.id !in s.a.answers;
      RoleExecuted(s.a, 0, role, m.valid, m.created);
    } else if TaskMove(m) {
      RoleKept(s.a, 0, role, m);
    } else {
      RoleAnswered(s.a, 0, role, m);
    }
  }

  lemma ReceiverRole(s: System, m: Move)
    requires RunInvariant(s) && RolesFit(s) && May(s.b, m)
    ensures RoleFits(Do(s.b, m), 1, if s.initiator then EchoResponder else Sink)
  {
    var role := if s.initiator then EchoResponder else Sink;
    if m.Execute? {
      var r := s.b.requests[0];
      assert r.command == CommandOf(s.initiator, s.run, r.id) && Target(r.id) == B && r.id !in s.b.answers;
      RoleExecuted(s.b, 1, role, m.valid, m.created);
    } else if TaskMove(m) {
      RoleKept(s.b, 1, role, m);
    } else {
      RoleAnswered(s.b, 1, role, m);
    }
  }

  // ----- the echoes -----

  /** While a frame of the run is queued anywhere, both nodes have their roles. */
  lemma RolesByThen(s: System, f: Frame)
    requires RunInvariant(s) && RolesFit(s) && (f in s.air || f in s.a.inbox || f in s.b.inbox) && f.run == s.run
    ensures s.a.role == if s.initiator then PingInitiator else Generator
    ensures s.b.role == if s.initiator then EchoResponder else Sink
  {
    assert Owned(s.a, s.run, f);
    EarlierOk(s, A_START, A_CONFIGURE);
    EarlierOk(s, A_START, B_CONFIGURE);
  }

  lemma EmittedEcho(s: System, x: Side, m: Move, f: Frame)
    requires RunInvariant(s) && RolesFit(s) && May(At(s, x), m)
    requires f in Emits(At(s, x), m) && f.run == s.run && f.kind == Echo
    ensures s.initiator && f.from == B
  {
    var heard := At(s, x).inbox[0];
    assert heard in At(s, x).inbox && heard.run == s.run;
    RolesByThen(s, heard);
  }

  lemma NodeKeepsRoles(s: System, x: Side, m: Move)
    requires RunInvariant(s) && RolesFit(s) && EchoesFit(s) && May(At(s, x), m)
    ensures RolesFit(Next(s, NodeMoves(x, m)))
  {
    var u := Next(s, NodeMoves(x, m));
    if x == A {
      GeneratorRole(s, m);
      assert u.a == Do(s.a, m) && u.b == s.b && u.initiator == s.initiator;
    } else {
      ReceiverRole(s, m);
      assert u.b == Do(s.b, m) && u.a == s.a && u.initiator == s.initiator;
    }
  }

  lemma NodeKeepsEchoes(s: System, x: Side, m: Move)
    requires RunInvariant(s) && RolesFit(s) && EchoesFit(s) && May(At(s, x), m)
    ensures EchoesFit(Next(s, NodeMoves(x, m)))
  {
    var u := Next(s, NodeMoves(x, m));
    forall f | f in Emits(At(s, x), m) && f.run == s.run && f.kind == Echo
      ensures s.initiator && f.from == B
    {
      EmittedEcho(s, x, m, f);
    }
    InboxShrinks(At(s, x), m);
    assert u.air == s.air + Emits(At(s, x), m) && u.run == s.run && u.initiator == s.initiator;
  }

  lemma RolesStep(s: System, t: Step)
    requires RunInvariant(s) && RolesFit(s) && EchoesFit(s) && Can(s, t)
    ensures RolesFit(Next(s, t)) && EchoesFit(Next(s, t)) && Next(s, t).initiator == s.initiator
  {
    match t
    case NodeMoves(x, m) =>
      NodeKeepsRoles(s, x, m);
      NodeKeepsEchoes(s, x, m);
      assert Next(s, t).initiator == s.initiator;
    case Deliver(_, _) =>
    case _ => HostTouches(s, t);
  }

  lemma {:induction false} RolesOnRun(s: System, steps: seq<Step>, t: System)
    requires RunInvariant(s) && RolesFit(s) && EchoesFit(s) && Runs(s, steps, t)
    ensures RunInvariant(t) && RolesFit(t) && EchoesFit(t) && t.initiator == s.initiator
    decreases |steps|
  {
    if steps != [] {
      RolesStep(s, steps[0]);
      RunStep(s, steps[0]);
      RolesOnRun(Next(s, steps[0]), steps[1..], t);
    }
  }

  lemma BeginsInRole(s: System)
    requires Initial(s)
    ensures RolesFit(s) && EchoesFit(s)
  {}

  /** On every run: once its configure was answered ok, B echoes exactly if it is a ping run and is a sink
      otherwise, and A initiates pings or generates accordingly. */
  lemma RolesOfTheRun(s: System, steps: seq<Step>, t: System)
    requires Initial(s) && Runs(s, steps, t)
    ensures 1 in t.b.answers && t.b.answers[1] ==>
      (t.b.role == EchoResponder <==> s.initiator) && (t.b.role == Sink <==> !s.initiator)
    ensures 0 in t.a.answers && t.a.answers[0] ==>
      (t.a.role == PingInitiator <==> s.initiator) && (t.a.role == Generator <==> !s.initiator)
  {
    BeginsInvariant(s);
    BeginsInRole(s);
    RolesOnRun(s, steps, t);
  }

  /** On every run an echo of the run is on the air or queued only in a ping run, it is B's, and both nodes then
      have their roles in it. */
  lemma EchoesOnlyInPingRuns(s: System, steps: seq<Step>, t: System, f: Frame)
    requires Initial(s) && Runs(s, steps, t)
    requires (f in t.air || f in t.a.inbox || f in t.b.inbox) && f.run == t.run && f.kind == Echo
    ensures s.initiator && f.from == B && t.b.role == EchoResponder && t.a.role == PingInitiator
  {
    BeginsInvariant(s);
    BeginsInRole(s);
    RolesOnRun(s, steps, t);
    RolesByThen(t, f);
  }

  /** And in a ping run B may answer every ping of the run that it has before it. */
  lemma EveryPingMayBeEchoed(s: System, steps: seq<Step>, t: System)
    requires Initial(s) && Runs(s, steps, t) && s.initiator
    requires t.b.inbox != [] && t.b.inbox[0].run == t.run && t.b.inbox[0].kind == Ping
    ensures May(t.b, Receive(true))
    ensures t.b.inbox[0].(from := B, kind := Echo) in Next(t, NodeMoves(B, Receive(true))).air
  {
    var f := t.b.inbox[0];
    assert f in t.b.inbox;
    BeginsInvariant(s);
    BeginsInRole(s);
    RolesOnRun(s, steps, t);
    RolesByThen(t, f);
    assert Owned(t.a, t.run, f);
    RunConfigured(t);
  }

  // ----- the host's order -----

  lemma AllBeforeStart(s: System)
    requires ProgramInStep(s) && AnsweredOk(s.a, 5)
    ensures AnsweredOk(s.a, 0) && AnsweredOk(s.a, 3)
    ensures AnsweredOk(s.b, 1) && AnsweredOk(s.b, 2) && AnsweredOk(s.b, 4)
  {
    EarlierOk(s, 5, 0);
    EarlierOk(s, 5, 1);
    EarlierOk(s, 5, 2);
    EarlierOk(s, 5, 3);
    EarlierOk(s, 5, 4);
  }

  /** Whenever a frame of the run exists, each node was configured, armed and started: A by requests 0, 3 and 5, and
      B by requests 1, 2 and 4, before A was asked to start. */
  lemma EverybodyReadyFirst(s: System, steps: seq<Step>, t: System, f: Frame)
    requires Initial(s) && Runs(s, steps, t)
    requires (f in t.air || f in t.a.inbox || f in t.b.inbox) && f.run == t.run
    ensures forall k | k in {0, 3, 5} :: k in t.a.answers && t.a.answers[k]
    ensures forall k | k in {1, 2, 4} :: k in t.b.answers && t.b.answers[k]
  {
    BeginsInvariant(s);
    RunKeepsInvariant(s, steps, t);
    assert Owned(t.a, t.run, f);
    AllBeforeStart(t);
  }

  lemma {:induction false} EndedForGood(s: System, steps: seq<Step>, t: System)
    requires s.host.aborted && Runs(s, steps, t)
    ensures t.host == s.host
    decreases |steps|
  {
    if steps != [] {
      EndedForGood(Next(s, steps[0]), steps[1..], t);
    }
  }

  /** A request that fails or is not answered ends the program for good, so that nothing more is ever asked of the
      nodes, unless it is one of the two stops, requests 6 and 7; otherwise the next one is made. */
  lemma OnlyStopsMayFail(s: System, t: Step, steps: seq<Step>, u: System)
    requires Can(s, t) && (t.HostHears? || t.HostTimesOut?) && Runs(Next(s, t), steps, u)
    ensures var k := s.host.next;
      if k != 6 && k != 7 && (t.HostTimesOut? || !At(s, Target(k)).answers[k]) then
        u.host.aborted && u.host.next == k
      else
        Next(s, t).host == Host(k + 1, false, false)
  {
    if Next(s, t).host.aborted {
      EndedForGood(Next(s, t), steps, u);
    }
  }

  // ----- the network -----

  /** Frames stay on the air: whatever happens meanwhile, one that was sent may reach the other node late, out of
      order, and again after it has. */
  lemma {:induction false} FramesMayRepeat(s: System, steps: seq<Step>, t: System, x: Side, f: Frame)
    requires Runs(s, steps, t) && f in s.air && f.from != x
    ensures Can(t, Deliver(x, f)) && At(Next(t, Deliver(x, f)), x).inbox == At(t, x).inbox + [f]
    ensures Can(Next(t, Deliver(x, f)), Deliver(x, f))
    decreases |steps|
  {
    if steps != [] {
      assert f in Next(s, steps[0]).air;
      FramesMayRepeat(Next(s, steps[0]), steps[1..], t, x, f);
    }
  }
}
