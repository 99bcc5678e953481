/** Two completed runs: one in which one of two frames is lost and the host reports a loss of one, and a ping run
    in which the echo comes back. */
module CompletedRun {
  import opened SequenceWindow
  import opened Loss
  import opened NodeControl
  import opened TwoNodeRun
  import opened RunSafety

  ghost predicate Reached(s0: System, s: System) {
    exists steps :: Runs(s0, steps, s)
  }

  lemma {:induction false} RunsAppend(s: System, steps: seq<Step>, t: System, step: Step)
    requires Runs(s, steps, t) && Can(t, step)
    ensures Runs(s, steps + [step], Next(t, step))
    decreases |steps|
  {
    if steps == [] {
      assert [step][1..] == [];
    } else {
      assert (steps + [step])[1..] == steps[1..] + [step];
      RunsAppend(Next(s, steps[0]), steps[1..], t, step);
    }
  }

  lemma Go(s0: System, s: System, step: Step) returns (t: System)
    requires Reached(s0, s) && Can(s, step)
    ensures t == Next(s, step) && Reached(s0, t)
  {
    t := Next(s, step);
    var steps :| Runs(s0, steps, s);
    RunsAppend(s0, steps, s, step);
  }

  // ----- one request of the program -----

  predicate Quiet(n: Node) {
    n.control == Ready && n.requests == []
  }

  function Dispatched(s: System, k: nat): Node {
    Dispatch(At(s, Target(k)), k, CommandOf(s.initiator, s.run, k), true, true)
  }

  lemma Asks(s0: System, s: System, k: nat) returns (t: System)
    requires Reached(s0, s) && s.host == Host(k, false, false) && k < PROGRAM_LENGTH
    requires Quiet(At(s, Target(k)))
    ensures t == With(s, Target(k), Dispatched(s, k)).(host := Host(k, true, false)) && Reached(s0, t)
  {
    t := Go(s0, s, HostSends);
    var n := At(t, Target(k));
    assert n.requests == [Request(k, CommandOf(s.initiator, s.run, k))];
    assert n.(requests := n.requests[1..]) == At(s, Target(k));
    t := Go(s0, t, NodeMoves(Target(k), Execute(true, true)));
  }

  lemma Immediate(s0: System, s: System, k: nat) returns (t: System)
    requires Reached(s0, s) && s.host == Host(k, false, false) && k < PROGRAM_LENGTH
    requires Quiet(At(s, Target(k))) && AnsweredOk(Dispatched(s, k), k)
    ensures t == With(s, Target(k), Dispatched(s, k)).(host := Host(k + 1, false, false)) && Reached(s0, t)
  {
    t := Asks(s0, s, k);
    t := Go(s0, t, HostHears);
  }

  lemma Slow(s0: System, s: System, k: nat, m: Move) returns (t: System)
    requires Reached(s0, s) && s.host == Host(k, false, false) && k < PROGRAM_LENGTH
    requires Quiet(At(s, Target(k))) && (m == RadioConfigured(true) || m == Drained(true))
    requires May(Dispatched(s, k), m) && AnsweredOk(Do(Dispatched(s, k), m), k)
    ensures t == With(s, Target(k), Do(Dispatched(s, k), m)).(host := Host(k + 1, false, false)) && Reached(s0, t)
  {
    t := Asks(s0, s, k);
    t := Go(s0, t, NodeMoves(Target(k), m));
    t := Go(s0, t, HostHears);
  }

  lemma Moves(s0: System, s: System, x: Side, m: Move) returns (t: System)
    requires Reached(s0, s) && May(At(s, x), m)
    ensures t == With(s, x, Do(At(s, x), m)).(air := s.air + Emits(At(s, x), m)) && Reached(s0, t)
  {
    t := Go(s0, s, NodeMoves(x, m));
  }

  // ----- the run -----

  function Booted(x: Side): Node {
    Node(x, Idle, 0, Sink, Ready, NoTask, [0], [0], [], [], [], map[], NoReport, {}, true, 0)
  }

  function Begin(initiator: bool): System {
    System(7, initiator, Booted(A), Booted(B), {}, Host(0, false, false))
  }

  lemma ConfigureNode(s0: System, s: System, k: nat) returns (t: System)
    requires Reached(s0, s) && s.host == Host(k, false, false) && (k == A_CONFIGURE || k == B_CONFIGURE)
    requires Quiet(At(s, Target(k))) && At(s, Target(k)).state == Idle
    ensures Reached(s0, t)
    ensures var n := At(s, Target(k));
            t == With(s, Target(k), n.(state := Configured, run := s.run, role := CommandOf(s.initiator, s.run, k).role,
                                       submitted := Zeros(|n.submitted|), arrivals := [],
                                       answers := n.answers[k := true]))
                 .(host := Host(k + 1, false, false))
  {
    t := Slow(s0, s, k, RadioConfigured(true));
  }

  lemma ArmNode(s0: System, s: System, k: nat) returns (t: System)
    requires Reached(s0, s) && s.host == Host(k, false, false) && (k == A_ARM || k == B_ARM)
    requires var n := At(s, Target(k)); Quiet(n) && n.state == Configured && n.run == s.run
    ensures Reached(s0, t)
    ensures var n := At(s, Target(k));
            t == With(s, Target(k), n.(state := Armed, submitted := Zeros(|n.submitted|), arrivals := [],
                                       answers := n.answers[k := true]))
                 .(host := Host(k + 1, false, false))
  {
    t := Immediate(s0, s, k);
  }

  lemma StartNode(s0: System, s: System, k: nat) returns (t: System)
    requires Reached(s0, s) && s.host == Host(k, false, false) && (k == A_START || k == B_START)
    requires var n := At(s, Target(k)); Quiet(n) && n.state == Armed && n.run == s.run && n.task == NoTask
    ensures Reached(s0, t)
    ensures var n := At(s, Target(k));
            t == With(s, Target(k), n.(state := Running, settled := false, answers := n.answers[k := true],
                                       task := if Generates(n.role) then Looping else NoTask,
                                       sequences := if Generates(n.role) then Zeros(|n.sequences|) else n.sequences))
                 .(host := Host(k + 1, false, false))
  {
    t := Immediate(s0, s, k);
  }

  lemma StopNode(s0: System, s: System, k: nat) returns (t: System)
    requires Reached(s0, s) && s.host == Host(k, false, false) && (k == A_STOP || k == B_STOP)
    requires var n := At(s, Target(k));
             Quiet(n) && (n.state == Running || n.state == Finished) && n.run == s.run && n.task == NoTask
    ensures Reached(s0, t)
    ensures var n := At(s, Target(k));
            t == With(s, Target(k), n.(state := Finished, settled := true, answers := n.answers[k := true],
                                       due := |n.inbox|))
                 .(host := Host(k + 1, false, false))
  {
    t := Slow(s0, s, k, Drained(true));
  }

  lemma ResultOf(s0: System, s: System, k: nat) returns (t: System)
    requires Reached(s0, s) && s.host == Host(k, false, false) && (k == A_RESULT || k == B_RESULT)
    requires var n := At(s, Target(k)); Quiet(n) && n.state == Finished && n.run == s.run && n.task == NoTask
    ensures Reached(s0, t)
    ensures var n := At(s, Target(k));
            t == With(s, Target(k), n.(settled := true, answers := n.answers[k := true],
                                       report := Report(n.submitted, n.arrivals), due := |n.inbox|))
                 .(host := Host(k + 1, false, false))
  {
    t := Slow(s0, s, k, Drained(true));
  }

  lemma BothConfigured(initiator: bool) returns (s: System)
    ensures Reached(Begin(initiator), s) && s.host == Host(B_ARM, false, false)
    ensures s.run == 7 && s.initiator == initiator && s.air == {}
    ensures s.a == Booted(A).(state := Configured, run := 7, role := if initiator then PingInitiator else Generator,
                              answers := s.a.answers)
    ensures s.b == Booted(B).(state := Configured, run := 7, role := if initiator then EchoResponder else Sink,
                              answers := s.b.answers)
  {
    var s0 := Begin(initiator);
    assert Runs(s0, [], s0);
    assert Zeros(1) == [0];
    s := ConfigureNode(s0, s0, A_CONFIGURE);
    s := ConfigureNode(s0, s, B_CONFIGURE);
  }

  lemma Prepared(initiator: bool) returns (s: System)
    ensures Reached(Begin(initiator), s) && s.host == Host(A_STOP, false, false)
    ensures s.run == 7 && s.initiator == initiator && s.air == {}
    ensures s.a == Booted(A).(state := Running, run := 7, role := if initiator then PingInitiator else Generator,
                              answers := s.a.answers, settled := false, task := Looping)
    ensures s.b == Booted(B).(state := Running, run := 7, role := if initiator then EchoResponder else Sink,
                              answers := s.b.answers, settled := false)
  {
    var s0 := Begin(initiator);
    s := BothConfigured(initiator);
    assert Zeros(1) == [0];
    s := ArmNode(s0, s, B_ARM);
    s := ArmNode(s0, s, A_ARM);
    s := StartNode(s0, s, B_START);
    s := StartNode(s0, s, A_START);
  }

  lemma Heads(s0: System, s: System) returns (t: System)
    requires Reached(s0, s) && s.a.task == Looping && s.a.state == Running
    ensures Reached(s0, t) && t == s.(a := s.a.(task := Sending))
  {
    t := Moves(s0, s, A, LoopHead(true));
    assert t.air == s.air;
  }

  lemma Accepts(s0: System, s: System, kind: Kind) returns (t: System)
    requires Reached(s0, s) && s.a.task == Sending && kind != Echo
    requires |s.a.sequences| == 1 && s.a.sequences[0] < 2
    ensures Reached(s0, t)
    ensures t == s.(a := s.a.(task := Recording(0), sequences := [s.a.sequences[0] + 1]),
                    air := s.air + {Frame(s.a.side, s.a.run, kind, 0, s.a.sequences[0], 0)})
  {
    t := Moves(s0, s, A, Send(kind, 0, 0, true));
    assert t.a.sequences == [s.a.sequences[0] + 1];
  }

  lemma Records(s0: System, s: System) returns (t: System)
    requires Reached(s0, s) && s.a.task == Recording(0) && |s.a.submitted| == 1
    ensures Reached(s0, t)
    ensures t == s.(a := s.a.(task := Looping, submitted := [s.a.submitted[0] + 1]))
  {
    t := Moves(s0, s, A, Record);
    assert t.a.submitted == [s.a.submitted[0] + 1];
    assert t.air == s.air;
  }

  lemma SendsOne(s0: System, s: System, kind: Kind) returns (t: System)
    requires Reached(s0, s) && s.run == 7 && kind != Echo
    requires s.a.state == Running && s.a.task == Looping && |s.a.sequences| == |s.a.submitted| == 1
    requires s.a.sequences == s.a.submitted && s.a.sequences[0] < 2
    ensures Reached(s0, t)
    ensures t == s.(a := s.a.(sequences := [s.a.sequences[0] + 1], submitted := [s.a.sequences[0] + 1]),
                    air := s.air + {Frame(s.a.side, s.a.run, kind, 0, s.a.sequences[0], 0)})
  {
    t := Heads(s0, s);
    t := Accepts(s0, t, kind);
    t := Records(s0, t);
  }

  lemma GeneratorLeaves(s0: System, s: System) returns (t: System)
    requires Reached(s0, s) && s.a.state == Running && s.a.task == Looping
    ensures Reached(s0, t) && t == s.(a := s.a.(state := Finished, task := NoTask))
  {
    t := Moves(s0, s, A, LoopHead(false));
    t := Moves(s0, t, A, Leave);
    t := Moves(s0, t, A, WriteFinished);
    t := Moves(s0, t, A, Exit);
  }

  lemma Delivers(s0: System, s: System, f: Frame) returns (t: System)
    requires Reached(s0, s) && f in s.air && f.from == A && s.b.inbox == [] && s.b.due == 0 && Accepted(s.b, f)
    ensures Reached(s0, t)
    ensures t == s.(b := s.b.(arrivals := s.b.arrivals + [Arrival(f.stream, f.sequence)]))
  {
    t := Go(s0, s, Deliver(B, f));
    assert t.b.inbox == [f];
    t := Moves(s0, t, B, Receive(false));
    assert t.b.inbox == [];
    assert t.air == s.air;
  }

  lemma BothReported(s0: System, s: System) returns (t: System)
    requires Reached(s0, s) && s.host == Host(A_STOP, false, false)
    requires Quiet(s.a) && s.a.state == Finished && s.a.run == s.run && s.a.task == NoTask
    requires Quiet(s.b) && s.b.state == Running && s.b.run == s.run && s.b.task == NoTask
    ensures Reached(s0, t) && Completed(t)
    ensures t.a.report == Report(s.a.submitted, s.a.arrivals) && t.b.report == Report(s.b.submitted, s.b.arrivals)
  {
    t := StopNode(s0, s, A_STOP);
    t := StopNode(s0, t, B_STOP);
    t := ResultOf(s0, t, A_RESULT);
    t := ResultOf(s0, t, B_RESULT);
  }

  lemma SentFirst(initiator: bool) returns (s: System)
    ensures Reached(Begin(initiator), s) && s.host == Host(A_STOP, false, false)
    ensures s.run == 7 && s.initiator == initiator
    ensures s.air == {Frame(A, 7, if initiator then Ping else Stream, 0, 0, 0)}
    ensures s.a == Booted(A).(state := Running, run := 7, role := if initiator then PingInitiator else Generator,
                              sequences := [1], submitted := [1],
                              answers := s.a.answers, settled := false, task := Looping)
    ensures s.b == Booted(B).(state := Running, run := 7, role := if initiator then EchoResponder else Sink,
                              answers := s.b.answers, settled := false)
  {
    var r := Prepared(initiator);
    var a := r.a;
    assert a.sequences == a.submitted == [0] && a.run == 7 && a.side == A;
    s := SendsOne(Begin(initiator), r, if initiator then Ping else Stream);
    assert s.a == a.(sequences := [1], submitted := [1]);
  }

  lemma SentTwo() returns (s: System)
    ensures Reached(Begin(false), s) && s.host == Host(A_STOP, false, false) && s.run == 7 && !s.initiator
    ensures s.air == {Frame(A, 7, Stream, 0, 0, 0), Frame(A, 7, Stream, 0, 1, 0)}
    ensures s.a == Booted(A).(state := Running, run := 7, role := Generator, sequences := [2], submitted := [2],
                              answers := s.a.answers, settled := false, task := Looping)
    ensures s.b == Booted(B).(state := Running, run := 7, role := Sink, answers := s.b.answers, settled := false)
  {
    s := SentFirst(false);
    s := SendsOne(Begin(false), s, Stream);
  }

  lemma Transferred() returns (s: System)
    ensures Reached(Begin(false), s) && s.host == Host(A_STOP, false, false) && s.run == 7 && !s.initiator
    ensures s.a == Booted(A).(state := Finished, run := 7, role := Generator, sequences := [2], submitted := [2],
                              answers := s.a.answers, settled := false)
    ensures s.b == Booted(B).(state := Running, run := 7, role := Sink, arrivals := [Arrival(0, 1)],
                              answers := s.b.answers, settled := false)
  {
    s := SentTwo();
    s := Delivers(Begin(false), s, Frame(A, 7, Stream, 0, 1, 0));
    s := GeneratorLeaves(Begin(false), s);
  }

  lemma Collected() returns (s: System)
    ensures Reached(Begin(false), s) && Completed(s)
    ensures s.a.report == Report([2], []) && s.b.report == Report([0], [Arrival(0, 1)])
  {
    s := Transferred();
    s := BothReported(Begin(false), s);
  }

  /** The run exists, so the claims about completed runs speak of something: A submits two frames, the
      first is lost, and the host reports a loss of one. */
  lemma CompletedRunExists() returns (steps: seq<Step>, s: System)
    ensures Initial(Begin(false)) && Runs(Begin(false), steps, s) && Completed(s)
    ensures s.a.report.Report? && s.b.report.Report?
    ensures HostLoss(s.a.report.submitted, s.b.report.arrivals) == 1
  {
    s := Collected();
    steps :| Runs(Begin(false), steps, s);
    OneOfTwo();
  }

  lemma OneOfTwo()
    ensures HostLoss([2], [Arrival(0, 1)]) == 1
  {
    var arrivals := [Arrival(0, 1)];
    OnStreamAppend([], Arrival(0, 1), 0);
    assert [] + [Arrival(0, 1)] == arrivals;
    assert OnStream(arrivals, 0) == [1];
    CountAppend([], 1, RecentRepeat);
    assert [] + [1] == [1];
    SumOne(SentOn([2]));
    SumOne(PerStream(arrivals, RecentRepeat));
  }

  // ----- a ping run -----

  lemma Echoes(s0: System, s: System, f: Frame) returns (t: System)
    requires Reached(s0, s) && f in s.air && f.from == A && f.kind == Ping && s.b.inbox == [] && s.b.due == 0
    requires Accepted(s.b, f) && s.b.role == EchoResponder && s.b.side == B
    ensures Reached(s0, t)
    ensures t == s.(b := s.b.(arrivals := s.b.arrivals + [Arrival(f.stream, f.sequence)]),
                    air := s.air + {f.(from := B, kind := Echo)})
  {
    t := Go(s0, s, Deliver(B, f));
    assert t.b.inbox == [f];
    t := Moves(s0, t, B, Receive(true));
    assert t.b.inbox == [];
  }

  lemma Echoed() returns (s: System)
    ensures Reached(Begin(true), s) && s.host == Host(A_STOP, false, false) && s.run == 7 && s.initiator
    ensures s.air == {Frame(A, 7, Ping, 0, 0, 0), Frame(B, 7, Echo, 0, 0, 0)}
    ensures s.a == Booted(A).(state := Running, run := 7, role := PingInitiator, sequences := [1], submitted := [1],
                              answers := s.a.answers, settled := false, task := Looping)
    ensures s.b == Booted(B).(state := Running, run := 7, role := EchoResponder, arrivals := [Arrival(0, 0)],
                              answers := s.b.answers, settled := false)
  {
    s := SentFirst(true);
    s := Echoes(Begin(true), s, Frame(A, 7, Ping, 0, 0, 0));
  }

  lemma Pinged() returns (s: System)
    ensures Reached(Begin(true), s) && s.host == Host(A_STOP, false, false) && s.run == 7
    ensures s.a == Booted(A).(state := Running, run := 7, role := PingInitiator, sequences := [1], submitted := [1],
                              inbox := [Frame(B, 7, Echo, 0, 0, 0)],
                              answers := s.a.answers, settled := false, task := Looping)
    ensures s.b == Booted(B).(state := Running, run := 7, role := EchoResponder, arrivals := [Arrival(0, 0)],
                              answers := s.b.answers, settled := false)
  {
    s := Echoed();
    var f := Frame(B, 7, Echo, 0, 0, 0);
    s := Go(Begin(true), s, Deliver(A, f));
    assert s.a.inbox == [f];
  }

  lemma TakesEcho(s0: System, s: System, f: Frame) returns (t: System)
    requires Reached(s0, s) && s.a.inbox == [f] && f.kind == Echo && s.a.due == 0 && Accepted(s.a, f)
    ensures Reached(s0, t)
    ensures t == s.(a := s.a.(inbox := [], arrivals := s.a.arrivals + [Arrival(f.stream, f.sequence)]))
  {
    t := Moves(s0, s, A, Receive(false));
    assert t.a.inbox == [];
    assert t.air == s.air;
  }

  lemma Ponged(s: System) returns (t: System)
    requires s.host == Host(A_STOP, false, false) && s.run == 7
    requires s.a == Booted(A).(state := Running, run := 7, role := PingInitiator, sequences := [1], submitted := [1],
                               inbox := [Frame(B, 7, Echo, 0, 0, 0)],
                               answers := s.a.answers, settled := false, task := Looping)
    ensures Reached(s, t) && t.host == Host(A_STOP, false, false) && t.run == 7 && t.b == s.b
    ensures t.a == Booted(A).(state := Finished, run := 7, role := PingInitiator, sequences := [1], submitted := [1],
                              arrivals := [Arrival(0, 0)], answers := s.a.answers, settled := false)
  {
    assert Runs(s, [], s);
    t := TakesEcho(s, s, s.a.inbox[0]);
    t := GeneratorLeaves(s, t);
  }

  lemma Answered(s: System) returns (t: System)
    requires s.host == Host(A_STOP, false, false) && s.run == 7
    requires s.a == Booted(A).(state := Running, run := 7, role := PingInitiator, sequences := [1], submitted := [1],
                               inbox := [Frame(B, 7, Echo, 0, 0, 0)],
                               answers := s.a.answers, settled := false, task := Looping)
    requires s.b == Booted(B).(state := Running, run := 7, role := EchoResponder, arrivals := [Arrival(0, 0)],
                               answers := s.b.answers, settled := false)
    ensures Reached(s, t) && Completed(t)
    ensures t.a.report == Report([1], [Arrival(0, 0)]) && t.b.report == Report([0], [Arrival(0, 0)])
  {
    t := Ponged(s);
    t := BothReported(s, t);
  }

  /** A ping run that completes: B, configured to echo, answers A's ping, the echo of the run comes to A's inbox,
      and each node reports the one frame of the other. */
  lemma PingRunExists() returns (before: seq<Step>, s: System, after: seq<Step>, t: System)
    ensures Initial(Begin(true)) && Begin(true).initiator
    ensures Runs(Begin(true), before, s) && Runs(s, after, t) && Completed(t)
    ensures Frame(B, 7, Echo, 0, 0, 0) in s.a.inbox && s.run == 7 && s.b.role == EchoResponder
    ensures t.a.report == Report([1], [Arrival(0, 0)]) && t.b.report == Report([0], [Arrival(0, 0)])
  {
    s := Pinged();
    before :| Runs(Begin(true), before, s);
    t := Answered(s);
    after :| Runs(s, after, t);
  }
}
