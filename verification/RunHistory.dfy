/** What stays put over a benchmark run: B's arrivals from A's start to B's report, and the pings that the
    echoes of the run answer. */
module RunHistory {
  import opened Loss
  import opened NodeControl
  import opened RunSafety
  import opened TwoNodeRun

  // ----- B's arrivals only grow -----

  /** The arrivals seen first are still counted, and were counted in any report. */
  ghost predicate Keeps(first: seq<Arrival>, b: Node) {
    && AnsweredOk(b, B_ARM)
    && first <= b.arrivals
    && (b.report.Report? ==> first <= b.report.arrivals <= b.arrivals)
  }

  lemma KeepsDispatch(s: System, first: seq<Arrival>, valid: bool, created: bool)
    requires RunInvariant(s) && Keeps(first, s.b) && May(s.b, Execute(valid, created))
    ensures Keeps(first, Do(s.b, Execute(valid, created)))
  {
    var r := s.b.requests[0];
    var n := s.b.(requests := s.b.requests[1..]);
    DispatchAnswers(n, r.id, r.command, valid, created);
    DispatchArrivals(n, r.id, r.command, valid, created);
    assert r.command == CommandOf(s.initiator, s.run, r.id) && Target(r.id) == B && r.id != B_ARM;
  }

  lemma KeepsMove(s: System, first: seq<Arrival>, m: Move)
    requires RunInvariant(s) && Keeps(first, s.b) && May(s.b, m)
    ensures Keeps(first, Do(s.b, m))
  {
    match m
    case Execute(valid, created) => KeepsDispatch(s, first, valid, created);
    case RadioConfigured(_) => EarlierOk(s, B_ARM, B_CONFIGURE);
    case Drained(_) =>
    case _ => TaskMoveKeeps(s.b, m);
  }

  lemma KeepsStep(s: System, first: seq<Arrival>, t: Step)
    requires RunInvariant(s) && Keeps(first, s.b) && Can(s, t)
    ensures Keeps(first, Next(s, t).b)
  {
    if t.NodeMoves? && t.x == B {
      KeepsMove(s, first, t.m);
      assert Next(s, t).b == Do(s.b, t.m);
    } else {
      var u := Next(s, t);
      assert u.b.arrivals == s.b.arrivals && u.b.report == s.b.report && u.b.answers == s.b.answers;
    }
  }

  lemma {:induction false} KeepsOnRun(s: System, first: seq<Arrival>, steps: seq<Step>, t: System)
    requires RunInvariant(s) && Keeps(first, s.b) && Runs(s, steps, t)
    ensures Keeps(first, t.b)
    decreases |steps|
  {
    if steps != [] {
      KeepsStep(s, first, steps[0]);
      RunStep(s, steps[0]);
      KeepsOnRun(Next(s, steps[0]), first, steps[1..], t);
    }
  }

  /** From the moment the host asks A to start, nothing clears what B has counted: its arrivals only grow, and
      its report holds everything counted until then. */
  lemma ArrivalsOnlyGrow(begin: System, before: seq<Step>, s: System, after: seq<Step>, t: System)
    requires Initial(begin) && Runs(begin, before, s) && Runs(s, after, t)
    requires Issued(s.host, A_START) && s.b.report == NoReport
    ensures s.b.arrivals <= t.b.arrivals
    ensures t.b.report.Report? ==> s.b.arrivals <= t.b.report.arrivals <= t.b.arrivals
  {
    BeginsInvariant(begin);
    RunKeepsInvariant(begin, before, s);
    EarlierOk(s, A_START, B_ARM);
    KeepsOnRun(s, s.b.arrivals, after, t);
  }

  // ----- echoes answer pings -----

  /** The ping an echo answers: same run, stream, sequence number and timestamp. */
  function PingOf(echo: Frame): Frame {
    echo.(from := A, kind := Ping)
  }

  ghost predicate EchoesAnswer(s: System) {
    && (forall f | f in s.air && f.run == s.run && f.kind == Echo :: PingOf(f) in s.air)
    && (forall f | (f in s.a.inbox || f in s.b.inbox) && f.run == s.run :: f in s.air)
  }

  lemma EmittedEchoAnswers(s: System, x: Side, m: Move, f: Frame)
    requires RunInvariant(s) && EchoesAnswer(s) && May(At(s, x), m)
    requires f in Emits(At(s, x), m) && f.run == s.run && f.kind == Echo
    ensures PingOf(f) in s.air
  {
    if x == A {
      GeneratorEmits(s, m);
      assert false;
    } else {
      var heard := s.b.inbox[0];
      assert heard in s.b.inbox;
      assert PingOf(f) == heard;
    }
  }

  lemma EchoesAnswerStep(s: System, t: Step)
    requires RunInvariant(s) && EchoesAnswer(s) && Can(s, t)
    ensures EchoesAnswer(Next(s, t))
  {
    var u := Next(s, t);
    if t.NodeMoves? {
      forall f | f in Emits(At(s, t.x), t.m) && f.run == s.run && f.kind == Echo
        ensures PingOf(f) in s.air
      {
        EmittedEchoAnswers(s, t.x, t.m, f);
      }
      InboxShrinks(At(s, t.x), t.m);
      assert u.air == s.air + Emits(At(s, t.x), t.m) && u.run == s.run;
    } else {
      assert u.air == s.air && u.run == s.run;
    }
  }

  lemma {:induction false} EchoesAnswerRun(s: System, steps: seq<Step>, t: System)
    requires RunInvariant(s) && EchoesAnswer(s) && Runs(s, steps, t)
    ensures RunInvariant(t) && EchoesAnswer(t)
    decreases |steps|
  {
    if steps != [] {
      EchoesAnswerStep(s, steps[0]);
      RunStep(s, steps[0]);
      EchoesAnswerRun(Next(s, steps[0]), steps[1..], t);
    }
  }

  /** On every run, every echo of the run that reaches A answers a ping that A itself put on the air in this
      run, with the stream, sequence number and timestamp A wrote. */
  lemma EveryEchoAnswersAPing(s: System, steps: seq<Step>, t: System, echo: Frame)
    requires Initial(s) && Runs(s, steps, t)
    requires (echo in t.air || echo in t.a.inbox) && echo.run == t.run && echo.kind == Echo
    ensures PingOf(echo) in t.air && echo.from == B
    ensures echo.stream < |t.a.sequences| && echo.sequence < t.a.sequences[echo.stream]
  {
    BeginsInvariant(s);
    EchoesAnswerRun(s, steps, t);
    assert echo in t.air;
    assert Owned(t.a, t.run, echo) && Owned(t.a, t.run, PingOf(echo));
  }

  // ----- a result holds what was queued when it was asked for -----

  /** The arrivals these frames make at a node measuring this run. */
  function Counted(frames: seq<Frame>, run: nat): seq<Arrival> {
    if frames == [] then []
    else
      var last := frames[|frames| - 1];
      Counted(frames[..|frames| - 1], run) + CountedOne(last, run)
  }

  /** The queue found when the result began is worked off in order, and its arrivals counted first. */
  ghost predicate WorkingOff(queue: seq<Frame>, first: seq<Arrival>, n: Node) {
    && n.control.Reporting? && n.state == Finished
    && n.due <= |n.inbox| && n.due <= |queue|
    && n.inbox[..n.due] == queue[|queue| - n.due..]
    && (if n.due > 0 then n.arrivals == first + Counted(queue[..|queue| - n.due], n.run)
        else first + Counted(queue, n.run) <= n.arrivals)
  }

  function CountedOne(f: Frame, run: nat): seq<Arrival> {
    if f.run == run then [Arrival(f.stream, f.sequence)] else []
  }

  lemma NextOfQueue(queue: seq<Frame>, first: seq<Arrival>, k: nat, run: nat)
    requires k < |queue|
    ensures first + Counted(queue[..k + 1], run) == first + Counted(queue[..k], run) + CountedOne(queue[k], run)
  {
    assert queue[..k + 1][..k] == queue[..k];
    assert Counted(queue[..k + 1], run) == Counted(queue[..k], run) + CountedOne(queue[k], run);
  }

  lemma ReceivesOne(n: Node, echoed: bool)
    requires May(n, Receive(echoed)) && n.state == Finished && n.due > 0
    ensures var t := Do(n, Receive(echoed));
      && t.control == n.control && t.state == n.state && t.run == n.run && t.due == n.due - 1
      && t.inbox == n.inbox[1..] && t.arrivals == n.arrivals + CountedOne(n.inbox[0], n.run)
  {}

  lemma SameHead(queue: seq<Frame>, inbox: seq<Frame>, due: nat)
    requires 0 < due <= |inbox| && due <= |queue| && inbox[..due] == queue[|queue| - due..]
    ensures inbox[0] == queue[|queue| - due]
    ensures inbox[1..][..due - 1] == queue[|queue| - due + 1..]
  {
    assert inbox[..due][0] == inbox[0];
    assert inbox[1..][..due - 1] == inbox[..due][1..];
    assert queue[|queue| - due + 1..] == queue[|queue| - due..][1..];
  }

  lemma ReceivesDue(queue: seq<Frame>, first: seq<Arrival>, n: Node, echoed: bool)
    requires WorkingOff(queue, first, n) && May(n, Receive(echoed)) && n.due > 0
    ensures WorkingOff(queue, first, Do(n, Receive(echoed)))
  {
    var t := Do(n, Receive(echoed));
    var k := |queue| - n.due;
    ReceivesOne(n, echoed);
    SameHead(queue, n.inbox, n.due);
    NextOfQueue(queue, first, k, n.run);
    if t.due == 0 {
      assert queue[..k + 1] == queue;
    }
  }

  lemma WorksOff(queue: seq<Frame>, first: seq<Arrival>, n: Node, h: Happening)
    requires WorkingOff(queue, first, n) && Possible(n, h) && !(h.Acts? && h.m.Drained?)
    ensures WorkingOff(queue, first, After(n, h)) && After(n, h).run == n.run
  {
    match h
    case Heard(f) => assert After(n, h).inbox[..n.due] == n.inbox[..n.due];
    case Requested(_) =>
    case Acts(m) =>
      if m.Receive? && n.due > 0 {
        ReceivesDue(queue, first, n, m.echoed);
      }
  }

  predicate NotAnswered(hs: seq<Happening>) {
    forall i | 0 <= i < |hs| :: !(hs[i].Acts? && hs[i].m.Drained?)
  }

  lemma {:induction false} KeepsWorkingOff(queue: seq<Frame>, first: seq<Arrival>, n: Node, hs: seq<Happening>, t: Node)
    requires WorkingOff(queue, first, n) && Lives(AnyHost, n, hs, t) && NotAnswered(hs)
    ensures WorkingOff(queue, first, t) && t.run == n.run
    decreases |hs|
  {
    if hs != [] {
      WorksOff(queue, first, n, hs[0]);
      KeepsWorkingOff(queue, first, After(n, hs[0]), hs[1..], t);
    }
  }

  /** A result answered once everything queued when it began is processed, as the drain fence has it, reports
      what was counted by then followed by every queued frame of the run, in order. */
  lemma ReportHoldsTheQueue(n: Node, id: nat, run: nat, hs: seq<Happening>, t: Node)
    requires n.control == Ready && n.state == Finished && !Mismatch(n, run)
    requires Lives(AnyHost, Dispatch(n, id, Result(run), true, true), hs, t) && NotAnswered(hs)
    requires May(t, Drained(true)) && t.due == 0
    ensures Do(t, Drained(true)).report.Report?
    ensures n.arrivals + Counted(n.inbox, n.run) <= Do(t, Drained(true)).report.arrivals
  {
    var u := Dispatch(n, id, Result(run), true, true);
    assert u.inbox == n.inbox && u.due == |n.inbox| && u.arrivals == n.arrivals && u.run == n.run;
    assert n.inbox[|n.inbox| - u.due..] == n.inbox;
    assert n.arrivals + Counted([], n.run) == n.arrivals;
    KeepsWorkingOff(n.inbox, n.arrivals, u, hs, t);
  }
}
