/** What holds in every prefix of a benchmark run, whichever requests fail and however the two
    nodes, the host and the network interleave; and what the reported loss then means. */
module RunSafety {
  import opened Arithmetic
  import opened SequenceWindow
  import opened Loss
  import opened NodeControl
  import opened TwoNodeRun

  // ----- requests and answers -----

  ghost predicate ProgramInStep(s: System) {
    && HostInStep(s)
    && RequestsInStep(s.host, s.initiator, s.run, A, s.a)
    && RequestsInStep(s.host, s.initiator, s.run, B, s.b)
  }

  lemma MovesInStep(s: System, x: Side, m: Move)
    requires ProgramInStep(s) && May(At(s, x), m)
    ensures ProgramInStep(Next(s, NodeMoves(x, m)))
    ensures forall k: nat | AnsweredOk(At(s, x), k) :: AnsweredOk(Do(At(s, x), m), k)
  {
    MoveInStep(s.host, s.initiator, s.run, x, At(s, x), m);
  }

  lemma SendsInStep(s: System)
    requires ProgramInStep(s) && Can(s, HostSends)
    ensures ProgramInStep(Next(s, HostSends))
  {
    var x := Target(s.host.next);
    OneMoreRequest(s.host, s.initiator, s.run, x, At(s, x));
    if x == A {
      IssuedMore(s.host, s.host.(sent := true), s.initiator, s.run, B, s.b);
    } else {
      IssuedMore(s.host, s.host.(sent := true), s.initiator, s.run, A, s.a);
    }
    var u := Next(s, HostSends);
    assert u.a.answers == s.a.answers && u.b.answers == s.b.answers;
  }

  lemma HostMovesInStep(s: System, t: Step)
    requires ProgramInStep(s) && Can(s, t) && (t.HostHears? || t.HostTimesOut?)
    ensures ProgramInStep(Next(s, t))
  {
    var u := Next(s, t);
    assert u.a == s.a && u.b == s.b;
    IssuedMore(s.host, u.host, s.initiator, s.run, A, s.a);
    IssuedMore(s.host, u.host, s.initiator, s.run, B, s.b);
  }

  lemma DeliveryInStep(s: System, x: Side, f: Frame)
    requires ProgramInStep(s) && Can(s, Deliver(x, f))
    ensures ProgramInStep(Next(s, Deliver(x, f)))
  {
    var u := Next(s, Deliver(x, f));
    assert u.host == s.host;
    assert u.a.answers == s.a.answers && u.a.requests == s.a.requests && u.a.control == s.a.control;
    assert u.b.answers == s.b.answers && u.b.requests == s.b.requests && u.b.control == s.b.control;
  }

  lemma StaysInStep(s: System, t: Step)
    requires ProgramInStep(s) && Can(s, t)
    ensures ProgramInStep(Next(s, t))
  {
    match t
    case NodeMoves(x, m) => MovesInStep(s, x, m);
    case Deliver(x, f) => DeliveryInStep(s, x, f);
    case HostSends => SendsInStep(s);
    case HostHears => HostMovesInStep(s, t);
    case HostTimesOut => HostMovesInStep(s, t);
  }

  /** A request is issued only after every earlier one, stops excepted, was answered ok. */
  lemma EarlierOk(s: System, k: nat, j: nat)
    requires ProgramInStep(s) && Issued(s.host, k) && j < k && !MayFail(j)
    ensures AnsweredOk(At(s, Target(j)), j)
  {}

  // ----- node B -----

  /** What B's ok answers guarantee from then on. */
  ghost predicate ReceiverReady(n: Node, run: nat) {
    && n.task == NoTask
    && (AnsweredOk(n, B_CONFIGURE) || n.control.Configuring? ==> n.run == run && !Generates(n.role))
    && (AnsweredOk(n, B_CONFIGURE) ==> !n.control.Configuring? && (n.state == Configured || Measuring(n.state)))
    && (AnsweredOk(n, B_ARM) ==> Measuring(n.state))
    && (AnsweredOk(n, B_RESULT) ==> n.report.Report?)
  }

  lemma ReceiverConfigures(n: Node, run: nat, role: Role, valid: bool, created: bool)
    requires ReceiverReady(n, run) && n.control == Ready && !Generates(role)
    requires B_CONFIGURE !in n.answers && !AnsweredOk(n, B_ARM)
    ensures ReceiverReady(Dispatch(n, B_CONFIGURE, Configure(role, run), valid, created), run)
  {}

  lemma ReceiverArms(n: Node, run: nat, valid: bool, created: bool)
    requires ReceiverReady(n, run) && n.control == Ready && AnsweredOk(n, B_CONFIGURE) && B_ARM !in n.answers
    ensures ReceiverReady(Dispatch(n, B_ARM, Arm(run), valid, created), run)
  {}

  lemma ReceiverCarriesOn(n: Node, run: nat, k: nat, c: Command, valid: bool, created: bool)
    requires ReceiverReady(n, run) && n.control == Ready && AnsweredOk(n, B_CONFIGURE) && AnsweredOk(n, B_ARM)
    requires k !in n.answers
    requires (k == B_START && c == Start(run)) || (k == B_STOP && c == Stop(run)) || (k == B_RESULT && c == Result(run))
    ensures ReceiverReady(Dispatch(n, k, c, valid, created), run)
  {}

  lemma ReceiverExecutes(s: System, valid: bool, created: bool)
    requires ProgramInStep(s) && ReceiverReady(s.b, s.run) && May(s.b, Execute(valid, created))
    ensures ReceiverReady(Do(s.b, Execute(valid, created)), s.run)
  {
    var r := s.b.requests[0];
    var k := r.id;
    assert Target(k) == B && k !in s.b.answers && Issued(s.host, k);
    var rest := s.b.(requests := s.b.requests[1..]);
    assert ReceiverReady(rest, s.run);
    if B_ARM in s.b.answers {
      EarlierOk(s, B_ARM, B_CONFIGURE);
    }
    if k == B_CONFIGURE {
      ReceiverConfigures(rest, s.run, r.command.role, valid, created);
    } else if k == B_ARM {
      EarlierOk(s, k, B_CONFIGURE);
      ReceiverArms(rest, s.run, valid, created);
    } else {
      EarlierOk(s, k, B_CONFIGURE);
      EarlierOk(s, k, B_ARM);
      ReceiverCarriesOn(rest, s.run, k, r.command, valid, created);
    }
  }

  lemma ReceiverAnswers(s: System, m: Move)
    requires ProgramInStep(s) && ReceiverReady(s.b, s.run) && May(s.b, m) && (m.RadioConfigured? || m.Drained?)
    ensures ReceiverReady(Do(s.b, m), s.run)
  {
    var k := s.b.control.id;
    if B_ARM in s.b.answers {
      EarlierOk(s, B_ARM, B_CONFIGURE);
    }
    if k > B_ARM {
      EarlierOk(s, k, B_CONFIGURE);
      EarlierOk(s, k, B_ARM);
    }
  }

  lemma ReceiverStaysReady(s: System, m: Move)
    requires ProgramInStep(s) && ReceiverReady(s.b, s.run) && May(s.b, m)
    ensures ReceiverReady(Do(s.b, m), s.run)
  {
    match m
    case Execute(valid, created) => ReceiverExecutes(s, valid, created);
    case RadioConfigured(_) => ReceiverAnswers(s, m);
    case Drained(_) => ReceiverAnswers(s, m);
    case _ =>
      TaskMoveKeeps(s.b, m);
  }

  // ----- node A -----

  /** The generator's sequence numbers are its submitted counts, but for a frame not yet recorded. */
  ghost predicate Contiguous(n: Node) {
    && |n.sequences| == |n.submitted|
    && (forall k | 0 <= k < |n.sequences| ::
          n.sequences[k] == n.submitted[k] + (if n.task == Recording(k) then 1 else 0))
  }

  /** What A's ok answers guarantee from then on. */
  ghost predicate GeneratorReady(n: Node, run: nat) {
    && |n.sequences| == |n.submitted|
    && (AnsweredOk(n, A_CONFIGURE) || n.control.Configuring? ==> n.run == run && Generates(n.role))
    && (AnsweredOk(n, A_CONFIGURE) ==> !n.control.Configuring?)
    && (AnsweredOk(n, A_ARM) && !AnsweredOk(n, A_START) ==> n.submitted == Zeros(|n.submitted|))
    && (AnsweredOk(n, A_START) ==> (n.state == Running || n.state == Finished) && Contiguous(n))
    && (n.task != NoTask ==> AnsweredOk(n, A_START))
    && (n.report.Report? ==> AnsweredOk(n, A_START) && n.task == NoTask && n.report.submitted == n.sequences)
    && (AnsweredOk(n, A_RESULT) ==> n.report.Report?)
  }

  lemma GeneratorConfigures(n: Node, run: nat, role: Role, valid: bool, created: bool)
    requires GeneratorReady(n, run) && n.control == Ready && Generates(role)
    requires A_CONFIGURE !in n.answers && !AnsweredOk(n, A_ARM) && !AnsweredOk(n, A_START)
    ensures GeneratorReady(Dispatch(n, A_CONFIGURE, Configure(role, run), valid, created), run)
  {}

  lemma GeneratorArms(n: Node, run: nat, valid: bool, created: bool)
    requires GeneratorReady(n, run) && n.control == Ready && AnsweredOk(n, A_CONFIGURE)
    requires A_ARM !in n.answers && !AnsweredOk(n, A_START)
    ensures GeneratorReady(Dispatch(n, A_ARM, Arm(run), valid, created), run)
  {}

  lemma GeneratorStarts(n: Node, run: nat, valid: bool, created: bool)
    requires GeneratorReady(n, run) && n.control == Ready && AnsweredOk(n, A_CONFIGURE) && AnsweredOk(n, A_ARM)
    requires A_START !in n.answers
    ensures GeneratorReady(Dispatch(n, A_START, Start(run), valid, created), run)
  {}

  lemma GeneratorCarriesOn(n: Node, run: nat, k: nat, c: Command, valid: bool, created: bool)
    requires GeneratorReady(n, run) && n.control == Ready
    requires AnsweredOk(n, A_CONFIGURE) && AnsweredOk(n, A_ARM) && AnsweredOk(n, A_START)
    requires k !in n.answers && ((k == A_STOP && c == Stop(run)) || (k == A_RESULT && c == Result(run)))
    ensures GeneratorReady(Dispatch(n, k, c, valid, created), run)
  {}

  lemma GeneratorExecutes(s: System, valid: bool, created: bool)
    requires ProgramInStep(s) && GeneratorReady(s.a, s.run) && May(s.a, Execute(valid, created))
    ensures GeneratorReady(Do(s.a, Execute(valid, created)), s.run)
  {
    var r := s.a.requests[0];
    var k := r.id;
    assert Target(k) == A && k !in s.a.answers && Issued(s.host, k);
    var rest := s.a.(requests := s.a.requests[1..]);
    assert GeneratorReady(rest, s.run);
    if k == A_CONFIGURE {
      NotYet(s, A_CONFIGURE, A_ARM);
      NotYet(s, A_CONFIGURE, A_START);
      GeneratorConfigures(rest, s.run, r.command.role, valid, created);
    } else if k == A_ARM {
      EarlierOk(s, k, A_CONFIGURE);
      NotYet(s, A_ARM, A_START);
      GeneratorArms(rest, s.run, valid, created);
    } else if k == A_START {
      EarlierOk(s, k, A_CONFIGURE);
      EarlierOk(s, k, A_ARM);
      GeneratorStarts(rest, s.run, valid, created);
    } else {
      EarlierOk(s, k, A_CONFIGURE);
      EarlierOk(s, k, A_ARM);
      EarlierOk(s, k, A_START);
      GeneratorCarriesOn(rest, s.run, k, r.command, valid, created);
    }
  }

  /** Nothing later than an unanswered request of node A was answered. */
  lemma NotYet(s: System, j: nat, k: nat)
    requires ProgramInStep(s) && j < k && !MayFail(j) && Target(j) == A && j !in s.a.answers
    ensures k !in s.a.answers
  {
    if k in s.a.answers {
      EarlierOk(s, k, j);
    }
  }

  lemma ConfiguredGenerator(n: Node, run: nat, ok: bool)
    requires GeneratorReady(n, run) && n.control == Configuring(A_CONFIGURE)
    requires A_CONFIGURE !in n.answers && !AnsweredOk(n, A_ARM) && !AnsweredOk(n, A_START)
    ensures GeneratorReady(Do(n, RadioConfigured(ok)), run)
  {}

  lemma DrainedGenerator(n: Node, run: nat, ok: bool)
    requires GeneratorReady(n, run) && May(n, Drained(ok)) && n.control.id > A_START
    requires AnsweredOk(n, A_CONFIGURE) && AnsweredOk(n, A_ARM) && AnsweredOk(n, A_START)
    requires n.control.Reporting? ==> n.control.id == A_RESULT
    requires n.control.Stopping? ==> n.control.id == A_STOP
    ensures GeneratorReady(Do(n, Drained(ok)), run)
  {}

  lemma GeneratorAnswers(s: System, m: Move)
    requires ProgramInStep(s) && GeneratorReady(s.a, s.run) && May(s.a, m) && (m.RadioConfigured? || m.Drained?)
    ensures GeneratorReady(Do(s.a, m), s.run)
  {
    var k := s.a.control.id;
    if m.RadioConfigured? {
      NotYet(s, A_CONFIGURE, A_ARM);
      NotYet(s, A_CONFIGURE, A_START);
      ConfiguredGenerator(s.a, s.run, m.ok);
    } else {
      EarlierOk(s, k, A_CONFIGURE);
      EarlierOk(s, k, A_ARM);
      EarlierOk(s, k, A_START);
      DrainedGenerator(s.a, s.run, m.ok);
    }
  }

  lemma GeneratorWorks(n: Node, run: nat, m: Move)
    requires GeneratorReady(n, run) && May(n, m) && TaskMove(m)
    ensures GeneratorReady(Do(n, m), run)
  {
    TaskMoveKeeps(n, m);
  }

  // ----- frames of the run -----

  /** A frame of this run exists only once A's start was answered ok; A's own frames carry sequence
      numbers A has used. */
  ghost predicate Owned(a: Node, run: nat, f: Frame) {
    f.run == run ==>
      && AnsweredOk(a, A_START)
      && (f.from == A ==> f.kind != Echo && f.stream < |a.sequences| && f.sequence < a.sequences[f.stream])
  }

  ghost predicate FramesOwned(s: System) {
    && (forall f | f in s.air || f in s.a.inbox || f in s.b.inbox :: Owned(s.a, s.run, f))
    && (forall f | f in s.b.inbox && f.run == s.run :: f.from == A)
  }

  /** Arrivals of the run are submitted frames of A. */
  ghost predicate Attributed(a: Node, arrivals: seq<Arrival>) {
    (arrivals != [] ==> AnsweredOk(a, A_START)) && OnlySubmitted(a.sequences, arrivals)
  }

  ghost predicate ArrivalsAttributed(s: System) {
    && (AnsweredOk(s.b, B_ARM) ==> Attributed(s.a, s.b.arrivals))
    && (s.b.report.Report? ==> Attributed(s.a, s.b.report.arrivals))
  }

  ghost predicate NoneDiscarded(s: System) {
    (forall f | f in s.a.discarded || f in s.b.discarded :: f.run != s.run)
  }

  ghost predicate RunInvariant(s: System) {
    && s.run > 0
    && ProgramInStep(s)
    && ReceiverReady(s.b, s.run)
    && GeneratorReady(s.a, s.run)
    && FramesOwned(s)
    && ArrivalsAttributed(s)
    && NoneDiscarded(s)
  }

  /** Once its start was answered, A never restarts its numbering. */
  ghost predicate NumberingGrows(n: Node, t: Node) {
    && (AnsweredOk(n, A_START) ==>
          && AnsweredOk(t, A_START) && |t.sequences| == |n.sequences|
          && forall k | 0 <= k < |n.sequences| :: n.sequences[k] <= t.sequences[k])
  }

  lemma NumberingAfterDispatch(n: Node, id: nat, c: Command, valid: bool, created: bool)
    requires n.control == Ready && id !in n.answers && (AnsweredOk(n, A_START) ==> !c.Start?)
    ensures NumberingGrows(n, Dispatch(n, id, c, valid, created))
  {
    DispatchAnswers(n, id, c, valid, created);
  }

  lemma NumberingStep(s: System, m: Move)
    requires ProgramInStep(s) && May(s.a, m)
    ensures NumberingGrows(s.a, Do(s.a, m))
  {
    MovesInStep(s, A, m);
    if m.Execute? {
      var r := s.a.requests[0];
      assert r.command == CommandOf(s.initiator, s.run, r.id) && Target(r.id) == A;
      NumberingAfterDispatch(s.a.(requests := s.a.requests[1..]), r.id, r.command, m.valid, m.created);
    }
  }

  lemma StillOwned(n: Node, t: Node, run: nat)
    requires NumberingGrows(n, t)
    ensures forall f | Owned(n, run, f) :: Owned(t, run, f)
    ensures forall arrivals | Attributed(n, arrivals) && (arrivals == [] || AnsweredOk(n, A_START)) ::
              Attributed(t, arrivals)
  {}

  lemma RunConfigured(s: System)
    requires RunInvariant(s) && AnsweredOk(s.a, A_START)
    ensures s.a.run == s.run && Generates(s.a.role) && Measuring(s.a.state)
    ensures s.b.run == s.run && Measuring(s.b.state) && AnsweredOk(s.b, B_ARM)
  {
    EarlierOk(s, A_START, A_CONFIGURE);
    EarlierOk(s, A_START, B_CONFIGURE);
    EarlierOk(s, A_START, B_ARM);
  }

  lemma GeneratorEmits(s: System, m: Move)
    requires RunInvariant(s) && May(s.a, m)
    ensures forall f | f in Emits(s.a, m) :: Owned(Do(s.a, m), s.run, f)
  {
    if AnsweredOk(s.a, A_START) {
      RunConfigured(s);
      NumberingStep(s, m);
    }
    if m.Receive? {
      assert s.a.inbox[0] in s.a.inbox;
    }
  }

  lemma GeneratorDiscards(s: System, m: Move)
    requires RunInvariant(s) && May(s.a, m)
    ensures forall f | f in Do(s.a, m).discarded :: f.run != s.run
  {
    if m.Receive? {
      assert s.a.inbox[0] in s.a.inbox;
      if AnsweredOk(s.a, A_START) {
        RunConfigured(s);
      }
    }
  }

  lemma InboxShrinks(n: Node, m: Move)
    requires May(n, m)
    ensures forall f | f in Do(n, m).inbox :: f in n.inbox
  {}

  lemma GeneratorMoves(s: System, m: Move)
    requires RunInvariant(s) && May(s.a, m)
    ensures RunInvariant(Next(s, NodeMoves(A, m)))
  {
    var t := Do(s.a, m);
    var u := Next(s, NodeMoves(A, m));
    assert u.a == t && u.b == s.b && u.host == s.host && u.air == s.air + Emits(s.a, m);
    MovesInStep(s, A, m);
    NumberingStep(s, m);
    StillOwned(s.a, t, s.run);
    GeneratorEmits(s, m);
    GeneratorDiscards(s, m);
    InboxShrinks(s.a, m);
    GeneratorStaysReady(s, m);
  }

  lemma GeneratorStaysReady(s: System, m: Move)
    requires ProgramInStep(s) && GeneratorReady(s.a, s.run) && May(s.a, m)
    ensures GeneratorReady(Do(s.a, m), s.run)
  {
    match m
    case Execute(valid, created) => GeneratorExecutes(s, valid, created);
    case RadioConfigured(_) => GeneratorAnswers(s, m);
    case Drained(_) => GeneratorAnswers(s, m);
    case _ => GeneratorWorks(s.a, s.run, m);
  }

  lemma ReceiverEmits(s: System, m: Move)
    requires RunInvariant(s) && May(s.b, m)
    ensures forall f | f in Emits(s.b, m) :: Owned(s.a, s.run, f)
  {
    if m.Receive? {
      assert s.b.inbox[0] in s.b.inbox;
    } else if AnsweredOk(s.a, A_START) {
      RunConfigured(s);
    }
  }

  lemma ReceiverDiscards(s: System, m: Move)
    requires RunInvariant(s) && May(s.b, m)
    ensures forall f | f in Do(s.b, m).discarded :: f.run != s.run
  {
    if m.Receive? {
      assert s.b.inbox[0] in s.b.inbox;
      if AnsweredOk(s.a, A_START) {
        RunConfigured(s);
      }
    }
  }

  lemma ReceiverAppends(s: System, echoed: bool)
    requires RunInvariant(s) && May(s.b, Receive(echoed))
    ensures ArrivalsAttributed(s.(b := Do(s.b, Receive(echoed))))
  {
    var f := s.b.inbox[0];
    assert f in s.b.inbox;
    if AnsweredOk(s.b, B_ARM) {
      EarlierOk(s, B_ARM, B_CONFIGURE);
    }
  }

  lemma ReceiverReports(s: System, ok: bool)
    requires RunInvariant(s) && May(s.b, Drained(ok))
    ensures ArrivalsAttributed(s.(b := Do(s.b, Drained(ok))))
  {
    if s.b.control.Reporting? {
      EarlierOk(s, B_RESULT, B_ARM);
    }
  }

  lemma ReceiverCommanded(s: System, valid: bool, created: bool)
    requires RunInvariant(s) && May(s.b, Execute(valid, created))
    ensures ArrivalsAttributed(s.(b := Do(s.b, Execute(valid, created))))
  {
    var r := s.b.requests[0];
    var n := s.b.(requests := s.b.requests[1..]);
    DispatchAnswers(n, r.id, r.command, valid, created);
    DispatchArrivals(n, r.id, r.command, valid, created);
    assert r.command == CommandOf(s.initiator, s.run, r.id) && Target(r.id) == B;
  }

  lemma ReceiverConfigured(s: System, ok: bool)
    requires RunInvariant(s) && May(s.b, RadioConfigured(ok))
    ensures ArrivalsAttributed(s.(b := Do(s.b, RadioConfigured(ok))))
  {
    if B_ARM in s.b.answers {
      EarlierOk(s, B_ARM, B_CONFIGURE);
    }
  }

  lemma ReceiverCounts(s: System, m: Move)
    requires RunInvariant(s) && May(s.b, m)
    ensures ArrivalsAttributed(s.(b := Do(s.b, m)))
  {
    match m
    case Receive(echoed) => ReceiverAppends(s, echoed);
    case Drained(ok) => ReceiverReports(s, ok);
    case Execute(valid, created) => ReceiverCommanded(s, valid, created);
    case RadioConfigured(ok) => ReceiverConfigured(s, ok);
    case _ =>
  }

  /** Only an arm that succeeds touches the arrivals, and it clears them. */
  lemma DispatchArrivals(n: Node, id: nat, c: Command, valid: bool, created: bool)
    ensures var t := Dispatch(n, id, c, valid, created);
      && t.report == n.report && (t.arrivals == n.arrivals || (c.Arm? && t.arrivals == []))
      && (c.Arm? && AnsweredOk(t, id) ==> t.arrivals == [])
  {}

  lemma ReceiverMoves(s: System, m: Move)
    requires RunInvariant(s) && May(s.b, m)
    ensures RunInvariant(Next(s, NodeMoves(B, m)))
  {
    var t := Do(s.b, m);
    var u := Next(s, NodeMoves(B, m));
    assert u.b == t && u.a == s.a && u.host == s.host && u.air == s.air + Emits(s.b, m);
    MovesInStep(s, B, m);
    ReceiverStaysReady(s, m);
    ReceiverEmits(s, m);
    ReceiverDiscards(s, m);
    ReceiverCounts(s, m);
    InboxShrinks(s.b, m);
  }

  /** The frames and arrivals of a system whose nodes differ at most in their queues. */
  lemma QueuesOnly(s: System, u: System)
    requires RunInvariant(s) && ProgramInStep(u) && FramesOwned(u)
    requires u.run == s.run && SameButQueues(s.a, u.a) && SameButQueues(s.b, u.b)
    ensures RunInvariant(u)
  {}

  lemma Delivered(s: System, x: Side, f: Frame)
    requires RunInvariant(s) && Can(s, Deliver(x, f))
    ensures RunInvariant(Next(s, Deliver(x, f)))
  {
    var u := Next(s, Deliver(x, f));
    StaysInStep(s, Deliver(x, f));
    assert u.air == s.air && SameButQueues(s.a, u.a) && SameButQueues(s.b, u.b);
    assert u.a.sequences == s.a.sequences && u.a.answers == s.a.answers;
    assert forall g | g in u.a.inbox || g in u.b.inbox :: g in s.a.inbox || g in s.b.inbox || g == f;
    assert forall g | g in u.b.inbox :: g in s.b.inbox || g.from == A;
    QueuesOnly(s, u);
  }

  /** What a host step leaves alone. */
  ghost predicate HostOnly(s: System, u: System) {
    && u.run == s.run && u.air == s.air
    && u.a == s.a.(requests := u.a.requests) && u.b == s.b.(requests := u.b.requests)
  }

  lemma HostTouches(s: System, t: Step)
    requires Can(s, t) && (t.HostSends? || t.HostHears? || t.HostTimesOut?)
    ensures HostOnly(s, Next(s, t))
  {}

  lemma HostOnlyKeeps(s: System, u: System)
    requires RunInvariant(s) && ProgramInStep(u) && HostOnly(s, u)
    ensures RunInvariant(u)
  {
    assert u.a.inbox == s.a.inbox && u.b.inbox == s.b.inbox;
    assert u.a.sequences == s.a.sequences && u.a.answers == s.a.answers;
    QueuesOnly(s, u);
  }

  lemma HostSteps(s: System, t: Step)
    requires RunInvariant(s) && Can(s, t) && (t.HostSends? || t.HostHears? || t.HostTimesOut?)
    ensures RunInvariant(Next(s, t))
  {
    StaysInStep(s, t);
    HostTouches(s, t);
    HostOnlyKeeps(s, Next(s, t));
  }

  ghost predicate SameButQueues(n: Node, t: Node) {
    t == n.(inbox := t.inbox, requests := t.requests)
  }

  lemma RunStep(s: System, t: Step)
    requires RunInvariant(s) && Can(s, t)
    ensures RunInvariant(Next(s, t))
  {
    match t
    case NodeMoves(x, m) =>
      if x == A {
        GeneratorMoves(s, m);
      } else {
        ReceiverMoves(s, m);
      }
    case Deliver(x, f) => Delivered(s, x, f);
    case _ => HostSteps(s, t);
  }

  lemma BeginsInvariant(s: System)
    requires Initial(s)
    ensures RunInvariant(s)
  {}

  lemma {:induction false} RunKeepsInvariant(s: System, steps: seq<Step>, t: System)
    requires RunInvariant(s) && Runs(s, steps, t)
    ensures RunInvariant(t)
    decreases |steps|
  {
    if steps != [] {
      RunStep(s, steps[0]);
      RunKeepsInvariant(Next(s, steps[0]), steps[1..], t);
    }
  }

  // ----- results -----

  /** In every prefix of the host program, whenever a frame of this run from A is on the air or queued at
      B, node B is configured for the run, measuring, and has been armed: its metrics were reset before
      A's first send. */
  lemma ReceiverReadyForEveryFrame(s: System, steps: seq<Step>, t: System, f: Frame)
    requires Initial(s) && Runs(s, steps, t)
    requires (f in t.air || f in t.b.inbox) && f.run == t.run
    ensures t.b.run == t.run && Measuring(t.b.state) && AnsweredOk(t.b, B_ARM)
    ensures t.a.run == t.run && Measuring(t.a.state)
  {
    BeginsInvariant(s);
    RunKeepsInvariant(s, steps, t);
    RunConfigured(t);
  }

  /** No frame of the run is ever dropped as stale, at either node. */
  lemma NoOwnFrameIsStale(s: System, steps: seq<Step>, t: System)
    requires Initial(s) && Runs(s, steps, t)
    ensures forall f | f in t.a.discarded || f in t.b.discarded :: f.run != t.run
  {
    BeginsInvariant(s);
    RunKeepsInvariant(s, steps, t);
  }

  /** The host has collected both results. */
  predicate Completed(t: System) {
    t.host.next == PROGRAM_LENGTH && !t.host.aborted
  }

  lemma PassedOk(s: System, k: nat)
    requires ProgramInStep(s) && k < s.host.next && !MayFail(k)
    ensures AnsweredOk(At(s, Target(k)), k)
  {}

  /** On every completed run the loss the host reports is the number of frames A submitted that B had not
      processed when it answered, less the repeats that arrived 64 or more behind; it equals the
      receiver's own missing plus trailing loss when nothing arrived that late. */
  lemma ReportedLossMeaning(s: System, steps: seq<Step>, t: System)
    requires Initial(s) && Runs(s, steps, t) && Completed(t)
    ensures t.a.report.Report? && t.b.report.Report?
    ensures var sent, arrivals := t.a.report.submitted, t.b.report.arrivals;
      && OnlySubmitted(sent, arrivals)
      && HostLoss(sent, arrivals) == SaturatingSub(Unprocessed(sent, arrivals), Total(|sent|, arrivals, LateRepeat))
      && HostLoss(sent, arrivals) <= Unprocessed(sent, arrivals)
      && (HostLoss(sent, arrivals) == Unprocessed(sent, arrivals)
          <==> Total(|sent|, arrivals, LateRepeat) == 0 || Unprocessed(sent, arrivals) == 0)
      && (Total(|sent|, arrivals, Late) == 0 ==> HostLoss(sent, arrivals) == MissingAndTrailing(sent, arrivals))
  {
    BeginsInvariant(s);
    RunKeepsInvariant(s, steps, t);
    PassedOk(t, A_RESULT);
    PassedOk(t, B_RESULT);
    LossMeaning(t.a.report.submitted, t.b.report.arrivals);
    LossEqualsMissing(t.a.report.submitted, t.b.report.arrivals);
    NoneLate(|t.a.report.submitted|, t.b.report.arrivals);
  }

  lemma NoneLate(n: nat, arrivals: seq<Arrival>)
    ensures Total(n, arrivals, Late) == Total(n, arrivals, LateFirst) + Total(n, arrivals, LateRepeat)
    ensures Total(n, arrivals, LateFirst) >= 0 && Total(n, arrivals, LateRepeat) >= 0
  {
    forall k | 0 <= k < n
      ensures PerStream(arrivals, Late)(k) == PerStream(arrivals, LateFirst)(k) + PerStream(arrivals, LateRepeat)(k)
    {
      Divergence(OnStream(arrivals, k));
    }
    SumPlus(n, PerStream(arrivals, LateFirst), PerStream(arrivals, LateRepeat), PerStream(arrivals, Late));
    SumNonNegative(n, PerStream(arrivals, LateFirst));
    SumNonNegative(n, PerStream(arrivals, LateRepeat));
  }
}
