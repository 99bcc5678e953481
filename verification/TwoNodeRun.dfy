/** A whole benchmark run: the host program, node A generating, node B receiving, serial lines
    between host and nodes, and a network that may lose, repeat and reorder frames.

    Assumptions: neither node reboots and no other host talks to them; both generators are dead
    when the run begins; no frame already on the air carries this run's id. */
module TwoNodeRun {
  import opened NodeControl

  // ----- the host program -----

  const A_CONFIGURE: nat := 0
  const B_CONFIGURE: nat := 1
  const B_ARM: nat := 2
  const A_ARM: nat := 3
  const B_START: nat := 4
  const A_START: nat := 5
  const A_STOP: nat := 6
  const B_STOP: nat := 7
  const A_RESULT: nat := 8
  const B_RESULT: nat := 9
  const PROGRAM_LENGTH: nat := 10

  function Target(k: nat): Side {
    if k == B_CONFIGURE || k == B_ARM || k == B_START || k == B_STOP || k == B_RESULT then B else A
  }

  function CommandOf(initiator: bool, run: nat, k: nat): Command {
    if k == A_CONFIGURE then Configure(if initiator then PingInitiator else Generator, run)
    else if k == B_CONFIGURE then Configure(if initiator then EchoResponder else Sink, run)
    else if k == B_ARM || k == A_ARM then Arm(run)
    else if k == B_START || k == A_START then Start(run)
    else if k == A_STOP || k == B_STOP then Stop(run)
    else Result(run)
  }

  /** Failed or unanswered stops are ignored; any other failure ends the program. */
  predicate MayFail(k: nat) {
    k == A_STOP || k == B_STOP
  }

  /** `next` is the request being made; `sent` says it is on its way. */
  datatype Host = Host(next: nat, sent: bool, aborted: bool)

  datatype System = System(run: nat, initiator: bool, a: Node, b: Node, air: set<Frame>, host: Host)

  function At(s: System, x: Side): Node {
    if x == A then s.a else s.b
  }

  function With(s: System, x: Side, n: Node): System {
    if x == A then s.(a := n) else s.(b := n)
  }

  ghost predicate Initial(s: System) {
    && s.run > 0
    && s.a.side == A && s.b.side == B
    && FreshNode(s.a, s.run) && FreshNode(s.b, s.run)
    && (forall f | f in s.air :: f.run != s.run)
    && s.host == Host(0, false, false)
  }

  ghost predicate FreshNode(n: Node, run: nat) {
    && n.task == NoTask && n.control == Ready && n.requests == [] && n.answers == map[]
    && n.report == NoReport && n.discarded == {} && |n.sequences| == |n.submitted|
    && (forall f | f in n.inbox :: f.run != run)
  }

  // ----- steps -----

  datatype Step =
    | NodeMoves(x: Side, m: Move)
    | Deliver(x: Side, f: Frame)
    | HostSends
    | HostHears
    | HostTimesOut

  predicate Can(s: System, t: Step) {
    match t
    case NodeMoves(x, m) => May(At(s, x), m)
    case Deliver(x, f) => f in s.air && f.from != x
    case HostSends => !s.host.aborted && !s.host.sent && s.host.next < PROGRAM_LENGTH
    case HostHears => !s.host.aborted && s.host.sent && s.host.next in At(s, Target(s.host.next)).answers
    case HostTimesOut => !s.host.aborted && s.host.sent
  }

  function Next(s: System, t: Step): System
    requires Can(s, t)
  {
    match t
    case NodeMoves(x, m) => With(s, x, Do(At(s, x), m)).(air := s.air + Emits(At(s, x), m))
    case Deliver(x, f) =>
      var n := At(s, x);
      With(s, x, n.(inbox := n.inbox + [f]))
    case HostSends =>
      var k := s.host.next;
      var n := At(s, Target(k));
      With(s, Target(k), n.(requests := n.requests + [Request(k, CommandOf(s.initiator, s.run, k))]))
      .(host := s.host.(sent := true))
    case HostHears =>
      var k := s.host.next;
      if At(s, Target(k)).answers[k] || MayFail(k) then s.(host := Host(k + 1, false, false))
      else s.(host := s.host.(aborted := true))
    case HostTimesOut =>
      if MayFail(s.host.next) then s.(host := Host(s.host.next + 1, false, false))
      else s.(host := s.host.(aborted := true))
  }

  predicate Runs(s: System, steps: seq<Step>, t: System)
    decreases |steps|
  {
    if steps == [] then t == s
    else Can(s, steps[0]) && Runs(Next(s, steps[0]), steps[1..], t)
  }

  // ----- the invariant -----

  /** Request k of the program was put on the serial line. */
  predicate Issued(h: Host, k: nat) {
    k < h.next || (k == h.next && h.sent)
  }

  predicate AnsweredOk(n: Node, k: nat) {
    k in n.answers && n.answers[k]
  }

  /** The request a node is busy with. */
  predicate Busy(c: Control, k: nat) {
    match c
    case Ready => false
    case Configuring(id) => id == k
    case Stopping(id) => id == k
    case Reporting(id) => id == k
  }

  /** The host moves on only past requests answered ok, stops excepted. */
  ghost predicate HostInStep(s: System) {
    && s.host.next <= PROGRAM_LENGTH
    && (forall k: nat | k < s.host.next && !MayFail(k) :: AnsweredOk(At(s, Target(k)), k))
  }

  /** A node holds only requests the program issued to it, each at most once, and answers only those. */
  ghost predicate RequestsInStep(h: Host, initiator: bool, run: nat, x: Side, n: Node) {
    && n.side == x
    && (forall i | 0 <= i < |n.requests| ::
          var r := n.requests[i];
          && r.id < PROGRAM_LENGTH && Target(r.id) == x && r.command == CommandOf(initiator, run, r.id)
          && Issued(h, r.id) && r.id !in n.answers && !Busy(n.control, r.id))
    && (forall i, j | 0 <= i < j < |n.requests| :: n.requests[i].id != n.requests[j].id)
    && (forall k | k in n.answers :: k < PROGRAM_LENGTH && Target(k) == x && Issued(h, k))
    && (n.control != Ready ==>
          && n.control.id < PROGRAM_LENGTH && Target(n.control.id) == x && Issued(h, n.control.id)
          && n.control.id !in n.answers
          && ControlFits(n.control))
  }

  predicate ControlFits(c: Control) {
    match c
    case Ready => true
    case Configuring(k) => k == A_CONFIGURE || k == B_CONFIGURE
    case Stopping(k) => MayFail(k)
    case Reporting(k) => k == A_RESULT || k == B_RESULT
  }

  /** A dispatched command is answered at once, or keeps the control task busy under its id. */
  lemma DispatchAnswers(n: Node, id: nat, c: Command, valid: bool, created: bool)
    requires n.control == Ready
    ensures var t := Dispatch(n, id, c, valid, created);
      && t.side == n.side && t.requests == n.requests
      && (|| (t.control == Ready && (t.answers == n.answers[id := true] || t.answers == n.answers[id := false]))
          || (t.answers == n.answers
              && t.control == match c
                              case Configure(_, _) => Configuring(id)
                              case Stop(_) => Stopping(id)
                              case _ => Reporting(id)))
      && (c.Arm? || c.Start? ==> t.control == Ready)
  {}

  /** Taking the first request off the line leaves a node that holds the others. */
  lemma FirstTaken(h: Host, initiator: bool, run: nat, x: Side, n: Node)
    requires RequestsInStep(h, initiator, run, x, n) && n.control == Ready && n.requests != []
    ensures var rest := n.(requests := n.requests[1..]);
      && RequestsInStep(h, initiator, run, x, rest)
      && forall i | 0 <= i < |rest.requests| :: rest.requests[i].id != n.requests[0].id
  {
    var rest := n.(requests := n.requests[1..]);
    assert forall i | 0 <= i < |rest.requests| :: rest.requests[i] == n.requests[i + 1];
  }

  lemma ExecuteInStep(h: Host, initiator: bool, run: nat, x: Side, n: Node, valid: bool, created: bool)
    requires RequestsInStep(h, initiator, run, x, n) && May(n, Execute(valid, created))
    ensures RequestsInStep(h, initiator, run, x, Do(n, Execute(valid, created)))
    ensures forall k: nat | AnsweredOk(n, k) :: AnsweredOk(Do(n, Execute(valid, created)), k)
  {
    var r := n.requests[0];
    var rest := n.(requests := n.requests[1..]);
    FirstTaken(h, initiator, run, x, n);
    DispatchAnswers(rest, r.id, r.command, valid, created);
    assert Do(n, Execute(valid, created)) == Dispatch(rest, r.id, r.command, valid, created);
  }

  lemma AnswerInStep(h: Host, initiator: bool, run: nat, x: Side, n: Node, m: Move)
    requires RequestsInStep(h, initiator, run, x, n) && May(n, m) && (m.RadioConfigured? || m.Drained?)
    ensures RequestsInStep(h, initiator, run, x, Do(n, m))
    ensures forall k: nat | AnsweredOk(n, k) :: AnsweredOk(Do(n, m), k)
  {
    var t := Do(n, m);
    assert t.requests == n.requests && t.control == Ready && t.side == n.side;
    assert t.answers == n.answers[n.control.id := m.ok];
  }

  predicate TaskMove(m: Move) {
    !m.Execute? && !m.RadioConfigured? && !m.Drained?
  }

  lemma TaskMoveKeeps(n: Node, m: Move)
    requires May(n, m) && TaskMove(m)
    ensures var t := Do(n, m);
      && t.side == n.side && t.run == n.run && t.role == n.role && t.control == n.control
      && t.requests == n.requests && t.answers == n.answers && t.report == n.report
  {}

  lemma MoveInStep(h: Host, initiator: bool, run: nat, x: Side, n: Node, m: Move)
    requires RequestsInStep(h, initiator, run, x, n) && May(n, m)
    ensures RequestsInStep(h, initiator, run, x, Do(n, m))
    ensures forall k: nat | AnsweredOk(n, k) :: AnsweredOk(Do(n, m), k)
  {
    match m
    case Execute(valid, created) => ExecuteInStep(h, initiator, run, x, n, valid, created);
    case RadioConfigured(_) => AnswerInStep(h, initiator, run, x, n, m);
    case Drained(_) => AnswerInStep(h, initiator, run, x, n, m);
    case _ => TaskMoveKeeps(n, m);
  }

  /** The program only ever issues more. */
  lemma IssuedMore(h: Host, h': Host, initiator: bool, run: nat, x: Side, n: Node)
    requires RequestsInStep(h, initiator, run, x, n)
    requires forall k: nat | Issued(h, k) :: Issued(h', k)
    ensures RequestsInStep(h', initiator, run, x, n)
  {}

  lemma OneMoreRequest(h: Host, initiator: bool, run: nat, x: Side, n: Node)
    requires RequestsInStep(h, initiator, run, x, n)
    requires !h.sent && h.next < PROGRAM_LENGTH && Target(h.next) == x
    ensures RequestsInStep(h.(sent := true), initiator, run, x,
                           n.(requests := n.requests + [Request(h.next, CommandOf(initiator, run, h.next))]))
  {
    var r := Request(h.next, CommandOf(initiator, run, h.next));
    var t := n.(requests := n.requests + [r]);
    assert forall i | 0 <= i < |n.requests| :: t.requests[i] == n.requests[i] && n.requests[i].id < h.next;
  }
}
