/** One node's command dispatch, generator task and receive classification, as an interleaved
    transition system. Slow library calls inside a command (radio configuration, waiting for the
    generator, draining) are separate steps, so the other tasks run in between. */
module NodeControl {
  import opened Loss
  import opened Words

  datatype State = Boot | Idle | Configured | Armed | Running | Finished | Error

  datatype Role = Generator | Sink | PingInitiator | EchoResponder

  datatype Side = A | B

  datatype Kind = Stream | Ping | Echo

  datatype Frame = Frame(from: Side, run: nat, kind: Kind, stream: nat, sequence: uint32, timestamp: nat)

  datatype Command =
    | Configure(role: Role, run: nat)
    | Arm(run: nat)
    | Start(run: nat)
    | Stop(run: nat)
    | Result(run: nat)

  /** A command line on the serial port, with the id its answer will carry. */
  datatype Request = Request(id: nat, command: Command)

  datatype Control = Ready | Configuring(id: nat) | Stopping(id: nat) | Reporting(id: nat)

  /** The generator task: no task, at its loop head, inside `send_one`, with an accepted frame to record,
      and the three steps after the loop. */
  datatype Task = NoTask | Looping | Sending | Recording(stream: nat) | Leaving | Finishing | Exiting

  datatype Report = NoReport | Report(submitted: seq<nat>, arrivals: seq<Arrival>)

  /** `sequences` is local to the generator task; `submitted` and `arrivals` are what `metrics_reset`
      clears. `discarded`, `answers`, `report` and `settled` record history: the frames dropped as stale,
      the answers given by id, the last result, and whether a stop or result was answered ok since the
      last start. `due` counts the frames queued when the current stop or result began and still unprocessed. */
  datatype Node = Node(
    side: Side, state: State, run: nat, role: Role, control: Control,
    task: Task, sequences: seq<nat>, submitted: seq<nat>, arrivals: seq<Arrival>,
    inbox: seq<Frame>, requests: seq<Request>,
    answers: map<nat, bool>, report: Report, discarded: set<Frame>, settled: bool, due: nat)

  predicate Measuring(s: State) {
    s == Armed || s == Running || s == Finished
  }

  predicate Generates(r: Role) {
    r == Generator || r == PingInitiator
  }

  function Zeros(n: nat): seq<nat> {
    seq(n, i => 0)
  }

  function Reset(n: Node): Node {
    n.(submitted := Zeros(|n.submitted|), arrivals := [])
  }

  function Answer(n: Node, id: nat, ok: bool): Node {
    n.(answers := n.answers[id := ok])
  }

  // ----- commands -----

  /** A command that names a run must name the configured one. */
  predicate Mismatch(n: Node, run: nat) {
    run != 0 && run != n.run
  }

  /** `dispatch`, up to its first slow call. `valid` is the outcome of `parse_config`, `created` that of
      `xTaskCreate`. */
  function Dispatch(n: Node, id: nat, c: Command, valid: bool, created: bool): Node {
    match c
    case Configure(role, run) =>
      if n.state == Running || n.state == Armed || !valid then Answer(n, id, false)
      else n.(run := run, role := role, control := Configuring(id))
    case Arm(run) =>
      if Mismatch(n, run) || n.state != Configured then Answer(n, id, false)
      else Answer(Reset(n).(state := Armed), id, true)
    case Start(run) =>
      if Mismatch(n, run) || n.state != Armed then Answer(n, id, false)
      else if n.task != NoTask then Answer(n.(state := Error), id, false)
      else if !Generates(n.role) then Answer(n.(state := Running, settled := false), id, true)
      else if !created then Answer(n.(state := Error), id, false)
      else Answer(n.(state := Running, settled := false, task := Looping, sequences := Zeros(|n.sequences|)), id, true)
    case Stop(run) =>
      if Mismatch(n, run) then Answer(n, id, false)
      else n.(state := if n.state == Running || n.state == Armed then Finished else n.state, control := Stopping(id),
              due := |n.inbox|)
    case Result(run) =>
      if Mismatch(n, run) || n.state != Finished then Answer(n, id, false)
      else n.(control := Reporting(id), due := |n.inbox|)
  }

  datatype Move =
    | Execute(valid: bool, created: bool)
    | RadioConfigured(ok: bool)
    | Drained(ok: bool)
    | LoopHead(go: bool)
    | Send(kind: Kind, stream: nat, timestamp: nat, accepted: bool)
    | Record
    | Leave
    | WriteFinished
    | Exit
    | Receive(echoed: bool)

  predicate May(n: Node, m: Move) {
    match m
    case Execute(_, _) => n.control == Ready && n.requests != []
    case RadioConfigured(_) => n.control.Configuring?
    case Drained(ok) => (n.control.Stopping? || n.control.Reporting?) && (ok ==> n.task == NoTask)
    case LoopHead(go) => n.task == Looping && (go ==> n.state == Running)
    case Send(kind, stream, _, accepted) =>
      && n.task == Sending && kind != Echo && stream < |n.sequences|
      && (accepted ==> n.sequences[stream] < 0x1_0000_0000)
    case Record => n.task.Recording?
    case Leave => n.task == Leaving
    case WriteFinished => n.task == Finishing
    case Exit => n.task == Exiting
    case Receive(echoed) =>
      && n.inbox != []
      && (echoed ==> Accepted(n, n.inbox[0]) && n.role == EchoResponder && n.inbox[0].kind == Ping)
  }

  /** The receive path's check of a decoded frame. */
  predicate Accepted(n: Node, f: Frame) {
    f.run == n.run && Measuring(n.state)
  }

  function Do(n: Node, m: Move): Node
    requires May(n, m)
  {
    match m
    case Execute(valid, created) =>
      Dispatch(n.(requests := n.requests[1..]), n.requests[0].id, n.requests[0].command, valid, created)
    case RadioConfigured(ok) =>
      if ok then Answer(Reset(n).(state := Configured, control := Ready), n.control.id, true)
      else Answer(n.(state := Error, control := Ready), n.control.id, false)
    case Drained(ok) =>
      var r := if ok && n.control.Reporting? then n.(report := Report(n.submitted, n.arrivals)) else n;
      Answer(r.(control := Ready, settled := n.settled || ok), n.control.id, ok)
    case LoopHead(go) => n.(task := if go then Sending else Leaving)
    case Send(_, stream, _, accepted) =>
      if accepted then n.(task := Recording(stream), sequences := n.sequences[stream := n.sequences[stream] + 1])
      else n.(task := Looping)
    case Record =>
      var k := n.task.stream;
      n.(task := Looping, submitted := if k < |n.submitted| then n.submitted[k := n.submitted[k] + 1] else n.submitted)
    case Leave => n.(task := if n.state == Error then Exiting else Finishing)
    case WriteFinished => n.(state := Finished, task := Exiting)
    case Exit => n.(task := NoTask)
    case Receive(_) =>
      var f := n.inbox[0];
      var rest := n.(inbox := n.inbox[1..], due := if n.due > 0 then n.due - 1 else 0);
      if Accepted(n, f) then rest.(arrivals := n.arrivals + [Arrival(f.stream, f.sequence)])
      else rest.(discarded := n.discarded + {f})
  }

  /** The frames a move puts on the air. */
  function Emits(n: Node, m: Move): set<Frame>
    requires May(n, m)
  {
    match m
    case Send(kind, stream, timestamp, true) =>
      {Frame(n.side, n.run, kind, stream, n.sequences[stream], timestamp)}
    case Receive(true) => {n.inbox[0].(from := n.side, kind := Echo)}
    case _ => {}
  }

  // ----- a node's life -----

  /** The generator task may still write the state: it is alive and not past its last write. */
  predicate Live(t: Task) {
    t != NoTask && t != Exiting
  }

  predicate AcceptsConfigure(n: Node, m: Move) {
    && m.Execute? && n.requests != [] && n.requests[0].command.Configure?
    && n.state != Running && n.state != Armed && m.valid
  }

  /** Rules a host may keep: none; a new configure only when a stop or result was answered ok since the last
      start; a configure accepted only when no generator is live; no further start. */
  datatype Rule = AnyHost | AfterAnsweredStop | NoLiveGenerator | NoFurtherStart

  predicate Obeys(r: Rule, n: Node, m: Move) {
    match r
    case AnyHost => true
    case AfterAnsweredStop => m.Execute? && n.requests != [] && n.requests[0].command.Configure? ==> n.settled
    case NoLiveGenerator => AcceptsConfigure(n, m) ==> !Live(n.task)
    case NoFurtherStart => m.Execute? && n.requests != [] ==> !n.requests[0].command.Start?
  }

  /** What happens at a node: one of its own moves, or something reaching it. */
  datatype Happening = Acts(m: Move) | Requested(r: Request) | Heard(f: Frame)

  predicate Possible(n: Node, h: Happening) {
    h.Acts? ==> May(n, h.m)
  }

  function After(n: Node, h: Happening): Node
    requires Possible(n, h)
  {
    match h
    case Acts(m) => Do(n, m)
    case Requested(r) => n.(requests := n.requests + [r])
    case Heard(f) => n.(inbox := n.inbox + [f])
  }

  /** Some stretch of life under a rule takes n to t. */
  predicate Lives(r: Rule, n: Node, hs: seq<Happening>, t: Node)
    decreases |hs|
  {
    if hs == [] then t == n
    else
      && Possible(n, hs[0])
      && (hs[0].Acts? ==> Obeys(r, n, hs[0].m))
      && Lives(r, After(n, hs[0]), hs[1..], t)
  }

  /** A node that has come up, with or without its radio. */
  predicate Booted(n: Node) {
    && (n.state == Idle || n.state == Error)
    && n.task == NoTask && n.control == Ready && n.requests == [] && n.sequences != []
  }

  ghost predicate Reaches(r: Rule, n: Node, t: Node) {
    exists hs :: Lives(r, n, hs, t)
  }

  // ----- hosts that wait for an answered stop -----

  ghost predicate Orderly(n: Node) {
    && (n.task != NoTask ==> !n.settled && (n.state == Running || n.state == Finished))
    && (n.control.Configuring? ==> n.task == NoTask)
    && (n.control.Reporting? ==> n.state == Finished)
    && (n.control.Stopping? ==> n.state != Running && n.state != Armed)
  }

  function Rank(s: State): nat {
    match s
    case Armed => 1
    case Running => 2
    case Finished => 3
    case Error => 3
    case _ => 0
  }

  predicate Ended(s: State) {
    s == Finished || s == Error
  }

  /** Under that rule, in every interleaving: a live generator implies RUNNING or FINISHED, and from arm to
      the next configure the state only moves forward, FINISHED and ERROR being final. */
  lemma StateMovesForward(n: Node, m: Move)
    requires Orderly(n) && May(n, m) && Obeys(AfterAnsweredStop, n, m)
    ensures Orderly(Do(n, m))
    ensures Rank(n.state) > 0 && !m.RadioConfigured? ==> Rank(Do(n, m).state) >= Rank(n.state)
    ensures Ended(n.state) && !m.RadioConfigured? ==> Do(n, m).state == n.state
    ensures m == WriteFinished ==> n.state == Running || n.state == Finished
    ensures n.control.Reporting? && m == Drained(true) ==> n.state == Finished && n.task == NoTask
  {}

  lemma {:induction false} StaysOrderly(n: Node, hs: seq<Happening>, t: Node)
    requires Orderly(n) && Lives(AfterAnsweredStop, n, hs, t)
    ensures Orderly(t)
    decreases |hs|
  {
    if hs != [] {
      if hs[0].Acts? {
        StateMovesForward(n, hs[0].m);
      }
      StaysOrderly(After(n, hs[0]), hs[1..], t);
    }
  }

  /** Over a node's whole life from boot, through any number of configures and runs: a generator that exists
      implies RUNNING or FINISHED, its last write never meets CONFIGURED or ARMED, and a result is answered
      ok only in FINISHED with no generator. */
  lemma OrderlyLife(boot: Node, t: Node)
    requires Booted(boot) && Reaches(AfterAnsweredStop, boot, t)
    ensures t.task != NoTask ==> t.state == Running || t.state == Finished
    ensures May(t, WriteFinished) ==> t.state != Configured && t.state != Armed
    ensures t.control.Reporting? && May(t, Drained(true)) ==> t.state == Finished && t.task == NoTask
  {
    var hs :| Lives(AfterAnsweredStop, boot, hs, t);
    StaysOrderly(boot, hs, t);
  }

  predicate CompletesNoConfigure(hs: seq<Happening>) {
    forall i | 0 <= i < |hs| :: hs[i].Acts? ==> !hs[i].m.RadioConfigured?
  }

  lemma {:induction false} MovesForward(n: Node, hs: seq<Happening>, t: Node)
    requires Orderly(n) && Rank(n.state) > 0
    requires Lives(AfterAnsweredStop, n, hs, t) && CompletesNoConfigure(hs)
    ensures Rank(t.state) >= Rank(n.state)
    ensures Ended(n.state) ==> t.state == n.state
    decreases |hs|
  {
    if hs != [] {
      if hs[0].Acts? {
        StateMovesForward(n, hs[0].m);
      }
      MovesForward(After(n, hs[0]), hs[1..], t);
    }
  }

  /** Whatever a node's life was before, from arm to the next configure the state only moves forward, and
      FINISHED and ERROR are final. */
  lemma RunMovesForward(boot: Node, n: Node, hs: seq<Happening>, t: Node)
    requires Booted(boot) && Reaches(AfterAnsweredStop, boot, n) && Rank(n.state) > 0
    requires Lives(AfterAnsweredStop, n, hs, t) && CompletesNoConfigure(hs)
    ensures Rank(t.state) >= Rank(n.state)
    ensures Ended(n.state) ==> t.state == n.state
  {
    var before :| Lives(AfterAnsweredStop, boot, before, n);
    StaysOrderly(boot, before, n);
    MovesForward(n, hs, t);
  }

  // ----- the exact rule -----

  ghost predicate Guarded(n: Node) {
    && (Live(n.task) ==> n.state == Running || n.state == Finished)
    && (n.control.Configuring? ==> !Live(n.task))
    && (n.control.Stopping? ==> n.state != Running && n.state != Armed)
  }

  lemma GuardedStep(n: Node, m: Move)
    requires Guarded(n) && May(n, m) && Obeys(NoLiveGenerator, n, m)
    ensures Guarded(Do(n, m))
  {}

  lemma {:induction false} StaysGuarded(n: Node, hs: seq<Happening>, t: Node)
    requires Guarded(n) && Lives(NoLiveGenerator, n, hs, t)
    ensures Guarded(t)
    decreases |hs|
  {
    if hs != [] {
      if hs[0].Acts? {
        GuardedStep(n, hs[0].m);
      }
      StaysGuarded(After(n, hs[0]), hs[1..], t);
    }
  }

  /** While no configure is accepted with a live generator, no last write ever meets CONFIGURED or ARMED. */
  lemma GuardedLife(boot: Node, t: Node)
    requires Booted(boot) && Reaches(NoLiveGenerator, boot, t) && May(t, WriteFinished)
    ensures t.state == Running || t.state == Finished
  {
    var hs :| Lives(NoLiveGenerator, boot, hs, t);
    StaysGuarded(boot, hs, t);
  }

  /** Without another start, the generator alive now may yet make its last write on CONFIGURED or ARMED. */
  ghost predicate Overwritable(n: Node) {
    exists t :: Reaches(NoFurtherStart, n, t) && t.task == Finishing && (t.state == Configured || t.state == Armed)
  }

  lemma {:induction false} NoGeneratorComesUp(n: Node, hs: seq<Happening>, t: Node)
    requires Lives(NoFurtherStart, n, hs, t) && !Live(n.task)
    ensures !Live(t.task)
    decreases |hs|
  {
    if hs != [] {
      NoGeneratorComesUp(After(n, hs[0]), hs[1..], t);
    }
  }

  lemma {:induction false} LongerLife(r: Rule, n: Node, hs: seq<Happening>, t: Node, h: Happening)
    requires Lives(r, n, hs, t) && Possible(t, h) && (h.Acts? ==> Obeys(r, t, h.m))
    ensures Lives(r, n, hs + [h], After(t, h))
    decreases |hs|
  {
    if hs == [] {
      assert [h][1..] == [];
    } else {
      assert (hs + [h])[1..] == hs[1..] + [h];
      LongerLife(r, After(n, hs[0]), hs[1..], t, h);
    }
  }

  lemma Then(r: Rule, n: Node, t: Node, h: Happening) returns (u: Node)
    requires Reaches(r, n, t) && Possible(t, h) && (h.Acts? ==> Obeys(r, t, h.m))
    ensures u == After(t, h) && Reaches(r, n, u)
  {
    u := After(t, h);
    var hs :| Lives(r, n, hs, t);
    LongerLife(r, n, hs, t, h);
  }

  /** A live generator can always come to the point of its last write without the state changing. */
  lemma ComesToLastWrite(r: Rule, n: Node, t: Node) returns (u: Node)
    requires Reaches(r, n, t) && Live(t.task) && t.state != Error && t.sequences != []
    ensures Reaches(r, n, u) && u.task == Finishing && u.state == t.state && u.control == t.control
  {
    u := t;
    if u.task == Sending {
      u := Then(r, n, u, Acts(Send(Stream, 0, 0, false)));
    } else if u.task.Recording? {
      u := Then(r, n, u, Acts(Record));
    }
    if u.task == Looping {
      u := Then(r, n, u, Acts(LoopHead(false)));
    }
    if u.task == Leaving {
      u := Then(r, n, u, Acts(Leave));
    }
  }

  lemma {:induction false} StreamsStay(n: Node, hs: seq<Happening>, t: Node)
    requires Lives(AnyHost, n, hs, t)
    ensures |t.sequences| == |n.sequences|
    decreases |hs|
  {
    if hs != [] {
      StreamsStay(After(n, hs[0]), hs[1..], t);
    }
  }

  /** The rule is exact. Of every node reachable from boot, under any host: an accepted configure can be
      overwritten by the last write of the generator alive at that moment if and only if there is a live
      one. */
  lemma ConfigureIsSafeOnlyWithoutLiveGenerator(boot: Node, n: Node, m: Move)
    requires Booted(boot) && Reaches(AnyHost, boot, n) && May(n, m) && AcceptsConfigure(n, m)
    ensures Overwritable(Do(n, m)) <==> Live(n.task)
  {
    var u := Do(n, m);
    assert u.task == n.task && u.control.Configuring? && u.sequences == n.sequences;
    var hs :| Lives(AnyHost, boot, hs, n);
    StreamsStay(boot, hs, n);
    if Live(n.task) {
      assert Lives(NoFurtherStart, u, [], u);
      var t := Then(NoFurtherStart, u, u, Acts(RadioConfigured(true)));
      t := ComesToLastWrite(NoFurtherStart, u, t);
    } else if t :| Reaches(NoFurtherStart, u, t) && t.task == Finishing {
      var later :| Lives(NoFurtherStart, u, later, t);
      NoGeneratorComesUp(u, later, t);
    }
  }

  lemma Commanded(boot: Node, n: Node, r: Request) returns (t: Node)
    requires Reaches(AnyHost, boot, n) && n.control == Ready && n.requests == []
    ensures t == Dispatch(n, r.id, r.command, true, true) && Reaches(AnyHost, boot, t)
  {
    t := Then(AnyHost, boot, n, Requested(r));
    assert t.requests == [r] && t.(requests := []) == n;
    t := Then(AnyHost, boot, t, Acts(Execute(true, true)));
  }

  /** A booted node brought to RUNNING with its generator inside `send_one`. */
  lemma GeneratorSending(boot: Node) returns (t: Node)
    requires Booted(boot)
    ensures Reaches(AnyHost, boot, t) && t.state == Running && t.task == Sending
    ensures t.control == Ready && t.requests == [] && t.run == 7 && t.sequences != []
  {
    assert Lives(AnyHost, boot, [], boot);
    t := Commanded(boot, boot, Request(1, Configure(Generator, 7)));
    t := Then(AnyHost, boot, t, Acts(RadioConfigured(true)));
    t := Commanded(boot, t, Request(2, Arm(7)));
    t := Commanded(boot, t, Request(3, Start(7)));
    t := Then(AnyHost, boot, t, Acts(LoopHead(true)));
  }

  /** From boot: a configure that fails at the radio between the old generator's check for ERROR and its last
      write leaves FINISHED, under the new run id and without a reset of the metrics. */
  lemma LateGeneratorOverwritesError(boot: Node) returns (failed: Node)
    requires Booted(boot)
    ensures Reaches(AnyHost, boot, failed) && failed.state == Error && failed.control == Ready && failed.run == 8
    ensures May(failed, WriteFinished) && Do(failed, WriteFinished).state == Finished
  {
    var t := GeneratorSending(boot);
    t := Then(AnyHost, boot, t, Acts(Send(Stream, 0, 0, false)));
    t := Then(AnyHost, boot, t, Acts(LoopHead(false)));
    t := Then(AnyHost, boot, t, Acts(Leave));
    t := Commanded(boot, t, Request(4, Stop(7)));
    t := Then(AnyHost, boot, t, Acts(Drained(false)));
    t := Commanded(boot, t, Request(5, Configure(Generator, 8)));
    failed := Then(AnyHost, boot, t, Acts(RadioConfigured(false)));
  }

  /** From boot: after a stop that timed out a configure succeeds, and the old generator's last write then
      turns CONFIGURED into FINISHED. */
  lemma LateGeneratorOverwritesConfigured(boot: Node) returns (configured: Node)
    requires Booted(boot)
    ensures Reaches(AnyHost, boot, configured) && configured.state == Configured && configured.control == Ready
    ensures configured.run == 8 && May(configured, WriteFinished) && Do(configured, WriteFinished).state == Finished
  {
    var t := GeneratorSending(boot);
    t := Commanded(boot, t, Request(4, Stop(7)));
    t := Then(AnyHost, boot, t, Acts(Drained(false)));
    t := Commanded(boot, t, Request(5, Configure(Generator, 8)));
    t := Then(AnyHost, boot, t, Acts(RadioConfigured(true)));
    t := Then(AnyHost, boot, t, Acts(Send(Stream, 0, 0, false)));
    t := Then(AnyHost, boot, t, Acts(LoopHead(false)));
    configured := Then(AnyHost, boot, t, Acts(Leave));
  }

  // ----- which command goes when -----

  /** The command names another run than the one configured. A configure names the run to come. */
  predicate Foreign(n: Node, c: Command) {
    !c.Configure? && c.run != 0 && c.run != n.run
  }

  /** Each command is taken up in its own states only, and otherwise refused: the answer false is all it leaves,
      but for a start that finds a generator alive or cannot create one, which leaves ERROR. */
  lemma CommandsByState(n: Node, id: nat, c: Command, valid: bool, created: bool)
    requires n.control == Ready
    ensures var t := Dispatch(n, id, c, valid, created);
      var refused := n.(answers := n.answers[id := false]);
      match c
      case Configure(role, run) =>
        if valid && n.state in {Boot, Idle, Configured, Finished, Error}
        then t == n.(run := run, role := role, control := Configuring(id)) else t == refused
      case Arm(run) =>
        if n.state == Configured && run in {0, n.run}
        then t == n.(state := Armed, submitted := seq(|n.submitted|, i => 0), arrivals := [],
                     answers := n.answers[id := true])
        else t == refused
      case Start(run) =>
        if n.state == Armed && run in {0, n.run} then
          if n.task != NoTask || (n.role in {Role.Generator, PingInitiator} && !created) then
            t == refused.(state := Error)
          else
            t.state == Running && t.answers == n.answers[id := true]
            && (t.task == Looping <==> n.role in {Role.Generator, PingInitiator})
        else t == refused
      case Stop(run) =>
        if run in {0, n.run}
        then t.control == Stopping(id) && t.answers == n.answers
             && t.state == if n.state in {Armed, Running} then Finished else n.state
        else t == refused
      case Result(run) =>
        if n.state == Finished && run in {0, n.run} then t == n.(control := Reporting(id), due := |n.inbox|)
        else t == refused
  {}

  ghost predicate AllForeign(n: Node) {
    forall i | 0 <= i < |n.requests| :: Foreign(n, n.requests[i].command)
  }

  /** Commands of another run, and the node executing them. */
  ghost predicate OnlyForeign(n: Node, hs: seq<Happening>) {
    forall i | 0 <= i < |hs| ::
      match hs[i]
      case Acts(m) => m.Execute?
      case Requested(r) => Foreign(n, r.command)
      case Heard(_) => false
  }

  lemma ForeignRefused(n: Node, m: Move)
    requires n.control == Ready && AllForeign(n) && m.Execute? && May(n, m)
    ensures Do(n, m) == n.(requests := n.requests[1..], answers := n.answers[n.requests[0].id := false])
    ensures AllForeign(Do(n, m))
  {
    assert Foreign(n, n.requests[0].command);
  }

  /** Whatever commands of another run a node is sent, executing them changes nothing but their own answers, and
      those are all false. */
  lemma {:induction false} ForeignCommandsChangeNothing(n: Node, hs: seq<Happening>, t: Node)
    requires n.control == Ready && AllForeign(n) && OnlyForeign(n, hs) && Lives(AnyHost, n, hs, t)
    ensures t == n.(requests := t.requests, answers := t.answers)
    ensures forall id | id in t.answers :: (id in n.answers && t.answers[id] == n.answers[id]) || !t.answers[id]
    ensures forall id | id in n.answers :: id in t.answers
    decreases |hs|
  {
    if hs != [] {
      var h := hs[0];
      var u := After(n, h);
      if h.Acts? {
        ForeignRefused(n, h.m);
      }
      ForeignCommandsChangeNothing(u, hs[1..], t);
    }
  }
}
