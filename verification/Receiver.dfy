/** The receiver task: what it makes of each event it takes off the queue, and what the counters then say. */
module Receiver {
  import opened Harness
  import opened Loss
  import opened Metrics
  import opened NodeControl
  import opened Words
  import Codec

  const PING: byte := 2
  const CAPACITY: nat := 8192

  /** Everything received since the last reset, as the parts of the metrics see it. */
  datatype Seen = Seen(
    arrivals: seq<Arrival>, lengths: seq<nat>, times: seq<nat>, strengths: seq<int8>, timings: seq<Timing>)

  /** One more frame: counted on its stream, measured for strength, and timed if it is an echo, of type 3. */
  function Plus(s: Seen, h: Codec.Header, strength: int8, at: nat): Seen {
    Seen(s.arrivals + [Arrival(h.streamId, h.sequence)], s.lengths + [h.packetLen], s.times + [at],
         s.strengths + [strength], s.timings + [Timing(h.packetType == 3, at, h.timestamp)])
  }

  class RxHistory {
    const rx: RxMetrics
    const rssi: RssiMetrics
    const rtt: RttMetrics

    ghost predicate Valid()
      reads rx, rssi, rssi.hist, rtt, rtt.rtt, rtt.rtt.samples
    {
      && rssi.hist != rtt.rtt.samples
      && rx.Valid() && rssi.Valid() && rtt.Valid()
      && |rx.streams| == MAX_STREAMS
      && |rssi.samples| == |rx.arrivals|
    }

    ghost function View(): Seen
      reads rx, rssi, rtt
    {
      Seen(rx.arrivals, rx.lengths, rx.times, rssi.samples, rtt.frames)
    }

    ghost function Repr(): set<object>
    {
      {rx, rssi, rssi.hist, rtt, rtt.rtt, rtt.rtt.samples}
    }

    /** `metrics_reset` */
    constructor ()
      ensures Valid() && fresh(Repr()) && View() == Seen([], [], [], [], [])
      ensures |rx.streams| == 16 && rtt.rtt.samples.Length == 8192
    {
      rx := new RxMetrics(MAX_STREAMS);
      rssi := new RssiMetrics();
      rtt := new RttMetrics(CAPACITY);
    }

    /** `metrics_rx` */
    method Receive(header: Codec.Header, strength: int8, at: nat, hash: nat)
      requires Valid() && header.streamId < MAX_STREAMS
      modifies rx, rssi, rssi.hist, rtt, rtt.rtt, rtt.rtt.samples
      ensures Valid()
      ensures rx.arrivals == old(rx.arrivals) + [Arrival(header.streamId, header.sequence)]
      ensures rx.lengths == old(rx.lengths) + [header.packetLen] && rx.times == old(rx.times) + [at]
      ensures rssi.samples == old(rssi.samples) + [strength]
      ensures rtt.frames == old(rtt.frames) + [Timing(header.packetType == 3, at, header.timestamp)]
    {
      Count(header, strength, at);
      rtt.Time(header.packetType == Codec.ECHO, at, header.timestamp, hash);
    }

    method Count(header: Codec.Header, strength: int8, at: nat)
      requires rx.Valid() && rssi.Valid() && header.streamId < |rx.streams|
      modifies rx, rssi, rssi.hist
      ensures rx.Valid() && rssi.Valid() && |rx.streams| == old(|rx.streams|)
      ensures rx.arrivals == old(rx.arrivals) + [Arrival(header.streamId, header.sequence)]
      ensures rx.lengths == old(rx.lengths) + [header.packetLen] && rx.times == old(rx.times) + [at]
      ensures rssi.samples == old(rssi.samples) + [strength]
    {
      rx.Receive(header.streamId, header.sequence, header.packetLen, at);
      rssi.Record(strength);
    }
  }

  /** `rssi_count` is `rx_packets`, and the histogram sums to it. */
  lemma HistogramCountsPackets(h: RxHistory)
    requires h.Valid()
    ensures h.rssi.count == h.rx.rxPackets
    ensures Sum(h.rssi.hist.Length, Buckets(h.rssi.hist[..])) == h.rx.rxPackets
  {
    HistogramSums(h.rssi.hist[..], h.rssi.samples);
  }

  /** The events that carry no frame. */
  datatype Event = TxOk | TxFail | Drop | Barrier

  /** What became of an event. */
  datatype Verdict = Received(header: Codec.Header) | Stale | Invalid | Completed(success: bool) | Passed

  /** A frame that decodes, of one of the 16 streams. */
  ghost predicate Decodes(data: seq<byte>, h: Codec.Header) {
    Codec.Carries(data, h) && h.streamId < 16
  }

  /** What `bench_decode`, the run id and the state make of a frame; exactly one verdict fits. */
  ghost predicate Judged(data: seq<byte>, runId: nat, state: State, v: Verdict) {
    match v
    case Received(h) => Decodes(data, h) && h.runId == runId && Measuring(state)
    case Stale => exists h :: Decodes(data, h) && !(h.runId == runId && Measuring(state))
    case Invalid => forall h :: !Decodes(data, h)
    case Completed(_) => false
    case Passed => false
  }

  /** The task with the state it reads. Its drop counters and the receive metrics are reset together. */
  class ReceiverTask {
    var state: State
    var role: Role
    var runId: nat
    var stale: nat
    var invalid: nat
    var sendSuccess: nat
    var sendFailure: nat
    /** The generator is between its check of the state and its last write. */
    var leaving: bool
    /** A configure failed at the radio while it was. */
    ghost var mixed: bool
    /** The run id of each frame received since the last reset. */
    ghost var runs: seq<nat>
    /** RX and DROP events dequeued since the last reset. */
    ghost var handled: nat

    /** Conservation and run isolation: every RX or DROP event was received, stale or invalid, and outside
        ERROR only frames of the configured run were received, unless a configure failed at the radio while a
        generator was about to write FINISHED over its ERROR. */
    ghost predicate Valid()
      reads this
    {
      && |runs| + stale + invalid == handled
      && (!mixed && (state != Error || leaving) ==> forall i | 0 <= i < |runs| :: runs[i] == runId)
    }

    constructor ()
      ensures Valid() && state == Boot
    {
      state, role, runId, leaving, mixed := Boot, Sink, 0, false, false;
      stale, invalid, sendSuccess, sendFailure, handled, runs := 0, 0, 0, 0, 0, [];
    }

    method Reset()
      modifies this`runs, this`stale, this`invalid, this`sendSuccess, this`sendFailure, this`handled, this`mixed
      ensures Valid() && runs == [] && handled == sendSuccess == sendFailure == 0 && !mixed
    {
      mixed := false;
      stale, invalid, sendSuccess, sendFailure, handled, runs := 0, 0, 0, 0, 0, [];
    }

    /** `configure`, with the outcome of `parse_config` and of the radio: refused while ARMED or RUNNING, or
        with nothing changed; otherwise the configuration changes first, the metrics only if the radio
        follows. */
    method Configure(r: Role, run: nat, valid: bool, radioOk: bool) returns (ok: bool)
      requires Valid()
      modifies this
      ensures Valid()
      ensures ok <==> old(state) != Armed && old(state) != Running && valid && radioOk
      ensures ok ==> state == Configured && runId == run && role == r && handled == 0
      ensures !ok ==> if old(state) == Armed || old(state) == Running || !valid
                      then Unchanged(old(runId), old(role), old(state))
                      else Unchanged(run, r, Error)
      ensures !ok ==> runs == old(runs) && handled == old(handled)
      ensures leaving == old(leaving)
      ensures mixed == (!ok && (old(mixed) || (leaving && valid && old(state) != Armed && old(state) != Running)))
    {
      if state == Armed || state == Running || !valid {
        return false;
      }
      role, runId := r, run;
      if !radioOk {
        state := Error;
        mixed := mixed || leaving;
        return false;
      }
      Reset();
      state := Configured;
      return true;
    }

    predicate Unchanged(run: nat, r: Role, s: State)
      reads this
    {
      runId == run && role == r && state == s
    }

    /** `arm`: refused outside CONFIGURED with nothing changed. */
    method Arm() returns (ok: bool)
      requires Valid()
      modifies this
      ensures Valid() && ok == (old(state) == Configured)
      ensures Unchanged(old(runId), old(role), if ok then Armed else old(state))
      ensures if ok then handled == 0 && runs == [] else handled == old(handled) && runs == old(runs)
    {
      if state != Configured {
        return false;
      }
      Reset();
      state := Armed;
      return true;
    }

    /** `start`, whose generator may fail to come up. */
    method Start(created: bool) returns (ok: bool)
      requires Valid()
      modifies this`state
      ensures Valid() && ok == (old(state) == Armed && created)
      ensures state == if old(state) != Armed then old(state) else if created then Running else Error
    {
      if state != Armed {
        return false;
      }
      state := if created then Running else Error;
      return created;
    }

    /** The head of `stop`. */
    method Stop()
      requires Valid()
      modifies this`state
      ensures Valid() && state == if old(state) == Running || old(state) == Armed then Finished else old(state)
    {
      if state == Running || state == Armed {
        state := Finished;
      }
    }

    /** The end of the generator: its check for ERROR. */
    method GeneratorChecks()
      requires Valid()
      modifies this`leaving
      ensures Valid() && leaving == (state != Error)
    {
      leaving := state != Error;
    }

    /** And its last write, whatever the state has become since. */
    method GeneratorWrites()
      requires Valid() && leaving
      modifies this`state, this`leaving
      ensures Valid() && state == Finished && !leaving
    {
      state, leaving := Finished, false;
    }

    /** What `receiver_task` makes of a frame before `metrics_rx`. */
    method Hear(data: seq<byte>) returns (v: Verdict, echo: Codec.Option<seq<byte>>)
      requires Valid()
      modifies this`stale, this`invalid, this`handled, this`runs
      ensures Valid() && Judged(data, runId, state, v)
      ensures runs == old(runs) + (if v.Received? then [v.header.runId] else [])
      ensures stale == old(stale) + Happened(v.Stale?) && invalid == old(invalid) + Happened(v.Invalid?)
      ensures handled == old(handled) + 1
      ensures echo.Some? <==> v.Received? && v.header.packetType == 2 && role == EchoResponder
      ensures echo.Some? ==> Codec.Carries(echo.value, v.header.(packetType := 3))
    {
      handled := handled + 1;
      echo := Codec.None;
      var decoded := Codec.Decode(data);
      if decoded.None? {
        invalid := invalid + 1;
        return Invalid, echo;
      }
      var header := decoded.value;
      assert Decodes(data, header);
      if header.runId != runId || !Measuring(state) {
        stale := stale + 1;
        return Stale, echo;
      }
      v := Received(header);
      runs := runs + [header.runId];
      if role == EchoResponder && header.packetType == PING {
        Codec.EchoRewrite(data, header, data[5 := Codec.ECHO]);
        echo := Codec.Some(data[5 := Codec.ECHO]);
      }
    }

    /** What `receiver_task` makes of any other event. */
    method Note(e: Event) returns (v: Verdict)
      requires Valid()
      modifies this`invalid, this`handled, this`sendSuccess, this`sendFailure
      ensures Valid()
      ensures v == match e case TxOk => Completed(true) case TxFail => Completed(false)
                           case Drop => Invalid case Barrier => Passed
      ensures sendSuccess == old(sendSuccess) + Happened(v == Completed(true))
      ensures sendFailure == old(sendFailure) + Happened(v == Completed(false))
      ensures invalid == old(invalid) + Happened(v.Invalid?) && handled == old(handled) + Happened(e.Drop?)
    {
      v := Passed;
      match e {
        case TxOk =>
          sendSuccess := sendSuccess + 1;
          v := Completed(true);
        case TxFail =>
          sendFailure := sendFailure + 1;
          v := Completed(false);
        case Drop =>
          handled := handled + 1;
          invalid := invalid + 1;
          v := Invalid;
        case Barrier =>
      }
    }
  }

  /** A frame dequeued by `receiver_task`: judged, and recorded in the receive metrics exactly when it is
      received. The echo is the frame handed to the radio, if any. */
  method Dequeue(task: ReceiverTask, metrics: RxHistory, data: seq<byte>, rssi: int8, at: nat, hash: nat)
    returns (v: Verdict, echo: Codec.Option<seq<byte>>)
    requires task.Valid() && metrics.Valid() && |metrics.rx.arrivals| == |task.runs|
    modifies task`stale, task`invalid, task`handled, task`runs
    modifies metrics.rx, metrics.rssi, metrics.rssi.hist
    modifies metrics.rtt, metrics.rtt.rtt, metrics.rtt.rtt.samples
    ensures task.Valid() && metrics.Valid() && |metrics.rx.arrivals| == |task.runs|
    ensures Judged(data, task.runId, task.state, v)
    ensures metrics.View()
         == if v.Received? then Plus(old(metrics.View()), v.header, rssi, at) else old(metrics.View())
    ensures echo.Some? <==> v.Received? && v.header.packetType == 2 && task.role == EchoResponder
    ensures echo.Some? ==> Codec.Carries(echo.value, v.header.(packetType := 3))
  {
    v, echo := task.Hear(data);
    if v.Received? {
      metrics.Receive(v.header, rssi, at, hash);
    }
  }

  /** Received means that the frame lays out a header of one of the 16 streams and of the configured run while that is
      armed, running or finished; stale that only the header is there; and invalid that it is not. */
  lemma JudgedOnTheWire(data: seq<byte>, runId: nat, state: State, v: Verdict)
    requires Judged(data, runId, state, v)
    ensures v.Received? ==>
      && Codec.Laid(data, v.header) && v.header.streamId < 16
      && v.header.runId == runId && state in {Armed, Running, Finished}
    ensures v.Stale? ==>
      && (exists h :: Codec.Laid(data, h) && h.streamId < 16)
      && (forall h | Codec.Laid(data, h) && h.streamId < 16 ::
            !(h.runId == runId && state in {Armed, Running, Finished}))
    ensures v.Invalid? ==> forall h | Codec.Laid(data, h) :: h.streamId >= 16
  {
    match v
    case Received(h) => Codec.OnTheWire(data, h);
    case Stale =>
      var h :| Decodes(data, h) && !(h.runId == runId && Measuring(state));
      Codec.OnTheWire(data, h);
      assert Codec.Laid(data, h) && h.streamId < 16;
      forall k | Codec.Laid(data, k) && k.streamId < 16
        ensures !(k.runId == runId && state in {Armed, Running, Finished})
      {
        Codec.OnTheWire(data, k);
        Codec.OneHeader(data, h, k);
      }
    case Invalid =>
      forall h | Codec.Laid(data, h)
        ensures h.streamId >= 16
      {
        Codec.OnTheWire(data, h);
        assert !Decodes(data, h);
      }
    case _ => assert false;
  }

  /** Every received frame is exactly one of received, stale and invalid. */
  lemma JudgedOnce(data: seq<byte>, runId: nat, state: State, v: Verdict, w: Verdict)
    requires Judged(data, runId, state, v) && Judged(data, runId, state, w)
    ensures v == w
  {
    forall h, k | Decodes(data, h) && Decodes(data, k)
      ensures h == k
    {
      Codec.OneHeader(data, h, k);
    }
  }

  /** A round trip is timed from the stamp the initiator wrote: an echo it receives carries its own ping's
      header with only the type changed, and the ping was of the run being measured. */
  lemma EchoIsTimedFromPing(ping: seq<byte>, h: Codec.Header, echo: seq<byte>, k: Codec.Header,
                            runId: nat, state: State)
    requires Codec.Carries(ping, h) && echo == ping[5 := 3]
    requires Judged(echo, runId, state, Received(k))
    ensures k == h.(packetType := 3) && h.runId == runId
  {
    Codec.EchoRewrite(ping, h, echo);
  }
}
