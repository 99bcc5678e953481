/** The receive half of `g_metrics`: per-stream windows with their totals, signal strength, and round-trip
    times with their jitter, each tied to everything recorded since the last reset. */
module Metrics {
  import opened SequenceWindow
  import opened Loss
  import opened Words
  import Moments
  import Reservoir

  // ----- frames received -----

  function Happened(b: bool): nat {
    if b then 1 else 0
  }

  lemma NextOnStream(arrivals: seq<Arrival>, a: Arrival, k: int)
    ensures OnStream(arrivals + [a], k)
         == if a.stream == k then OnStream(arrivals, k) + [a.sequence] else OnStream(arrivals, k)
  {
    OnStreamAppend(arrivals, a, k);
    assert OnStream(arrivals, k) + [] == OnStream(arrivals, k);
  }

  lemma TotalAppend(n: nat, arrivals: seq<Arrival>, a: Arrival, p: (History, uint32) -> bool)
    requires a.stream < n
    ensures Total(n, arrivals + [a], p)
         == Total(n, arrivals, p) + Happened(p(OnStream(arrivals, a.stream), a.sequence))
  {
    var happened := Happened(p(OnStream(arrivals, a.stream), a.sequence));
    var more: int -> int := k => if k == a.stream then happened else 0;
    forall k | 0 <= k < n
      ensures PerStream(arrivals + [a], p)(k) == PerStream(arrivals, p)(k) + more(k)
    {
      NextOnStream(arrivals, a, k);
      CountAppend(OnStream(arrivals, k), a.sequence, p);
    }
    SumPlus(n, PerStream(arrivals, p), more, PerStream(arrivals + [a], p));
    SumIndicator(n, a.stream);
    if happened == 1 {
      SumSame(n, more, k => if k == a.stream then 1 else 0);
    } else {
      SumZero(n, more);
    }
  }

  /** Each stream's window describes the arrivals on that stream. */
  ghost predicate AllDescribe(streams: seq<Window>, arrivals: seq<Arrival>) {
    && StreamsInRange(|streams|, arrivals)
    && forall k | 0 <= k < |streams| :: Describes(streams[k], OnStream(arrivals, k))
  }

  lemma OneMoreDescribes(streams: seq<Window>, arrivals: seq<Arrival>, a: Arrival)
    requires AllDescribe(streams, arrivals) && a.stream < |streams|
    ensures AllDescribe(streams[a.stream := Observed(streams[a.stream], a.sequence)], arrivals + [a])
  {
    var after := streams[a.stream := Observed(streams[a.stream], a.sequence)];
    forall k | 0 <= k < |after|
      ensures Describes(after[k], OnStream(arrivals + [a], k))
    {
      NextOnStream(arrivals, a, k);
      if k == a.stream {
        ObservedDescribes(streams[k], OnStream(arrivals, k), a.sequence);
      }
    }
  }

  /** One arrival: every window still describes its stream, and the totals grow by what the stream's own
      counters grew. */
  lemma OneMoreArrival(streams: seq<Window>, arrivals: seq<Arrival>, a: Arrival)
    requires AllDescribe(streams, arrivals) && a.stream < |streams|
    ensures var before, n := streams[a.stream], |streams|;
            var after := Observed(before, a.sequence);
            && AllDescribe(streams[a.stream := after], arrivals + [a])
            && Total(n, arrivals + [a], RecentRepeat)
               == Total(n, arrivals, RecentRepeat) + (after.duplicate - before.duplicate)
            && Total(n, arrivals + [a], LateOrReordered)
               == Total(n, arrivals, LateOrReordered) + (after.outOfOrder - before.outOfOrder)
            && before.duplicate <= after.duplicate && before.outOfOrder <= after.outOfOrder
  {
    OneMoreDescribes(streams, arrivals, a);
    TotalAppend(|streams|, arrivals, a, RecentRepeat);
    TotalAppend(|streams|, arrivals, a, LateOrReordered);
    var h := OnStream(arrivals, a.stream);
    CountAppend(h, a.sequence, RecentRepeat);
    CountAppend(h, a.sequence, LateOrReordered);
    ObservedDescribes(streams[a.stream], h, a.sequence);
  }

  class RxMetrics {
    var rxPackets: nat
    var rxBytes: nat
    var firstRx: nat
    var lastRx: nat
    var duplicate: nat
    var outOfOrder: nat
    var streams: seq<Window>
    /** Everything received, in order. */
    ghost var arrivals: seq<Arrival>
    ghost var lengths: seq<nat>
    ghost var times: seq<nat>

    /** Packets and bytes are those of the frames received. */
    ghost predicate Tallied()
      reads `rxPackets, `rxBytes, `lengths
    {
      rxPackets == |lengths| && rxBytes == Moments.Sum(lengths)
    }

    /** The receive window goes from the first frame received to the last. */
    ghost predicate Stamped()
      reads `firstRx, `lastRx, `times
    {
      times != [] ==> firstRx == times[0] && lastRx == times[|times| - 1]
    }

    /** The totals are those of the arrivals, and so are the per-stream counters. */
    ghost predicate Described()
      reads `streams, `arrivals, `duplicate, `outOfOrder
    {
      && AllDescribe(streams, arrivals)
      && duplicate == Total(|streams|, arrivals, RecentRepeat)
      && outOfOrder == Total(|streams|, arrivals, LateOrReordered)
    }

    ghost predicate Valid()
      reads this
    {
      |arrivals| == |lengths| == |times| && Tallied() && Stamped() && Described()
    }

    constructor (n: nat)
      ensures Valid() && arrivals == [] && lengths == [] && times == [] && |streams| == n
    {
      rxPackets, rxBytes, firstRx, lastRx, duplicate, outOfOrder := 0, 0, 0, 0, 0, 0;
      streams := seq(n, _ => Window(false, 0, 0, 0, 0, 0, 0));
      arrivals, lengths, times := [], [], [];
      new;
      SumZero(n, PerStream([], RecentRepeat));
      SumZero(n, PerStream([], LateOrReordered));
    }

    /** The counting part of `metrics_rx`. */
    method Receive(stream: nat, sequence: uint32, length: nat, now: nat)
      requires Valid() && stream < |streams|
      modifies this
      ensures Valid() && |streams| == old(|streams|)
      ensures arrivals == old(arrivals) + [Arrival(stream, sequence)]
      ensures lengths == old(lengths) + [length] && times == old(times) + [now]
    {
      Note(length, now);
      Observe(stream, sequence);
    }

    /** Packets, bytes and the receive window. */
    method Note(length: nat, now: nat)
      requires Tallied() && Stamped() && |lengths| == |times|
      modifies `rxPackets, `rxBytes, `lengths, `firstRx, `lastRx, `times
      ensures Tallied() && Stamped() && lengths == old(lengths) + [length] && times == old(times) + [now]
    {
      Stamp(rxPackets == 0, now);
      Tally(length);
    }

    /** `sequence_observe` on the stream, and what it adds to the totals. */
    method Observe(stream: nat, sequence: uint32)
      requires Described() && stream < |streams|
      modifies this`streams, this`outOfOrder, this`duplicate, this`arrivals
      ensures Described() && |streams| == old(|streams|)
      ensures arrivals == old(arrivals) + [Arrival(stream, sequence)]
    {
      OneMoreArrival(streams, arrivals, Arrival(stream, sequence));
      var before := streams[stream];
      var after := Observed(before, sequence);
      streams := streams[stream := after];
      outOfOrder := outOfOrder + (after.outOfOrder - before.outOfOrder);
      duplicate := duplicate + (after.duplicate - before.duplicate);
      arrivals := arrivals + [Arrival(stream, sequence)];
    }

    method Stamp(first: bool, now: nat)
      requires Stamped() && first == (times == [])
      modifies this`firstRx, this`lastRx, this`times
      ensures Stamped() && times == old(times) + [now]
    {
      if first {
        firstRx := now;
      }
      lastRx := now;
      times := times + [now];
    }

    method Tally(length: nat)
      requires Tallied()
      modifies this`rxPackets, this`rxBytes, this`lengths
      ensures Tallied() && lengths == old(lengths) + [length]
    {
      rxPackets := rxPackets + 1;
      rxBytes := rxBytes + length;
      lengths := lengths + [length];
      assert lengths[..|lengths| - 1] == old(lengths);
    }

    /** `estimated_loss` in `metrics_json`: the missing of all streams, less what came late. */
    method EstimatedLoss() returns (gaps: nat)
      requires Valid()
      ensures gaps == Sum(|streams|, GapsOn(arrivals))
    {
      gaps := 0;
      for i := 0 to |streams|
        invariant gaps == Sum(i, GapsOn(arrivals))
      {
        assert Describes(streams[i], OnStream(arrivals, i));
        gaps := gaps + streams[i].gaps;
      }
    }
  }

  function RxOf(streams: seq<Window>): int -> int {
    k => if 0 <= k < |streams| then streams[k].rx else 0
  }

  function DuplicatesOf(streams: seq<Window>): int -> int {
    k => if 0 <= k < |streams| then streams[k].duplicate else 0
  }

  function OutOfOrderOf(streams: seq<Window>): int -> int {
    k => if 0 <= k < |streams| then streams[k].outOfOrder else 0
  }

  /** The per-stream counters sum to the totals. */
  lemma StreamsSumToTotals(streams: seq<Window>, arrivals: seq<Arrival>)
    requires AllDescribe(streams, arrivals)
    ensures Sum(|streams|, RxOf(streams)) == |arrivals|
    ensures Sum(|streams|, DuplicatesOf(streams)) == Total(|streams|, arrivals, RecentRepeat)
    ensures Sum(|streams|, OutOfOrderOf(streams)) == Total(|streams|, arrivals, LateOrReordered)
  {
    forall k | 0 <= k < |streams|
      ensures RxOf(streams)(k) == SizeOn(arrivals)(k)
      ensures DuplicatesOf(streams)(k) == PerStream(arrivals, RecentRepeat)(k)
      ensures OutOfOrderOf(streams)(k) == PerStream(arrivals, LateOrReordered)(k)
    {
      assert Describes(streams[k], OnStream(arrivals, k));
    }
    SumSame(|streams|, RxOf(streams), SizeOn(arrivals));
    SumSame(|streams|, DuplicatesOf(streams), PerStream(arrivals, RecentRepeat));
    SumSame(|streams|, OutOfOrderOf(streams), PerStream(arrivals, LateOrReordered));
    ArrivalsSplitByStream(|streams|, arrivals);
  }

  // ----- signal strength -----

  /** The histogram bucket of a sample. */
  function Bucket(rssi: int8): nat {
    if rssi + 127 < 0 then 0 else if rssi + 127 > 127 then 127 else rssi + 127
  }

  function Strength(samples: seq<int8>): int {
    if samples == [] then 0 else Strength(samples[..|samples| - 1]) + samples[|samples| - 1]
  }

  function InBucket(samples: seq<int8>, i: int): nat {
    if samples == [] then 0 else InBucket(samples[..|samples| - 1], i) + Happened(Bucket(samples[|samples| - 1]) == i)
  }

  function BucketSizes(samples: seq<int8>): int -> int {
    i => InBucket(samples, i)
  }

  /** The histogram loses no sample. */
  lemma {:induction false} HistogramIsComplete(n: nat, samples: seq<int8>)
    requires n == 128
    ensures Sum(n, BucketSizes(samples)) == |samples|
  {
    if samples == [] {
      SumZero(n, BucketSizes(samples));
    } else {
      var past, last := samples[..|samples| - 1], Bucket(samples[|samples| - 1]);
      HistogramIsComplete(n, past);
      SumPlus(n, BucketSizes(past), k => if k == last then 1 else 0, BucketSizes(samples));
      SumIndicator(n, last);
    }
  }

  function Buckets(hist: seq<nat>): int -> int {
    i => if 0 <= i < |hist| then hist[i] else 0
  }

  /** A histogram of these samples sums to their number. */
  lemma HistogramSums(hist: seq<nat>, samples: seq<int8>)
    requires |hist| == 128 && forall i | 0 <= i < |hist| :: hist[i] == InBucket(samples, i)
    ensures Sum(|hist|, Buckets(hist)) == |samples|
  {
    HistogramIsComplete(|hist|, samples);
    SumSame(|hist|, Buckets(hist), BucketSizes(samples));
  }

  /** A reading falls into its own bucket: the first holds those of -127 dBm and less, the last those of 0 and
      more, and bucket i between them those of i - 127. */
  predicate Falls(rssi: int8, i: nat) {
    if i == 0 then rssi <= -127 else if i == 127 then rssi >= 0 else rssi == i - 127
  }

  function Fallen(samples: seq<int8>, i: nat): set<int> {
    set j | 0 <= j < |samples| && Falls(samples[j], i)
  }

  lemma OwnBucket(rssi: int8, i: nat)
    requires i < 128
    ensures Bucket(rssi) == i <==> Falls(rssi, i)
  {}

  lemma {:induction false} BucketMeaning(samples: seq<int8>, i: nat)
    requires i < 128
    ensures InBucket(samples, i) == |Fallen(samples, i)|
  {
    if samples == [] {
      assert Fallen(samples, i) == {};
    } else {
      var n := |samples| - 1;
      BucketMeaning(samples[..n], i);
      OwnBucket(samples[n], i);
      assert Fallen(samples, i) == Fallen(samples[..n], i) + (if Falls(samples[n], i) then {n} else {});
    }
  }

  /** The sum of the readings adds up over any split of them, and of one reading is it. */
  lemma {:induction false} StrengthAddsUp(s: seq<int8>, t: seq<int8>, x: int8)
    ensures Strength(s + t) == Strength(s) + Strength(t)
    ensures Strength([x]) == x
  {
    assert [x][..0] == [];
    if t == [] {
      assert s + t == s;
    } else {
      assert (s + t)[..|s + t| - 1] == s + t[..|t| - 1];
      StrengthAddsUp(s, t[..|t| - 1], x);
    }
  }

  /** `rssi_min` and `rssi_max`, from their initial values on. */
  function StoredMinimum(samples: seq<int8>): int8 {
    if samples == [] then 127
    else
      var low, last := StoredMinimum(samples[..|samples| - 1]), samples[|samples| - 1];
      if last < low then last else low
  }

  function StoredMaximum(samples: seq<int8>): int8 {
    if samples == [] then -127
    else
      var high, last := StoredMaximum(samples[..|samples| - 1]), samples[|samples| - 1];
      if last > high then last else high
  }

  /** The reported minimum is always that of the samples, because no sample exceeds its initial value. */
  lemma {:induction false} MinimumIsExact(samples: seq<int8>)
    requires samples != []
    ensures exists i :: 0 <= i < |samples| && samples[i] == StoredMinimum(samples)
    ensures forall i | 0 <= i < |samples| :: StoredMinimum(samples) <= samples[i]
  {
    var n := |samples| - 1;
    if n == 0 {
      assert samples[n] == StoredMinimum(samples);
    } else {
      MinimumIsExact(samples[..n]);
      if samples[n] < StoredMinimum(samples[..n]) {
        assert samples[n] == StoredMinimum(samples);
      } else {
        var i :| 0 <= i < n && samples[..n][i] == StoredMinimum(samples[..n]);
        assert samples[i] == StoredMinimum(samples);
      }
    }
  }

  lemma {:induction false} MaximumBounds(samples: seq<int8>)
    ensures StoredMaximum(samples) == -127 || exists i :: 0 <= i < |samples| && samples[i] == StoredMaximum(samples)
    ensures StoredMaximum(samples) >= -127
    ensures forall i | 0 <= i < |samples| :: samples[i] <= StoredMaximum(samples)
  {
    if samples != [] {
      var n := |samples| - 1;
      MaximumBounds(samples[..n]);
      if samples[n] > StoredMaximum(samples[..n]) {
        assert samples[n] == StoredMaximum(samples);
      } else if StoredMaximum(samples) != -127 {
        var i :| 0 <= i < n && samples[..n][i] == StoredMaximum(samples[..n]);
        assert samples[i] == StoredMaximum(samples);
      }
    }
  }

  /** The reported maximum starts at -127, one above the least reading: it is that of the samples if and only
      if some sample is above -128. */
  lemma MaximumExactUnlessAllAtFloor(samples: seq<int8>)
    requires samples != []
    ensures (exists i :: 0 <= i < |samples| && samples[i] == StoredMaximum(samples))
       <==> (exists i :: 0 <= i < |samples| && samples[i] > -128)
  {
    MaximumBounds(samples);
    if i :| 0 <= i < |samples| && samples[i] > -128 {
      assert StoredMaximum(samples) == -127 ==> samples[i] == StoredMaximum(samples);
    }
  }

  class RssiMetrics {
    var count: nat
    var sum: int
    var min: int8
    var max: int8
    const hist: array<nat>
    ghost var samples: seq<int8>

    ghost predicate Valid()
      reads this, hist
    {
      && hist.Length == 128
      && count == |samples|
      && sum == Strength(samples)
      && min == StoredMinimum(samples) && max == StoredMaximum(samples)
      && forall i | 0 <= i < hist.Length :: hist[i] == InBucket(samples, i)
    }

    constructor ()
      ensures Valid() && fresh(hist) && samples == []
    {
      count, sum, min, max := 0, 0, 127, -127;
      hist := new nat[128](i => 0);
      samples := [];
    }

    /** The signal-strength part of `metrics_rx`. */
    method Record(rssi: int8)
      requires Valid()
      modifies this, hist
      ensures Valid() && samples == old(samples) + [rssi]
    {
      count := count + 1;
      sum := sum + rssi;
      if rssi < min {
        min := rssi;
      }
      if rssi > max {
        max := rssi;
      }
      var index: int := rssi as int + 127;
      if index < 0 {
        index := 0;
      }
      if index > 127 {
        index := 127;
      }
      hist[index] := hist[index] + 1;
      samples := samples + [rssi];
      assert samples[..|samples| - 1] == old(samples);
    }
  }

  // ----- round-trip times -----

  /** The round-trip times after one more frame: an echo adds the clamped time since the ping was stamped. */
  function Timed(times: seq<nat>, echo: bool, now: nat, timestamp: nat): seq<nat> {
    if echo && now >= timestamp then times + [Reservoir.Clamp(now - timestamp)] else times
  }

  /** A frame as the round-trip metrics see it. */
  datatype Timing = Timing(echo: bool, now: nat, timestamp: nat)

  function AllTimed(frames: seq<Timing>): seq<nat> {
    if frames == [] then []
    else
      var last := frames[|frames| - 1];
      Timed(AllTimed(frames[..|frames| - 1]), last.echo, last.now, last.timestamp)
  }

  lemma OneMoreTimed(frames: seq<Timing>, f: Timing)
    ensures AllTimed(frames + [f]) == Timed(AllTimed(frames), f.echo, f.now, f.timestamp)
  {
    assert (frames + [f])[..|frames|] == frames;
  }

  function Echoes(frames: seq<Timing>): nat {
    if frames == [] then 0 else Echoes(frames[..|frames| - 1]) + Happened(frames[|frames| - 1].echo)
  }

  /** No echo arrives before its ping was stamped, both by the initiator's clock, so the samples are the echoes
      received, repeats included. */
  lemma {:induction false} OneSamplePerEcho(frames: seq<Timing>)
    requires forall i | 0 <= i < |frames| :: frames[i].echo ==> frames[i].timestamp <= frames[i].now
    ensures |AllTimed(frames)| == Echoes(frames)
  {
    if frames != [] {
      OneSamplePerEcho(frames[..|frames| - 1]);
    }
  }

  /** Round trip k of these samples is that of the k-th echo counted: added to the ping's timestamp it gives the
      time the echo arrived, unless it is too long for 32 bits. */
  ghost predicate Measures(frames: seq<Timing>, samples: seq<nat>) {
    && |samples| == |set j | 0 <= j < |frames| && frames[j].echo && frames[j].timestamp <= frames[j].now|
    && forall i | 0 <= i < |frames| && frames[i].echo && frames[i].timestamp <= frames[i].now ::
         var k := |set j | 0 <= j < i && frames[j].echo && frames[j].timestamp <= frames[j].now|;
         && k < |samples|
         && (if frames[i].now - frames[i].timestamp < 0x1_0000_0000
             then samples[k] + frames[i].timestamp == frames[i].now
             else samples[k] == 0xFFFF_FFFF)
  }

  /** The echoes counted among the first n frames. */
  function CountedEchoes(frames: seq<Timing>, n: nat): set<int>
    requires n <= |frames|
  {
    set j | 0 <= j < n && frames[j].echo && frames[j].timestamp <= frames[j].now
  }

  lemma OneMoreEcho(frames: seq<Timing>, n: nat)
    requires n < |frames|
    ensures |CountedEchoes(frames, n + 1)|
         == |CountedEchoes(frames, n)| + Happened(frames[n].echo && frames[n].timestamp <= frames[n].now)
  {
    var counted := frames[n].echo && frames[n].timestamp <= frames[n].now;
    assert CountedEchoes(frames, n + 1) == CountedEchoes(frames, n) + (if counted then {n} else {});
  }

  lemma EarlierEchoes(frames: seq<Timing>, m: nat, n: nat)
    requires m <= n <= |frames|
    ensures CountedEchoes(frames[..n], m) == CountedEchoes(frames, m)
  {}

  lemma {:induction false} SampleOf(frames: seq<Timing>, i: nat)
    requires i < |frames| && frames[i].echo && frames[i].timestamp <= frames[i].now
    ensures |AllTimed(frames)| == |CountedEchoes(frames, |frames|)|
    ensures |CountedEchoes(frames, i)| < |AllTimed(frames)|
    ensures var d, sample := frames[i].now - frames[i].timestamp, AllTimed(frames)[|CountedEchoes(frames, i)|];
            sample == if d < 0x1_0000_0000 then d else 0xFFFF_FFFF
  {
    var n := |frames| - 1;
    SamplesCounted(frames);
    SamplesCounted(frames[..n]);
    EarlierEchoes(frames, n, n);
    if i < n {
      SampleOf(frames[..n], i);
      EarlierEchoes(frames, i, n);
    }
  }

  lemma {:induction false} SamplesCounted(frames: seq<Timing>)
    ensures |AllTimed(frames)| == |CountedEchoes(frames, |frames|)|
  {
    if frames != [] {
      var n := |frames| - 1;
      SamplesCounted(frames[..n]);
      EarlierEchoes(frames, n, n);
      OneMoreEcho(frames, n);
    }
  }

  /** The round trips of any frames measure them. */
  lemma RoundTripsMeasure(frames: seq<Timing>)
    ensures Measures(frames, AllTimed(frames))
  {
    SamplesCounted(frames);
    forall i | 0 <= i < |frames| && frames[i].echo && frames[i].timestamp <= frames[i].now
      ensures var k, d := |CountedEchoes(frames, i)|, frames[i].now - frames[i].timestamp;
              k < |AllTimed(frames)| && AllTimed(frames)[k] == if d < 0x1_0000_0000 then d else 0xFFFF_FFFF
    {
      SampleOf(frames, i);
    }
  }

  class RttMetrics {
    const rtt: Reservoir.SampleDistribution
    /** Every frame received, as these metrics see it. */
    ghost var frames: seq<Timing>
    var lastRtt: nat
    var jitterSum: nat
    var jitterCount: nat
    var jitterMax: nat

    /** The jitter figures are those of the successive differences of these round-trip times. */
    ghost predicate Differences(inputs: seq<nat>)
      reads `lastRtt, `jitterSum, `jitterCount, `jitterMax
    {
      && jitterSum == Moments.Variation(inputs)
      && jitterMax == Moments.LargestStep(inputs)
      && jitterCount == (if inputs == [] then 0 else |inputs| - 1)
      && (inputs != [] ==> lastRtt == inputs[|inputs| - 1])
    }

    ghost predicate Valid()
      reads this, rtt, rtt.samples
    {
      rtt.Valid() && Differences(rtt.inputs) && rtt.inputs == AllTimed(frames)
    }

    constructor (capacity: nat)
      requires capacity > 0
      ensures Valid() && fresh(rtt) && fresh(rtt.samples) && frames == [] && rtt.samples.Length == capacity
    {
      rtt := new Reservoir.SampleDistribution(capacity);
      lastRtt, jitterSum, jitterCount, jitterMax := 0, 0, 0, 0;
      frames := [];
    }

    /** The round-trip part of `metrics_rx`: an echo received at `now` of a ping sent at `timestamp`. */
    method Time(echo: bool, now: nat, timestamp: nat, hash: nat)
      requires Valid()
      modifies this, rtt, rtt.samples
      ensures Valid() && frames == old(frames) + [Timing(echo, now, timestamp)]
    {
      ghost var past, all := rtt.inputs, frames + [Timing(echo, now, timestamp)];
      OneMoreTimed(frames, Timing(echo, now, timestamp));
      if echo && now >= timestamp {
        Sample(Reservoir.Clamp(now - timestamp), hash);
      }
      assert rtt.inputs == Timed(past, echo, now, timestamp) == AllTimed(all);
      frames := all;
    }

    /** One more round trip. */
    method Sample(bounded: nat, hash: nat)
      requires rtt.Valid() && Differences(rtt.inputs) && bounded <= 0xFFFF_FFFF
      modifies `lastRtt, `jitterSum, `jitterCount, `jitterMax, rtt, rtt.samples
      ensures rtt.Valid() && Differences(rtt.inputs) && rtt.inputs == old(rtt.inputs) + [bounded]
    {
      ghost var past := rtt.inputs;
      var any := rtt.sampleCount != 0;
      assert any == (past != []);
      Jitter(bounded, any, past);
      rtt.Add(bounded, hash);
      assert rtt.inputs == past + [bounded];
    }

    /** Takes the difference to the previous round trip, if there was one. */
    method Jitter(bounded: nat, any: bool, ghost past: seq<nat>)
      requires Differences(past) && any == (past != [])
      modifies this`lastRtt, this`jitterSum, this`jitterCount, this`jitterMax
      ensures Differences(past + [bounded])
    {
      if any {
        var jitter := if bounded > lastRtt then bounded - lastRtt else lastRtt - bounded;
        jitterSum := jitterSum + jitter;
        jitterCount := jitterCount + 1;
        if jitter > jitterMax {
          jitterMax := jitter;
        }
      }
      lastRtt := bounded;
      assert (past + [bounded])[..|past|] == past;
    }

    /** What the report says: the jitter figures and the extremes bracket one another. */
    method JitterReport() returns (count: nat, sum: nat, largest: nat, spread: nat)
      requires Valid() && rtt.inputs != []
      ensures count == |rtt.inputs| - 1
      ensures sum == Moments.Sum(Moments.Steps(rtt.inputs)) && largest == Moments.LargestStep(rtt.inputs)
      ensures Moments.Range(rtt.inputs, rtt.min, rtt.max) && spread == rtt.max - rtt.min
      ensures largest <= spread <= sum <= count * largest
    {
      Moments.JitterBounds(rtt.inputs, rtt.min, rtt.max);
      Moments.JitterIsOfTheSteps(rtt.inputs);
      count, sum, largest, spread := jitterCount, jitterSum, jitterMax, rtt.max - rtt.min;
    }
  }

  /** Every echo counted since the last reset is timed: its sample is the time since its ping was stamped, or the
      largest 32-bit value. */
  lemma RoundTripsRecorded(m: RttMetrics)
    requires m.Valid()
    ensures Measures(m.frames, m.rtt.inputs)
  {
    RoundTripsMeasure(m.frames);
  }
}
