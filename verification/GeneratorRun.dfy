/** What a whole run of the generator amounts to: exact deadlines, contiguous numbering, fair streams, and
    an ordered merge of two schedules under latency-under-load. */
module GeneratorRun {
  import opened Arithmetic
  import opened Schedule
  import opened Generator
  import opened Harness
  import opened Reservoir
  import Loss

  /** Readings of the 64-bit signed timer are below this. */
  const TIMER: nat := 0x8000_0000_0000_0000

  lemma EntryAt(c: Config, start: nat, trace: seq<Request>, i: nat)
    requires Trace(c, start, trace) && i < |trace|
    ensures Entry(c, start, trace[..i], trace[i])
  {
    if c.mode == LatencyLoadMode {
      assert LatencyEntry(c, start, trace[..i], trace[i]);
    } else {
      assert RateEntry(c, start, trace[..i], trace[i]);
    }
  }

  // ----- numbering -----

  /** The sequence numbers accepted on stream k, in order. */
  function Numbers(trace: seq<Request>, k: nat): seq<nat> {
    if trace == [] then []
    else
      var last := trace[|trace| - 1];
      Numbers(trace[..|trace| - 1], k) + (if AcceptedOn(k)(last) then [last.sequence] else [])
  }

  ghost predicate Numbered(trace: seq<Request>) {
    forall i | 0 <= i < |trace| :: trace[i].sequence == Count(trace[..i], AcceptedOn(trace[i].stream)) % SEQUENCES
  }

  function Label(n: nat): nat {
    n % SEQUENCES
  }

  lemma ShorterNumbered(trace: seq<Request>)
    requires Numbered(trace) && trace != []
    ensures Numbered(trace[..|trace| - 1])
    ensures var last := trace[|trace| - 1];
      last.sequence == Label(Count(trace[..|trace| - 1], AcceptedOn(last.stream)))
  {
    var past := trace[..|trace| - 1];
    forall i | 0 <= i < |past|
      ensures past[i].sequence == Count(past[..i], AcceptedOn(past[i].stream)) % SEQUENCES
    {
      assert past[..i] == trace[..i];
    }
  }

  lemma {:induction false} NumberedInOrder(trace: seq<Request>, k: nat, j: nat)
    requires Numbered(trace)
    ensures |Numbers(trace, k)| == Count(trace, AcceptedOn(k))
    ensures j < |Numbers(trace, k)| ==> Numbers(trace, k)[j] == Label(j)
  {
    if trace != [] {
      var past, last := trace[..|trace| - 1], trace[|trace| - 1];
      ShorterNumbered(trace);
      NumberedInOrder(past, k, j);
      if AcceptedOn(k)(last) {
        assert Numbers(trace, k) == Numbers(past, k) + [last.sequence];
      } else {
        assert Numbers(trace, k) == Numbers(past, k);
      }
    }
  }

  lemma EveryTraceIsNumbered(c: Config, start: nat, trace: seq<Request>)
    requires Trace(c, start, trace)
    ensures Numbered(trace)
  {
    forall i | 0 <= i < |trace|
      ensures trace[i].sequence == Count(trace[..i], AcceptedOn(trace[i].stream)) % SEQUENCES
    {
      EntryAt(c, start, trace, i);
    }
  }

  /** On each stream the accepted frames are numbered 0, 1, 2 ... in order (modulo 2^32), as many as that
      stream's submission counter says: no number is skipped for a send that failed, and none is used twice. */
  lemma ContiguousNumbering(c: Config, start: nat, trace: seq<Request>, v: Counters, k: nat)
    requires Trace(c, start, trace) && Tallies(v, trace) && k < MAX_STREAMS
    ensures |Numbers(trace, k)| == v.submittedOn[k]
    ensures forall j | 0 <= j < |Numbers(trace, k)| :: Numbers(trace, k)[j] == j % 0x1_0000_0000
  {
    EveryTraceIsNumbered(c, start, trace);
    NumberedInOrder(trace, k, 0);
    forall j | 0 <= j < |Numbers(trace, k)|
      ensures Numbers(trace, k)[j] == j % SEQUENCES
    {
      NumberedInOrder(trace, k, j);
    }
  }

  // ----- accounting -----

  /** Every request ends in exactly one outcome, none of them a header that does not encode. In scheduled modes
      each leaves one lateness sample, the time its dispatch or its timeout came after its deadline, never
      before it; in saturation none does. */
  lemma RequestsAccounted(c: Config, start: nat, trace: seq<Request>, v: Counters)
    requires InRange(c) && Trace(c, start, trace) && Tallies(v, trace)
    ensures v.requested == v.submitted + v.apiFailure + v.slotTimeout
    ensures forall i | 0 <= i < |trace| :: trace[i].outcome != EncodeFailure
    ensures |v.lateness| == if c.mode == SaturationMode then 0 else v.requested
    ensures forall i | 0 <= i < |v.lateness| ::
              trace[i].deadline <= trace[i].at && v.lateness[i] == if trace[i].at - trace[i].deadline < 0x1_0000_0000
                                then trace[i].at - trace[i].deadline else 0xFFFF_FFFF
  {
    Partition(trace);
    forall i | 0 <= i < |trace|
      ensures trace[i].outcome != EncodeFailure && IsScheduled(trace[i]) == (c.mode != SaturationMode)
      ensures IsScheduled(trace[i]) ==> trace[i].deadline <= trace[i].at
    {
      EntryInRange(c, start, trace, i);
    }
    SamplesOf(trace, c.mode != SaturationMode);
  }

  lemma {:induction false} SamplesOf(trace: seq<Request>, all: bool)
    requires forall i | 0 <= i < |trace| :: trace[i].scheduled == all
    requires forall i | 0 <= i < |trace| :: trace[i].scheduled ==> trace[i].deadline <= trace[i].at
    ensures |Latenesses(trace)| == if all then |trace| else 0
    ensures forall i | 0 <= i < |Latenesses(trace)| ::
              Latenesses(trace)[i] == Clamp(trace[i].at - trace[i].deadline)
  {
    if trace != [] {
      SamplesOf(trace[..|trace| - 1], all);
    }
  }

  lemma EntryInRange(c: Config, start: nat, trace: seq<Request>, i: nat)
    requires InRange(c) && Trace(c, start, trace) && i < |trace|
    ensures trace[i].outcome != EncodeFailure && IsScheduled(trace[i]) == (c.mode != SaturationMode)
    ensures IsScheduled(trace[i]) ==> trace[i].deadline <= trace[i].at
  {
    if c.mode == LatencyLoadMode {
      assert LatencyEntry(c, start, trace[..i], trace[i]);
    } else {
      assert RateEntry(c, start, trace[..i], trace[i]);
      if c.mode != SaturationMode {
        PositiveRate(c);
      }
    }
  }

  function RequestsOn(trace: seq<Request>): int -> int {
    k => if k < 0 then 0 else Count(trace, On(k))
  }

  function AcceptancesOn(trace: seq<Request>): int -> int {
    k => if k < 0 then 0 else Count(trace, AcceptedOn(k))
  }

  /** Summed over the streams, requests and accepted frames are all there are. */
  lemma {:induction false} RequestsSplit(n: nat, trace: seq<Request>)
    requires forall i | 0 <= i < |trace| :: trace[i].stream < n
    ensures Loss.Sum(n, RequestsOn(trace)) == |trace|
  {
    if trace == [] {
      Loss.SumZero(n, RequestsOn(trace));
    } else {
      var past, last := trace[..|trace| - 1], trace[|trace| - 1];
      RequestsSplit(n, past);
      Loss.SumIndicator(n, last.stream);
      Loss.SumPlus(n, RequestsOn(past), k => if k == last.stream then 1 else 0, RequestsOn(trace));
    }
  }

  lemma {:induction false} AcceptancesSplit(n: nat, trace: seq<Request>)
    requires forall i | 0 <= i < |trace| :: trace[i].stream < n
    ensures Loss.Sum(n, AcceptancesOn(trace)) == Count(trace, IsAccepted)
  {
    if trace == [] {
      Loss.SumZero(n, AcceptancesOn(trace));
    } else {
      var past, last := trace[..|trace| - 1], trace[|trace| - 1];
      AcceptancesSplit(n, past);
      if IsAccepted(last) {
        Loss.SumIndicator(n, last.stream);
        Loss.SumPlus(n, AcceptancesOn(past), k => if k == last.stream then 1 else 0, AcceptancesOn(trace));
      } else {
        Loss.SumSame(n, AcceptancesOn(past), AcceptancesOn(trace));
      }
    }
  }

  lemma StreamsInRange(c: Config, start: nat, trace: seq<Request>)
    requires Trace(c, start, trace)
    ensures forall i | 0 <= i < |trace| :: trace[i].stream < MAX_STREAMS
  {
    forall i | 0 <= i < |trace|
      ensures trace[i].stream < MAX_STREAMS
    {
      EntryAt(c, start, trace, i);
    }
  }

  function Entries(s: seq<nat>): int -> int {
    k => if 0 <= k < |s| then s[k] else 0
  }

  /** The per-stream transmit counters sum to the totals the host reads. */
  lemma StreamsSumToTotals(c: Config, start: nat, trace: seq<Request>, v: Counters)
    requires Trace(c, start, trace) && Tallies(v, trace)
    ensures Loss.Sum(|v.requestedOn|, Entries(v.requestedOn)) == v.requested
    ensures Loss.Sum(|v.submittedOn|, Entries(v.submittedOn)) == v.submitted
  {
    StreamsInRange(c, start, trace);
    RequestsSplit(|v.requestedOn|, trace);
    AcceptancesSplit(|v.submittedOn|, trace);
    Loss.SumSame(|v.requestedOn|, Entries(v.requestedOn), RequestsOn(trace));
    Loss.SumSame(|v.submittedOn|, Entries(v.submittedOn), AcceptancesOn(trace));
  }

  lemma PositiveRate(c: Config)
    requires InRange(c) && c.mode != SaturationMode && c.mode != LatencyLoadMode
    ensures 0 < Rate(c) <= 0xF_FFFF_FFF0
  {
    Scaled(c.ratePerStream, 1, c.streams);
    Scaled(c.ratePerStream, c.streams, 16);
  }

  lemma {:induction false} Partition(trace: seq<Request>)
    ensures |trace| == Count(trace, IsAccepted) + Count(trace, IsRefused) + Count(trace, TimedOut)
    ensures |trace| == Count(trace, IsProbe) + Count(trace, IsBackground)
  {
    if trace != [] {
      Partition(trace[..|trace| - 1]);
    }
  }

  lemma {:induction false} AllOrNone(trace: seq<Request>, p: Request -> bool, all: bool)
    requires forall i | 0 <= i < |trace| :: p(trace[i]) == all
    ensures Count(trace, p) == if all then |trace| else 0
  {
    if trace != [] {
      AllOrNone(trace[..|trace| - 1], p, all);
    }
  }

  // ----- fairness -----

  /** The selected requests go round streams 0..n-1 in turn, the others elsewhere. */
  ghost predicate InTurn(trace: seq<Request>, n: nat, selected: Request -> bool) {
    n > 0 && forall i | 0 <= i < |trace| ::
      if selected(trace[i]) then trace[i].stream == Count(trace[..i], selected) % n else trace[i].stream >= n
  }

  function Share(m: nat, n: nat, k: nat): nat
    requires n > 0
  {
    m / n + (if k < m % n then 1 else 0)
  }

  lemma {:induction false} Shares(trace: seq<Request>, n: nat, selected: Request -> bool, k: nat)
    requires InTurn(trace, n, selected) && k < n
    ensures Count(trace, On(k)) == Share(Count(trace, selected), n, k)
  {
    if trace == [] {
      DivMod(0, n, 0, 0);
    } else {
      var m := |trace| - 1;
      assert forall i | 0 <= i < m :: trace[..m][..i] == trace[..i];
      Shares(trace[..m], n, selected, k);
      NextShare(Count(trace[..m], selected), n, k);
    }
  }

  lemma NextShare(m: nat, n: nat, k: nat)
    requires k < n
    ensures Share(m + 1, n, k) == Share(m, n, k) + (if k == m % n then 1 else 0)
  {
    Quotient(m, n);
    var q, r := m / n, m % n;
    Distribute(n, q);
    if r + 1 < n {
      DivMod(m + 1, n, q, r + 1);
    } else {
      DivMod(m + 1, n, q + 1, 0);
    }
  }

  lemma {:induction false} NoneOn(trace: seq<Request>, k: nat)
    requires forall i | 0 <= i < |trace| :: trace[i].stream != k
    ensures Count(trace, On(k)) == 0
  {
    if trace != [] {
      NoneOn(trace[..|trace| - 1], k);
    }
  }

  /** Round robin is fair: the requests of any two configured streams differ by at most one, the lower
      numbered ahead, and no other stream is used. */
  lemma Fairness(c: Config, start: nat, trace: seq<Request>, v: Counters, j: nat, k: nat)
    requires InRange(c) && c.mode != LatencyLoadMode && RateTrace(c, start, trace) && Tallies(v, trace)
    requires j < k < MAX_STREAMS
    ensures k < c.streams ==> v.requestedOn[k] <= v.requestedOn[j] <= v.requestedOn[k] + 1
    ensures k >= c.streams ==> v.requestedOn[k] == 0
  {
    forall i | 0 <= i < |trace|
      ensures trace[i].stream == i % c.streams
    {
      assert RateEntry(c, start, trace[..i], trace[i]);
    }
    if k < c.streams {
      var all := (r: Request) => true;
      forall i | 0 <= i < |trace|
        ensures Count(trace[..i], all) == i
      {
        AllOrNone(trace[..i], all, true);
      }
      Shares(trace, c.streams, all, j);
      Shares(trace, c.streams, all, k);
    } else {
      NoneOn(trace, k);
    }
  }

  /** Under latency-under-load the last stream carries the probes and nothing else, and the background
      frames go fairly round the streams below it. */
  lemma LatencyStreams(c: Config, start: nat, trace: seq<Request>, v: Counters, j: nat, k: nat)
    requires InRange(c) && c.mode == LatencyLoadMode && LatencyTrace(c, start, trace) && Tallies(v, trace)
    requires j < k < MAX_STREAMS
    ensures forall i | 0 <= i < |trace| :: trace[i].stream == MAX_STREAMS - 1 <==> trace[i].kind == Ping
    ensures k < BackgroundStreams(c) ==> v.requestedOn[k] <= v.requestedOn[j] <= v.requestedOn[k] + 1
    ensures BackgroundStreams(c) <= k < MAX_STREAMS - 1 ==> v.requestedOn[k] == 0
  {
    var n := BackgroundStreams(c);
    forall i | 0 <= i < |trace|
      ensures if IsBackground(trace[i]) then trace[i].stream == Count(trace[..i], IsBackground) % n
              else trace[i].stream == MAX_STREAMS - 1 && trace[i].kind == Ping
    {
      assert LatencyEntry(c, start, trace[..i], trace[i]);
    }
    if k < n {
      Shares(trace, n, IsBackground, j);
      Shares(trace, n, IsBackground, k);
    } else if k < MAX_STREAMS - 1 {
      NoneOn(trace, k);
    }
  }

  // ----- deadlines -----

  /** Each request takes at least a microsecond, so there are no more of them than microseconds. */
  lemma {:induction false} OnePerMicrosecond(c: Config, start: nat, trace: seq<Request>, i: nat)
    requires Trace(c, start, trace) && i < |trace|
    ensures start + i <= trace[i].head < start + c.durationUs
  {
    EntryAt(c, start, trace, i);
    if i > 0 {
      OnePerMicrosecond(c, start, trace, i - 1);
    }
  }

  /** With the accepted durations no deadline computation wraps, whatever the rate. */
  lemma DeadlineIsExact(start: nat, k: nat, rate: nat)
    requires 0 < rate <= WRAP && start < TIMER && k < 86_400_000_000
    ensures Deadline(start, k, rate) == Due(start, k, rate) == start + Exact(k, rate)
  {
    Quotient(k * SECOND, rate);
    var q := Exact(k, rate);
    assert q <= k * SECOND by {
      Scaled(q, 1, rate);
    }
    ExactUnlessWrapped(start, k, rate);
    if k == 0 {
      QuotientBelow(0, rate, 1);
    }
  }

  /** A paced run is on the exact schedule: request i waits for `start + i * 10^6 / rate`, never for more
      than a second, and the run makes at most the rounded-up number of periods plus one requests. */
  lemma OnSchedule(c: Config, start: nat, trace: seq<Request>, i: nat)
    requires InRange(c) && c.mode != LatencyLoadMode && c.mode != SaturationMode && start < TIMER
    requires RateTrace(c, start, trace) && i < |trace|
    ensures Rate(c) > 0 && trace[i].deadline == start + Exact(i, Rate(c)) <= trace[i].at
    ensures trace[i].deadline <= trace[i].head + CeilDiv(SECOND, Rate(c)) <= trace[i].head + SECOND
    ensures |trace| <= CeilDiv(c.durationUs * Rate(c), SECOND) + 1
  {
    PositiveRate(c);
    Spacing(0, Rate(c));
    assert RateEntry(c, start, trace[..i], trace[i]);
    OnePerMicrosecond(c, start, trace, i);
    DeadlineIsExact(start, i, Rate(c));
    if i > 0 {
      Previous(c, start, trace, i);
      Spacing(i - 1, Rate(c));
    } else {
      QuotientBelow(0, Rate(c), 1);
    }
    if |trace| > 1 {
      Previous(c, start, trace, |trace| - 1);
      IndexBound(|trace| - 2, Rate(c), c.durationUs);
    }
  }

  lemma Previous(c: Config, start: nat, trace: seq<Request>, i: nat)
    requires InRange(c) && c.mode != LatencyLoadMode && c.mode != SaturationMode && start < TIMER
    requires RateTrace(c, start, trace) && 0 < i < |trace|
    ensures Rate(c) > 0 && start + Exact(i - 1, Rate(c)) <= trace[i].head < start + c.durationUs
  {
    PositiveRate(c);
    OnePerMicrosecond(c, start, trace, i - 1);
    DeadlineIsExact(start, i - 1, Rate(c));
    assert RateEntry(c, start, trace[..i], trace[i]);
    assert RateEntry(c, start, trace[..i - 1], trace[i - 1]);
    assert trace[..i][i - 1] == trace[i - 1];
  }

  // ----- the merge of two schedules -----

  function Probes(trace: seq<Request>, i: nat): nat
    requires i <= |trace|
  {
    Count(trace[..i], IsProbe)
  }

  function Backgrounds(trace: seq<Request>, i: nat): nat
    requires i <= |trace|
  {
    Count(trace[..i], IsBackground)
  }

  lemma CountsAt(trace: seq<Request>, i: nat)
    requires i < |trace|
    ensures Probes(trace, i) + Backgrounds(trace, i) == i
    ensures Probes(trace, i + 1) == Probes(trace, i) + (if IsProbe(trace[i]) then 1 else 0)
    ensures Backgrounds(trace, i + 1) == Backgrounds(trace, i) + (if IsProbe(trace[i]) then 0 else 1)
  {
    Partition(trace[..i]);
    assert trace[..i + 1] == trace[..i] + [trace[i]];
    CountAppend(trace[..i], trace[i], IsProbe);
    CountAppend(trace[..i], trace[i], IsBackground);
  }

  /** The earlier of the two exact schedules' next deadlines at loop head i. */
  function NextDue(c: Config, trace: seq<Request>, i: nat): nat
    requires c.probeRate > 0 && c.backgroundRate > 0 && i <= |trace|
  {
    Earlier(Exact(Probes(trace, i), c.probeRate), Exact(Backgrounds(trace, i), c.backgroundRate))
  }

  function Earlier(x: nat, y: nat): nat {
    if x <= y then x else y
  }

  /** Each request takes the earlier of the two exact schedules' next deadlines, the probe's on a tie; none
      is skipped, because a schedule's next deadline is the one after those it has used. */
  lemma Merged(c: Config, start: nat, trace: seq<Request>, i: nat)
    requires InRange(c) && c.mode == LatencyLoadMode && start < TIMER
    requires LatencyTrace(c, start, trace) && i < |trace|
    ensures trace[i].deadline == start + NextDue(c, trace, i) <= trace[i].at
    ensures IsProbe(trace[i]) <==>
            Exact(Probes(trace, i), c.probeRate) <= Exact(Backgrounds(trace, i), c.backgroundRate)
  {
    OnePerMicrosecond(c, start, trace, i);
    CountsAt(trace, i);
    DeadlineIsExact(start, Probes(trace, i), c.probeRate);
    DeadlineIsExact(start, Backgrounds(trace, i), c.backgroundRate);
    assert LatencyEntry(c, start, trace[..i], trace[i]);
  }

  ghost predicate InStep(p: nat, probeRate: nat, b: nat, backgroundRate: nat)
    requires probeRate > 0 && backgroundRate > 0
  {
    && (p > 0 ==> Exact(p - 1, probeRate) <= Exact(b, backgroundRate))
    && (b > 0 ==> (b - 1) * probeRate < p * backgroundRate)
  }

  lemma AfterRequest(p: nat, pr: nat, b: nat, br: nat, probe: bool)
    requires pr > 0 && br > 0 && InStep(p, pr, b, br)
    requires probe <==> Exact(p, pr) <= Exact(b, br)
    ensures if probe then InStep(p + 1, pr, b, br) else InStep(p, pr, b + 1, br)
  {
    if probe {
      Scaled(br, p, p + 1);
    } else {
      Ordered(b, b + 1, br);
      LaterFloor(p, pr, b, br);
    }
  }

  /** Neither schedule runs ahead of the other: at every loop head, after p probes and b background frames,
      the last probe was due no later than the next background frame, and `(b-1) * probeRate < p * backgroundRate`. */
  lemma {:induction false} NeitherRunsAhead(c: Config, start: nat, trace: seq<Request>, i: nat)
    requires InRange(c) && c.mode == LatencyLoadMode && start < TIMER
    requires LatencyTrace(c, start, trace) && i <= |trace|
    ensures InStep(Probes(trace, i), c.probeRate, Backgrounds(trace, i), c.backgroundRate)
  {
    if i == 0 {
      assert Probes(trace, 0) == Backgrounds(trace, 0) == 0;
    } else {
      NeitherRunsAhead(c, start, trace, i - 1);
      Merged(c, start, trace, i - 1);
      CountsAt(trace, i - 1);
      AfterRequest(Probes(trace, i - 1), c.probeRate, Backgrounds(trace, i - 1), c.backgroundRate,
                   IsProbe(trace[i - 1]));
    }
  }

  lemma LaterFloor(p: nat, pr: nat, b: nat, br: nat)
    requires pr > 0 && br > 0 && Exact(p, pr) > Exact(b, br)
    ensures b * pr < p * br
  {
    var f, g := Exact(p, pr), Exact(b, br);
    NoDrift(p, pr);
    NoDrift(b, br);
    Scaled(br, g + 1, f);
    CrossDivided(p, pr, b, br, f);
  }

  lemma CrossDivided(p: nat, pr: nat, b: nat, br: nat, f: nat)
    requires pr > 0 && br > 0 && b * SECOND < br * f && pr * f <= p * SECOND
    ensures b * pr < p * br
  {
    StrictlyScaled(pr, b * SECOND, br * f);
    Scaled(br, pr * f, p * SECOND);
    Regroup(b, SECOND, pr);
    Regroup(br, f, pr);
    Regroup(p, SECOND, br);
    Regroup(pr, f, br);
    Scaled(SECOND, p * br, b * pr);
  }

  lemma NextEarlier(p: nat, pr: nat, b: nat, br: nat)
    requires pr > 0 && br > 0
    ensures var now := Earlier(Exact(p, pr), Exact(b, br));
            if Exact(p, pr) <= Exact(b, br) then now <= Earlier(Exact(p + 1, pr), Exact(b, br)) <= now + SECOND
            else now <= Earlier(Exact(p, pr), Exact(b + 1, br)) <= now + SECOND
  {
    Spacing(p, pr);
    Spacing(b, br);
  }

  lemma DueGrows(c: Config, start: nat, trace: seq<Request>, i: nat)
    requires InRange(c) && c.mode == LatencyLoadMode && start < TIMER
    requires LatencyTrace(c, start, trace) && i < |trace|
    ensures NextDue(c, trace, i) <= NextDue(c, trace, i + 1) <= NextDue(c, trace, i) + SECOND
  {
    Merged(c, start, trace, i);
    CountsAt(trace, i);
    NextEarlier(Probes(trace, i), c.probeRate, Backgrounds(trace, i), c.backgroundRate);
  }

  lemma FirstDue(c: Config, trace: seq<Request>)
    requires c.probeRate > 0 && c.backgroundRate > 0
    ensures NextDue(c, trace, 0) == 0
  {
    QuotientBelow(0, c.probeRate, 1);
  }

  lemma HeadAfter(c: Config, start: nat, trace: seq<Request>, i: nat)
    requires Trace(c, start, trace) && i < |trace|
    ensures start <= trace[i].head && (i > 0 ==> trace[i - 1].at <= trace[i].head)
  {
    EntryAt(c, start, trace, i);
    assert i > 0 ==> trace[..i][i - 1] == trace[i - 1];
  }

  /** The deadlines used never go back, and no wait exceeds a second. */
  lemma MergeIsOrdered(c: Config, start: nat, trace: seq<Request>, i: nat)
    requires InRange(c) && c.mode == LatencyLoadMode && start < TIMER
    requires LatencyTrace(c, start, trace) && i < |trace|
    ensures trace[i].deadline <= trace[i].head + SECOND
    ensures i > 0 ==> trace[i - 1].deadline <= trace[i].deadline
  {
    Merged(c, start, trace, i);
    HeadAfter(c, start, trace, i);
    if i == 0 {
      FirstDue(c, trace);
    } else {
      Merged(c, start, trace, i - 1);
      DueGrows(c, start, trace, i - 1);
    }
  }

  // ----- each stream's own schedule -----

  /** Deadline j * n of n streams together is deadline j of one. */
  lemma OneOfMany(j: nat, rate: nat, n: nat)
    requires rate > 0 && n > 0
    ensures rate * n > 0 && Exact(j * n, rate * n) == (j * 1_000_000) / rate
  {
    CancelFactor(j * 1_000_000, rate, n);
    Regroup(j, n, 1_000_000);
  }

  lemma TurnOf(i: nat, j: nat, k: nat, n: nat)
    requires k < n && i == j * n + k
    ensures i % n == k
  {
    assert j * n == n * j;
    DivMod(i, n, j, k);
  }

  lemma Turn(c: Config, start: nat, trace: seq<Request>, i: nat)
    requires InRange(c) && c.mode != LatencyLoadMode && RateTrace(c, start, trace) && i < |trace|
    ensures trace[i].stream == i % c.streams && trace[i].size == c.packetSize
    ensures trace[i].kind == Ping <==> c.mode == PingMode
    ensures trace[i].scheduled <==> c.mode != SaturationMode
  {
    assert RateEntry(c, start, trace[..i], trace[i]);
    if c.mode != SaturationMode {
      PositiveRate(c);
    }
  }

  lemma DueAt(c: Config, start: nat, trace: seq<Request>, i: nat, rate: nat)
    requires InRange(c) && c.mode != LatencyLoadMode && c.mode != SaturationMode && start < TIMER
    requires RateTrace(c, start, trace) && i < |trace| && rate == c.ratePerStream * c.streams
    ensures rate > 0 && trace[i].deadline == start + Exact(i, rate)
  {
    OnSchedule(c, start, trace, i);
  }

  /** Streams take turns, each on its own schedule at its configured rate: in every paced mode its request j is
      due `j * 10^6 / ratePerStream` after the start for stream 0, and for stream k the streams before it later
      on the common schedule of all of them. In saturation they take the same turns without deadlines. Frames
      are pings in ping mode only, and all of the configured size. */
  lemma StreamSchedule(c: Config, start: nat, trace: seq<Request>, i: nat, j: nat, k: nat)
    requires InRange(c) && c.mode != LatencyLoadMode && start < TIMER && RateTrace(c, start, trace)
    requires k < c.streams && i == j * c.streams + k < |trace|
    ensures trace[i].stream == k && trace[i].size == c.packetSize && (trace[i].kind == Ping <==> c.mode == PingMode)
    ensures trace[i].scheduled <==> c.mode != SaturationMode
    ensures c.mode != SaturationMode ==>
      && c.ratePerStream * c.streams > 0
      && trace[i].deadline == start + (i * 1_000_000) / (c.ratePerStream * c.streams)
      && (k == 0 ==> trace[i].deadline == start + (j * 1_000_000) / c.ratePerStream)
  {
    Turn(c, start, trace, i);
    TurnOf(i, j, k, c.streams);
    if c.mode != SaturationMode {
      var rate := c.ratePerStream * c.streams;
      DueAt(c, start, trace, i, rate);
      if k == 0 {
        OneOfMany(j, c.ratePerStream, c.streams);
      }
    }
  }

  // ----- the counts in plain terms -----

  /** The requests satisfying p, by position. */
  function Where(trace: seq<Request>, p: Request -> bool): set<int> {
    set i | 0 <= i < |trace| && p(trace[i])
  }

  lemma {:induction false} CountIsCardinality(trace: seq<Request>, p: Request -> bool)
    ensures Count(trace, p) == |Where(trace, p)|
  {
    if trace == [] {
      assert Where(trace, p) == {};
    } else {
      var n := |trace| - 1;
      CountIsCardinality(trace[..n], p);
      assert Where(trace, p) == Where(trace[..n], p) + (if p(trace[n]) then {n} else {});
    }
  }

  lemma AcceptedCount(trace: seq<Request>)
    ensures Count(trace, IsAccepted) == |set i | 0 <= i < |trace| && trace[i].outcome == Accepted|
  {
    CountIsCardinality(trace, IsAccepted);
    assert Where(trace, IsAccepted) == set i | 0 <= i < |trace| && trace[i].outcome == Accepted;
  }

  lemma RefusedCount(trace: seq<Request>)
    ensures Count(trace, IsRefused) == |set i | 0 <= i < |trace| && trace[i].outcome in {EncodeFailure, ApiFailure}|
  {
    CountIsCardinality(trace, IsRefused);
    assert Where(trace, IsRefused) == set i | 0 <= i < |trace| && trace[i].outcome in {EncodeFailure, ApiFailure};
  }

  lemma TimedOutCount(trace: seq<Request>)
    ensures Count(trace, TimedOut) == |set i | 0 <= i < |trace| && trace[i].outcome == SlotTimeout|
  {
    CountIsCardinality(trace, TimedOut);
    assert Where(trace, TimedOut) == set i | 0 <= i < |trace| && trace[i].outcome == SlotTimeout;
  }

  lemma StreamCount(trace: seq<Request>, k: nat)
    ensures Count(trace, On(k)) == |set i | 0 <= i < |trace| && trace[i].stream == k|
  {
    CountIsCardinality(trace, On(k));
    assert Where(trace, On(k)) == set i | 0 <= i < |trace| && trace[i].stream == k;
  }

  lemma AcceptedStreamCount(trace: seq<Request>, k: nat)
    ensures Count(trace, AcceptedOn(k))
         == |set i | 0 <= i < |trace| && trace[i].stream == k && trace[i].outcome == Accepted|
  {
    CountIsCardinality(trace, AcceptedOn(k));
    assert Where(trace, AcceptedOn(k))
        == set i | 0 <= i < |trace| && trace[i].stream == k && trace[i].outcome == Accepted;
  }

  /** The counters a run reports: all its requests, those accepted, those refused, those whose slot wait timed
      out, and stream by stream. */
  lemma CountersInPlainTerms(c: Config, start: nat, trace: seq<Request>, v: Counters, k: nat)
    requires Trace(c, start, trace) && Tallies(v, trace) && k < 16
    ensures v.requested == |trace|
    ensures v.submitted == |set i | 0 <= i < |trace| && trace[i].outcome == Accepted|
    ensures v.apiFailure == |set i | 0 <= i < |trace| && trace[i].outcome in {EncodeFailure, ApiFailure}|
    ensures v.slotTimeout == |set i | 0 <= i < |trace| && trace[i].outcome == SlotTimeout|
    ensures v.requestedOn[k] == |set i | 0 <= i < |trace| && trace[i].stream == k|
    ensures v.submittedOn[k] == |set i | 0 <= i < |trace| && trace[i].stream == k && trace[i].outcome == Accepted|
  {
    AcceptedCount(trace);
    RefusedCount(trace);
    TimedOutCount(trace);
    StreamCount(trace, k);
    AcceptedStreamCount(trace, k);
  }

  /** How many of the requests before position i are of this kind. */
  function Before(trace: seq<Request>, i: nat, kind: Kind): nat
    requires i <= |trace|
  {
    |set j | 0 <= j < i && trace[j].kind == kind|
  }

  lemma KindsBefore(trace: seq<Request>, i: nat)
    requires i < |trace|
    ensures Before(trace, i, Ping) == Probes(trace, i) && Before(trace, i, Stream) == Backgrounds(trace, i)
    ensures Before(trace, i, Ping) + Before(trace, i, Stream) == i
  {
    CountsAt(trace, i);
    CountIsCardinality(trace[..i], IsProbe);
    CountIsCardinality(trace[..i], IsBackground);
    assert Where(trace[..i], IsProbe) == set j | 0 <= j < i && trace[j].kind == Ping;
    assert Where(trace[..i], IsBackground) == set j | 0 <= j < i && trace[j].kind == Stream;
  }

  /** Under latency-under-load, with p probes and b background frames requested before it, a request is the probe
      due `p * 10^6 / probeRate` after the start, on stream 15, unless the background frame due
      `b * 10^6 / backgroundRate` after it comes first; those go round the streams configured, 15 at most. */
  lemma MergedInPlainTerms(c: Config, start: nat, trace: seq<Request>, i: nat, p: nat, b: nat)
    requires InRange(c) && c.mode == LatencyLoadMode && start < TIMER
    requires LatencyTrace(c, start, trace) && i < |trace|
    requires p == Before(trace, i, Ping) && b == Before(trace, i, Stream)
    ensures c.probeRate > 0 && c.backgroundRate > 0 && c.streams > 0 && p + b == i
    ensures trace[i].kind == Ping <==> (p * 1_000_000) / c.probeRate <= (b * 1_000_000) / c.backgroundRate
    ensures trace[i].kind == Ping ==>
      && trace[i].stream == 15 && trace[i].size == c.packetSize
      && trace[i].deadline == start + (p * 1_000_000) / c.probeRate
    ensures trace[i].kind == Stream ==>
      && trace[i].stream == b % (if c.streams < 15 then c.streams else 15) && trace[i].size == c.backgroundSize
      && trace[i].deadline == start + (b * 1_000_000) / c.backgroundRate
  {
    KindsBefore(trace, i);
    assert LatencyEntry(c, start, trace[..i], trace[i]);
    Merged(c, start, trace, i);
  }

  // ----- bytes and instants -----

  lemma ShorterTrace(c: Config, start: nat, trace: seq<Request>)
    requires Trace(c, start, trace) && trace != []
    ensures Trace(c, start, trace[..|trace| - 1])
  {
    var past := trace[..|trace| - 1];
    forall i | 0 <= i < |past|
      ensures past[..i] == trace[..i] && past[i] == trace[i]
    {}
  }

  function AcceptedKind(kind: Kind): Request -> bool {
    (r: Request) => r.kind == kind && r.outcome == Accepted
  }

  /** The bytes sent are the configured size for every accepted frame. */
  lemma {:induction false} BytesSent(c: Config, start: nat, trace: seq<Request>)
    requires c.mode != LatencyLoadMode && RateTrace(c, start, trace)
    ensures SentBy(trace).bytes == c.packetSize * Count(trace, IsAccepted)
  {
    if trace != [] {
      var n := |trace| - 1;
      ShorterTrace(c, start, trace);
      BytesSent(c, start, trace[..n]);
      assert RateEntry(c, start, trace[..n], trace[n]);
      Distribute(c.packetSize, Count(trace[..n], IsAccepted));
    }
  }

  /** Under latency-under-load they are the probes' size for each accepted probe and the background size for each
      accepted background frame. */
  lemma {:induction false} MixedBytesSent(c: Config, start: nat, trace: seq<Request>)
    requires c.mode == LatencyLoadMode && LatencyTrace(c, start, trace)
    ensures SentBy(trace).bytes
         == c.packetSize * Count(trace, AcceptedKind(Ping)) + c.backgroundSize * Count(trace, AcceptedKind(Stream))
  {
    if trace != [] {
      var n := |trace| - 1;
      ShorterTrace(c, start, trace);
      MixedBytesSent(c, start, trace[..n]);
      assert LatencyEntry(c, start, trace[..n], trace[n]);
      Distribute(c.packetSize, Count(trace[..n], AcceptedKind(Ping)));
      Distribute(c.backgroundSize, Count(trace[..n], AcceptedKind(Stream)));
    }
  }

  /** The last dispatch instant is that of the last frame accepted, and the first, on a timer past 0, that of
      the first. */
  lemma {:induction false} InstantsSent(trace: seq<Request>, i: nat)
    requires i < |trace| && trace[i].outcome == Accepted
    requires forall j | 0 <= j < |trace| :: trace[j].at > 0
    ensures (forall j | i < j < |trace| :: trace[j].outcome != Accepted) ==> SentBy(trace).last == trace[i].at
    ensures (forall j | 0 <= j < i :: trace[j].outcome != Accepted) ==> SentBy(trace).first == trace[i].at
  {
    var n := |trace| - 1;
    if i < n {
      InstantsSent(trace[..n], i);
    } else if forall j | 0 <= j < n :: trace[j].outcome != Accepted {
      NothingSent(trace[..n]);
    }
  }

  lemma {:induction false} NothingSent(trace: seq<Request>)
    requires forall j | 0 <= j < |trace| :: trace[j].outcome != Accepted
    ensures SentBy(trace) == Sent(0, 0, 0)
  {
    if trace != [] {
      NothingSent(trace[..|trace| - 1]);
    }
  }
}
