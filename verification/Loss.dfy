/** What the host reports as forward packet loss, and what that number means in terms of
    the frames node A submitted and the arrivals node B processed. */
module Loss {
  import opened Arithmetic
  import opened SequenceWindow
  import opened Words

  datatype Arrival = Arrival(stream: nat, sequence: uint32)

  function Sum(n: nat, f: int -> int): int {
    if n == 0 then 0 else Sum(n - 1, f) + f(n - 1)
  }

  lemma {:induction false} SumPlus(n: nat, f: int -> int, g: int -> int, h: int -> int)
    requires forall k | 0 <= k < n :: h(k) == f(k) + g(k)
    ensures Sum(n, h) == Sum(n, f) + Sum(n, g)
  {
    if n > 0 {
      SumPlus(n - 1, f, g, h);
    }
  }

  lemma {:induction false} SumSame(n: nat, f: int -> int, g: int -> int)
    requires forall k | 0 <= k < n :: f(k) == g(k)
    ensures Sum(n, f) == Sum(n, g)
  {
    if n > 0 {
      SumSame(n - 1, f, g);
    }
  }

  lemma {:induction false} SumNonNegative(n: nat, f: int -> int)
    requires forall k | 0 <= k < n :: f(k) >= 0
    ensures Sum(n, f) >= 0
  {
    if n > 0 {
      SumNonNegative(n - 1, f);
    }
  }

  // ----- the receiver's side -----

  /** The sequence numbers that arrived on stream k, in order. */
  function OnStream(arrivals: seq<Arrival>, k: int): History {
    if arrivals == [] then []
    else
      var last := arrivals[|arrivals| - 1];
      OnStream(arrivals[..|arrivals| - 1], k) + (if last.stream == k then [last.sequence] else [])
  }

  function PerStream(arrivals: seq<Arrival>, p: (History, uint32) -> bool): int -> int {
    k => Count(OnStream(arrivals, k), p)
  }

  /** The total of a per-stream arrival count over all streams. */
  function Total(n: nat, arrivals: seq<Arrival>, p: (History, uint32) -> bool): int {
    Sum(n, PerStream(arrivals, p))
  }

  predicate StreamsInRange(n: nat, arrivals: seq<Arrival>) {
    forall i | 0 <= i < |arrivals| :: arrivals[i].stream < n
  }

  function SizeOn(arrivals: seq<Arrival>): int -> int {
    k => |OnStream(arrivals, k)|
  }

  lemma {:induction false} ArrivalsSplitByStream(n: nat, arrivals: seq<Arrival>)
    requires StreamsInRange(n, arrivals)
    ensures Sum(n, SizeOn(arrivals)) == |arrivals|
  {
    if arrivals == [] {
      SumZero(n, SizeOn(arrivals));
    } else {
      var past, last := arrivals[..|arrivals| - 1], arrivals[|arrivals| - 1];
      ArrivalsSplitByStream(n, past);
      SumPlus(n, SizeOn(past), k => if k == last.stream then 1 else 0, SizeOn(arrivals));
      SumIndicator(n, last.stream);
    }
  }

  lemma {:induction false} SumZero(n: nat, f: int -> int)
    requires forall k | 0 <= k < n :: f(k) == 0
    ensures Sum(n, f) == 0
  {
    if n > 0 {
      SumZero(n - 1, f);
    }
  }

  lemma {:induction false} SumIndicator(n: nat, s: nat)
    ensures Sum(n, k => if k == s then 1 else 0) == if s < n then 1 else 0
  {
    if n > 0 {
      SumIndicator(n - 1, s);
    }
  }

  /** Every arrival is a first or a repeat, and late or not. */
  lemma {:induction false} ArrivalKinds(h: History)
    ensures |h| == Count(h, RecentFirst) + Count(h, LateFirst) + Count(h, RecentRepeat) + Count(h, LateRepeat)
  {
    if h != [] {
      ArrivalKinds(h[..|h| - 1]);
    }
  }

  // ----- what the host computes -----

  /** `unique_rx` and `loss` in `save`, from A's `tx_submitted` and B's `rx_packets` and `duplicate`. */
  function ReportedLoss(tx: int, rx: int, duplicate: int): int {
    SaturatingSub(tx, SaturatingSub(rx, duplicate))
  }

  /** The loss reported for `sent[k]` frames submitted on stream k and these arrivals processed. */
  function HostLoss(sent: seq<nat>, arrivals: seq<Arrival>): int {
    ReportedLoss(Submitted(sent), |arrivals|, Total(|sent|, arrivals, RecentRepeat))
  }

  function Submitted(sent: seq<nat>): int {
    Sum(|sent|, SentOn(sent))
  }

  function SentOn(sent: seq<nat>): int -> int {
    k => if 0 <= k < |sent| then sent[k] else 0
  }

  // ----- what actually happened -----

  /** The network may lose, repeat and reorder frames but invents none. */
  predicate OnlySubmitted(sent: seq<nat>, arrivals: seq<Arrival>) {
    forall i | 0 <= i < |arrivals| :: arrivals[i].stream < |sent| && arrivals[i].sequence < sent[arrivals[i].stream]
  }

  /** The frames submitted on stream k that were never processed. */
  function UnprocessedAt(sent: seq<nat>, arrivals: seq<Arrival>, k: int): int
    requires 0 <= k < |sent|
  {
    |UpTo(sent[k]) - Distinct(OnStream(arrivals, k))|
  }

  function UnprocessedOn(sent: seq<nat>, arrivals: seq<Arrival>): int -> int {
    k => if 0 <= k < |sent| then UnprocessedAt(sent, arrivals, k) else 0
  }

  function Unprocessed(sent: seq<nat>, arrivals: seq<Arrival>): int {
    Sum(|sent|, UnprocessedOn(sent, arrivals))
  }

  function GapsOn(arrivals: seq<Arrival>): int -> int {
    k => Gaps(OnStream(arrivals, k))
  }

  /** The frames of stream k above the highest one processed. */
  function TrailingAt(sent: seq<nat>, arrivals: seq<Arrival>, k: int): int
    requires 0 <= k < |sent|
  {
    var h := OnStream(arrivals, k);
    if h == [] then sent[k] else sent[k] - 1 - Highest(h)
  }

  function TrailingOn(sent: seq<nat>, arrivals: seq<Arrival>): int -> int {
    k => if 0 <= k < |sent| then TrailingAt(sent, arrivals, k) else 0
  }

  /** The receiver's `missing` over all streams, plus the losses no gap can show. */
  function MissingAndTrailing(sent: seq<nat>, arrivals: seq<Arrival>): int {
    Sum(|sent|, GapsOn(arrivals)) + Sum(|sent|, TrailingOn(sent, arrivals))
  }

  lemma {:induction false} OnStreamBelow(sent: seq<nat>, arrivals: seq<Arrival>, k: int)
    requires OnlySubmitted(sent, arrivals) && 0 <= k < |sent|
    ensures forall s :: s in OnStream(arrivals, k) ==> s < sent[k]
  {
    if arrivals != [] {
      OnStreamBelow(sent, arrivals[..|arrivals| - 1], k);
    }
  }

  lemma UnprocessedStream(sent: seq<nat>, arrivals: seq<Arrival>, k: int)
    requires OnlySubmitted(sent, arrivals) && 0 <= k < |sent|
    ensures UnprocessedAt(sent, arrivals, k) == sent[k] - FirstsOn(arrivals)(k)
  {
    OnStreamBelow(sent, arrivals, k);
    DistinctCount(OnStream(arrivals, k));
    AbsentBelow(OnStream(arrivals, k), sent[k]);
  }

  function FirstsOn(arrivals: seq<Arrival>): int -> int {
    k => Count(OnStream(arrivals, k), RecentFirst) + Count(OnStream(arrivals, k), LateFirst)
  }

  function RepeatsOn(arrivals: seq<Arrival>): int -> int {
    k => Count(OnStream(arrivals, k), RecentRepeat) + Count(OnStream(arrivals, k), LateRepeat)
  }

  lemma FirstsAndRepeats(n: nat, arrivals: seq<Arrival>)
    requires StreamsInRange(n, arrivals)
    ensures |arrivals| == Sum(n, FirstsOn(arrivals)) + Total(n, arrivals, RecentRepeat) + Total(n, arrivals, LateRepeat)
  {
    ArrivalsSplitByStream(n, arrivals);
    forall k ensures SizeOn(arrivals)(k) == FirstsOn(arrivals)(k) + RepeatsOn(arrivals)(k) {
      ArrivalKinds(OnStream(arrivals, k));
    }
    SumPlus(n, FirstsOn(arrivals), RepeatsOn(arrivals), SizeOn(arrivals));
    SumPlus(n, PerStream(arrivals, RecentRepeat), PerStream(arrivals, LateRepeat), RepeatsOn(arrivals));
  }

  lemma SubmittedSplit(sent: seq<nat>, arrivals: seq<Arrival>)
    requires OnlySubmitted(sent, arrivals)
    ensures Submitted(sent) == Unprocessed(sent, arrivals) + Sum(|sent|, FirstsOn(arrivals))
  {
    forall k | 0 <= k < |sent|
      ensures SentOn(sent)(k) == UnprocessedOn(sent, arrivals)(k) + FirstsOn(arrivals)(k)
    {
      UnprocessedStream(sent, arrivals, k);
    }
    SumPlus(|sent|, UnprocessedOn(sent, arrivals), FirstsOn(arrivals), SentOn(sent));
  }

  /** Submitted frames and arrivals balance: the frames never processed, plus the arrivals B does
      not report as duplicates, exceed the submissions by exactly the late repeats. */
  lemma Balance(sent: seq<nat>, arrivals: seq<Arrival>)
    requires OnlySubmitted(sent, arrivals)
    ensures Unprocessed(sent, arrivals) + (|arrivals| - Total(|sent|, arrivals, RecentRepeat))
         == Submitted(sent) + Total(|sent|, arrivals, LateRepeat)
  {
    FirstsAndRepeats(|sent|, arrivals);
    SubmittedSplit(sent, arrivals);
  }

  lemma Signs(sent: seq<nat>, arrivals: seq<Arrival>)
    requires OnlySubmitted(sent, arrivals)
    ensures Unprocessed(sent, arrivals) >= 0
    ensures Total(|sent|, arrivals, LateRepeat) >= 0 && Total(|sent|, arrivals, LateFirst) >= 0
    ensures 0 <= Total(|sent|, arrivals, RecentRepeat) <= |arrivals|
  {
    FirstsAndRepeats(|sent|, arrivals);
    SumNonNegative(|sent|, UnprocessedOn(sent, arrivals));
    SumNonNegative(|sent|, FirstsOn(arrivals));
    SumNonNegative(|sent|, PerStream(arrivals, RecentRepeat));
    SumNonNegative(|sent|, PerStream(arrivals, LateRepeat));
    SumNonNegative(|sent|, PerStream(arrivals, LateFirst));
  }

  /** The reported loss is the number of submitted frames B never processed, less the late repeats. */
  lemma LossMeaning(sent: seq<nat>, arrivals: seq<Arrival>)
    requires OnlySubmitted(sent, arrivals)
    ensures HostLoss(sent, arrivals) == SaturatingSub(Unprocessed(sent, arrivals), Total(|sent|, arrivals, LateRepeat))
    ensures HostLoss(sent, arrivals) <= Unprocessed(sent, arrivals)
    ensures HostLoss(sent, arrivals) == Unprocessed(sent, arrivals)
       <==> Total(|sent|, arrivals, LateRepeat) == 0 || Unprocessed(sent, arrivals) == 0
  {
    Balance(sent, arrivals);
    Signs(sent, arrivals);
  }

  /** The receiver's `missing` plus the trailing loss exceeds the frames never processed by
      exactly the numbers whose first arrival was late. */
  lemma MissingMeaning(sent: seq<nat>, arrivals: seq<Arrival>)
    requires OnlySubmitted(sent, arrivals)
    ensures MissingAndTrailing(sent, arrivals) == Unprocessed(sent, arrivals) + Total(|sent|, arrivals, LateFirst)
  {
    forall k | 0 <= k < |sent|
      ensures MissingOn(sent, arrivals)(k) == UnprocessedOn(sent, arrivals)(k) + PerStream(arrivals, LateFirst)(k)
    {
      MissingAt(sent, arrivals, k);
    }
    SumPlus(|sent|, GapsOn(arrivals), TrailingOn(sent, arrivals), MissingOn(sent, arrivals));
    SumPlus(|sent|, UnprocessedOn(sent, arrivals), PerStream(arrivals, LateFirst), MissingOn(sent, arrivals));
  }

  lemma MissingAt(sent: seq<nat>, arrivals: seq<Arrival>, k: int)
    requires OnlySubmitted(sent, arrivals) && 0 <= k < |sent|
    ensures Gaps(OnStream(arrivals, k)) + TrailingAt(sent, arrivals, k)
         == UnprocessedAt(sent, arrivals, k) + Count(OnStream(arrivals, k), LateFirst)
  {
    UnprocessedStream(sent, arrivals, k);
  }

  function MissingOn(sent: seq<nat>, arrivals: seq<Arrival>): int -> int {
    k => if 0 <= k < |sent| then Gaps(OnStream(arrivals, k)) + TrailingAt(sent, arrivals, k) else 0
  }

  /** The host's loss and the receiver's own account (gaps plus trailing loss) coincide exactly when no
      first arrival was late and late repeats hid no loss; in particular on runs without late arrivals. */
  lemma LossEqualsMissing(sent: seq<nat>, arrivals: seq<Arrival>)
    requires OnlySubmitted(sent, arrivals)
    ensures HostLoss(sent, arrivals) == MissingAndTrailing(sent, arrivals)
       <==> && Total(|sent|, arrivals, LateFirst) == 0
            && (Total(|sent|, arrivals, LateRepeat) == 0 || Unprocessed(sent, arrivals) == 0)
  {
    LossMeaning(sent, arrivals);
    MissingMeaning(sent, arrivals);
    Signs(sent, arrivals);
  }

  /** A repeat that arrives 65 behind is counted as received once more, so of 64 frames that were
      never processed the host reports 63. */
  lemma LateRepeatHidesLoss()
    ensures var sent, arrivals := [66], [Arrival(0, 0), Arrival(0, 65), Arrival(0, 0)];
      && OnlySubmitted(sent, arrivals)
      && Unprocessed(sent, arrivals) == 64
      && HostLoss(sent, arrivals) == 63
  {
    var sent, arrivals := [66], [Arrival(0, 0), Arrival(0, 65), Arrival(0, 0)];
    LateRepeatHistory();
    UnprocessedStream(sent, arrivals, 0);
    SumOne(UnprocessedOn(sent, arrivals));
    SumOne(SentOn(sent));
    SumOne(PerStream(arrivals, RecentRepeat));
  }

  lemma SumOne(f: int -> int)
    ensures Sum(1, f) == f(0)
  {}

  lemma LateRepeatHistory()
    ensures OnStream([Arrival(0, 0), Arrival(0, 65), Arrival(0, 0)], 0) == [0, 65, 0]
    ensures Count([0, 65, 0], RecentFirst) == 2 && Count([0, 65, 0], LateFirst) == 0
    ensures Count([0, 65, 0], RecentRepeat) == 0
  {
    OnStreamAppend([], Arrival(0, 0), 0);
    OnStreamAppend([Arrival(0, 0)], Arrival(0, 65), 0);
    OnStreamAppend([Arrival(0, 0), Arrival(0, 65)], Arrival(0, 0), 0);
    CountOfThree(RecentFirst);
    CountOfThree(LateFirst);
    CountOfThree(RecentRepeat);
  }

  lemma CountOfThree(p: (History, uint32) -> bool)
    ensures Count([0, 65, 0], p)
         == (if p([], 0) then 1 else 0) + (if p([0], 65) then 1 else 0) + (if p([0, 65], 0) then 1 else 0)
  {
    CountAppend([], 0, p);
    CountAppend([0], 65, p);
    CountAppend([0, 65], 0, p);
    assert [] + [0] == [0] && [0] + [65] == [0, 65] && [0, 65] + [0] == [0, 65, 0];
  }

  lemma OnStreamAppend(arrivals: seq<Arrival>, a: Arrival, k: int)
    ensures OnStream(arrivals + [a], k) == OnStream(arrivals, k) + (if a.stream == k then [a.sequence] else [])
  {
    assert (arrivals + [a])[..|arrivals|] == arrivals;
  }

  // ----- the host's probe figures, for one ping stream or latency-under-load -----

  /** `network_or_echo_probe_loss`, from the probe stream's `tx_submitted` and A's round-trip samples. */
  function ReportedProbeLoss(submitted: nat, completed: nat): int {
    SaturatingSub(submitted, completed)
  }

  /** Probes submitted whose echo never came. */
  function Unanswered(submitted: nat, echoes: History): nat {
    |UpTo(submitted) - Distinct(echoes)|
  }

  lemma {:induction false} FirstsAndRepeatsOf(h: History)
    ensures |h| == |Distinct(h)| + Count(h, Repeat)
  {
    if h != [] {
      var past, s := h[..|h| - 1], h[|h| - 1];
      FirstsAndRepeatsOf(past);
      assert h == past + [s];
      assert Distinct(h) == Distinct(past) + {s};
      assert s in Distinct(past) <==> s in past;
      assert |Distinct(h)| == |Distinct(past)| + (if s in past then 0 else 1);
    }
  }

  /** With one round-trip sample for each echo, repeats included, the reported probe loss is the number of
      probes that got no echo less the repeated echoes; it is exact if and only if no echo was repeated or
      every probe was answered. */
  lemma ProbeLossMeaning(submitted: nat, echoes: History)
    requires forall s | s in echoes :: s < submitted
    ensures ReportedProbeLoss(submitted, |echoes|)
         == SaturatingSub(Unanswered(submitted, echoes), Count(echoes, Repeat))
    ensures ReportedProbeLoss(submitted, |echoes|) <= Unanswered(submitted, echoes)
    ensures ReportedProbeLoss(submitted, |echoes|) == Unanswered(submitted, echoes)
       <==> Count(echoes, Repeat) == 0 || Unanswered(submitted, echoes) == 0
  {
    FirstsAndRepeatsOf(echoes);
    AbsentBelow(echoes, submitted);
  }
}
