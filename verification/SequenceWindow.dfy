/** Sequence tracking on one stream: the firmware's sliding 64-bit window and the host's
    set-based tracker, both specified by the history of sequence numbers they observed. */
module SequenceWindow {
  import opened Arithmetic
  import opened Bitmap
  import opened Words

  const WINDOW: nat := 64

  type History = seq<uint32>

  // ----- the vocabulary: one arrival s after a history h -----

  /** The largest sequence number of a non-empty history. */
  function Highest(h: History): (m: uint32)
    requires h != []
    ensures m in h && forall s :: s in h ==> s <= m
  {
    var last := h[|h| - 1];
    assert h == h[..|h| - 1] + [last];
    if |h| == 1 then last
    else if last > Highest(h[..|h| - 1]) then last else Highest(h[..|h| - 1])
  }

  /** s trails the running highest by the width of the window or more. */
  predicate Late(h: History, s: uint32) {
    h != [] && Highest(h) - s >= WINDOW
  }

  predicate Repeat(h: History, s: uint32) {
    s in h
  }

  /** A first arrival below the running highest. */
  predicate Reordered(h: History, s: uint32) {
    h != [] && s !in h && s < Highest(h)
  }

  predicate LateRepeat(h: History, s: uint32) {
    Late(h, s) && s in h
  }

  predicate LateFirst(h: History, s: uint32) {
    Late(h, s) && s !in h
  }

  predicate RecentRepeat(h: History, s: uint32) {
    !Late(h, s) && s in h
  }

  predicate RecentFirst(h: History, s: uint32) {
    !Late(h, s) && s !in h
  }

  predicate LateOrReordered(h: History, s: uint32) {
    Late(h, s) || Reordered(h, s)
  }

  /** How many arrivals of h stood in relation p to the history before them. */
  function Count(h: History, p: (History, uint32) -> bool): (n: nat)
    ensures n <= |h|
  {
    if h == [] then 0
    else Count(h[..|h| - 1], p) + (if p(h[..|h| - 1], h[|h| - 1]) then 1 else 0)
  }

  lemma CountAppend(h: History, s: uint32, p: (History, uint32) -> bool)
    ensures Count(h + [s], p) == Count(h, p) + (if p(h, s) then 1 else 0)
  {
    assert (h + [s])[..|h|] == h;
  }

  lemma HighestAppend(h: History, s: uint32)
    ensures Highest(h + [s]) == if h != [] && s <= Highest(h) then Highest(h) else s
  {
    assert (h + [s])[..|h|] == h;
  }

  function Distinct(h: History): set<uint32> {
    set s | s in h
  }

  // ----- counting distinct numbers -----

  /** The numbers below n. */
  function UpTo(n: nat): (r: set<int>)
    ensures |r| == n && forall s :: s in r <==> 0 <= s < n
  {
    if n == 0 then {} else UpTo(n - 1) + {n - 1}
  }

  lemma SubsetSize<T>(a: set<T>, b: set<T>)
    requires a <= b
    ensures |a| <= |b|
  {
    assert b == a + (b - a);
  }

  lemma {:induction false} DistinctCount(h: History)
    ensures |Distinct(h)| == Count(h, RecentFirst) + Count(h, LateFirst)
  {
    if h != [] {
      var past, s := h[..|h| - 1], h[|h| - 1];
      DistinctCount(past);
      assert h == past + [s];
      assert Distinct(h) == Distinct(past) + {s};
      assert s in Distinct(past) <==> s in past;
      assert |Distinct(h)| == |Distinct(past)| + (if s in past then 0 else 1);
      assert RecentFirst(past, s) || LateFirst(past, s) <==> s !in past;
      assert !(RecentFirst(past, s) && LateFirst(past, s));
    }
  }

  /** A number at or below the highest that was never observed leaves a gap, so the guarded
      decrement of `gaps` never meets zero. */
  lemma HoleMeansGap(h: History, s: uint32)
    requires h != [] && s <= Highest(h) && s !in h
    ensures Count(h, RecentFirst) <= Highest(h)
  {
    DistinctCount(h);
    var all := UpTo(Highest(h) + 1);
    SubsetSize(Distinct(h) + {s}, all);
    assert |Distinct(h) + {s}| == |Distinct(h)| + 1;
  }

  /** Of the numbers below a bound on the history, those absent from it. */
  lemma AbsentBelow(h: History, n: nat)
    requires forall s :: s in h ==> s < n
    ensures |UpTo(n) - Distinct(h)| == n - |Distinct(h)|
  {
    var all := UpTo(n);
    assert all == (all - Distinct(h)) + Distinct(h);
  }

  lemma DistinctBelowHighest(h: History)
    requires h != []
    ensures |Distinct(h)| <= Highest(h) + 1
  {
    SubsetSize(Distinct(h), UpTo(Highest(h) + 1));
  }

  // ----- the firmware's window -----

  /** The receive half of `stream_metric_t`, as a value. The 64-bit counters are natural numbers. */
  datatype Window = Window(
    init: bool, highest: uint32, bitmap: word, rx: nat, duplicate: nat, outOfOrder: nat, gaps: nat)

  /** Every field is determined by the history: bit i of the word says whether `highest - i`
      was ever observed, and the counters count arrivals by their relation to the past. */
  ghost predicate Describes(w: Window, h: History) {
    && w.init == (h != [])
    && w.rx == |h|
    && w.duplicate == Count(h, RecentRepeat)
    && w.outOfOrder == Count(h, LateOrReordered)
    && w.gaps == Gaps(h)
    && (w.init ==> w.highest == Highest(h) && WindowShows(w.bitmap, w.highest, h))
  }

  /** Numbers up to the highest, less those accepted on arrival as first seen. */
  function Gaps(h: History): int {
    if h == [] then 0 else Highest(h) + 1 - Count(h, RecentFirst)
  }

  /** The word shows exactly which of the 64 numbers down from `highest` were observed. */
  ghost predicate WindowShows(bitmap: word, highest: uint32, h: History) {
    forall i: nat | i < WINDOW :: Bit(bitmap, i) <==> i <= highest && highest - i in h
  }

  class StreamMetric {
    var init: bool
    var highest: uint32
    var bitmap: word
    var rx: nat
    var duplicate: nat
    var outOfOrder: nat
    var gaps: nat
    ghost var history: History

    ghost function View(): Window
      reads this
    {
      Window(init, highest, bitmap, rx, duplicate, outOfOrder, gaps)
    }

    ghost predicate Valid()
      reads this
    {
      Describes(View(), history)
    }

    constructor ()
      ensures Valid() && history == []
    {
      init, highest, bitmap := false, 0, 0;
      rx, duplicate, outOfOrder, gaps := 0, 0, 0, 0;
      history := [];
    }

    /** `sequence_observe` */
    method Observe(sequence: uint32)
      requires Valid()
      modifies this
      ensures Valid()
      ensures history == old(history) + [sequence]
    {
      ObservedDescribes(View(), history, sequence);
      if init && sequence <= highest {
        ObserveBehind(sequence);
      } else {
        ObserveAhead(sequence);
      }
      history := history + [sequence];
    }

    /** The part of `sequence_observe` for a first or a new highest number. */
    method ObserveAhead(sequence: uint32)
      requires !init || sequence > highest
      modifies this
      ensures View() == Observed(old(View()), sequence) && history == old(history)
    {
      rx := rx + 1;
      if !init {
        init := true;
        highest := sequence;
        bitmap := 1;
        gaps := sequence;
        return;
      }
      var distance := sequence - highest;
      if distance > 1 {
        gaps := gaps + (distance - 1);
      }
      bitmap := if distance >= 64 then 1 else SlideUp(bitmap, distance);
      highest := sequence;
    }

    /** The part of `sequence_observe` for a number at or below the highest. */
    method ObserveBehind(sequence: uint32)
      requires init && sequence <= highest
      modifies this
      ensures View() == Observed(old(View()), sequence) && history == old(history)
    {
      rx := rx + 1;
      var distance := highest - sequence;
      if distance >= 64 {
        outOfOrder := outOfOrder + 1;
        return;
      }
      if TestBit(bitmap, distance) {
        duplicate := duplicate + 1;
        return;
      }
      bitmap := SetBit(bitmap, distance);
      outOfOrder := outOfOrder + 1;
      if gaps != 0 {
        gaps := gaps - 1;
      }
    }
  }

  /** A window after one more arrival. */
  function Observed(w: Window, s: uint32): Window {
    if !w.init then
      Window(true, s, 1, w.rx + 1, w.duplicate, w.outOfOrder, s)
    else if s > w.highest then
      var d := s - w.highest;
      Window(true, s, if d >= 64 then 1 else SlideUp(w.bitmap, d), w.rx + 1, w.duplicate, w.outOfOrder,
             w.gaps + (d - 1))
    else if w.highest - s >= 64 then
      Window(true, w.highest, w.bitmap, w.rx + 1, w.duplicate, w.outOfOrder + 1, w.gaps)
    else if TestBit(w.bitmap, w.highest - s) then
      Window(true, w.highest, w.bitmap, w.rx + 1, w.duplicate + 1, w.outOfOrder, w.gaps)
    else
      Window(true, w.highest, SetBit(w.bitmap, w.highest - s), w.rx + 1, w.duplicate, w.outOfOrder + 1,
             if w.gaps != 0 then w.gaps - 1 else 0)
  }

  lemma Arrival(h: History, s: uint32)
    ensures Count(h + [s], RecentRepeat) == Count(h, RecentRepeat) + (if RecentRepeat(h, s) then 1 else 0)
    ensures Count(h + [s], LateOrReordered) == Count(h, LateOrReordered) + (if LateOrReordered(h, s) then 1 else 0)
    ensures Count(h + [s], RecentFirst) == Count(h, RecentFirst) + (if RecentFirst(h, s) then 1 else 0)
    ensures Highest(h + [s]) == if h != [] && s <= Highest(h) then Highest(h) else s
  {
    CountAppend(h, s, RecentRepeat);
    CountAppend(h, s, LateOrReordered);
    CountAppend(h, s, RecentFirst);
    HighestAppend(h, s);
  }

  lemma ArrivalAhead(w: Window, h: History, s: uint32)
    requires Describes(w, h) && h != [] && s > w.highest
    ensures WindowShows(Observed(w, s).bitmap, s, h + [s])
  {
    var d := s - w.highest;
    var word := Observed(w, s).bitmap;
    forall i: nat | i < WINDOW ensures Bit(word, i) <==> i <= s && s - i in h + [s] {
      BitOne(i);
      Slide(w.bitmap, d, i);
      if i >= d {
        assert s - i == w.highest - (i - d);
      }
    }
  }

  lemma ArrivalInWindow(w: Window, h: History, s: uint32)
    requires Describes(w, h) && h != [] && 0 <= w.highest - s < 64
    ensures TestBit(w.bitmap, w.highest - s) <==> s in h
    ensures WindowShows(SetBit(w.bitmap, w.highest - s), w.highest, h + [s])
  {
    TestMask(w.bitmap, w.highest - s);
    var word := SetBit(w.bitmap, w.highest - s);
    forall i: nat | i < WINDOW ensures Bit(word, i) <==> i <= w.highest && w.highest - i in h + [s] {
      Mark(w.bitmap, w.highest - s, i);
    }
  }

  lemma FirstArrival(w: Window, s: uint32)
    requires Describes(w, [])
    ensures Describes(Observed(w, s), [s])
  {
    Arrival([], s);
    assert [] + [s] == [s];
    forall i: nat | i < WINDOW ensures Bit(1, i) <==> i <= s && s - i in [s] {
      BitOne(i);
    }
  }

  lemma LaterArrival(w: Window, h: History, s: uint32)
    requires Describes(w, h) && h != []
    ensures Describes(Observed(w, s), h + [s])
  {
    Arrival(h, s);
    if s > w.highest {
      ArrivalAhead(w, h, s);
    } else if w.highest - s < 64 {
      ArrivalInWindow(w, h, s);
      if s !in h {
        HoleMeansGap(h, s);
      }
    }
  }

  /** A window that describes a history describes the longer history after one more arrival;
      in particular the decrement of `gaps` is never held back by its guard. */
  lemma ObservedDescribes(w: Window, h: History, s: uint32)
    requires Describes(w, h)
    ensures Describes(Observed(w, s), h + [s])
    ensures h != [] && RecentFirst(h, s) && s <= w.highest ==> w.gaps > 0
  {
    if h == [] {
      FirstArrival(w, s);
      assert h + [s] == [s];
    } else {
      LaterArrival(w, h, s);
      if s !in h && s <= w.highest {
        HoleMeansGap(h, s);
      }
    }
  }

  // ----- the host's tracker -----

  /** `SequenceTracker` */
  class SequenceTracker {
    var initialized: bool
    var maxSeq: uint32
    var seen: set<uint32>
    var received: nat
    var duplicate: nat
    var outOfOrder: nat
    ghost var history: History

    ghost predicate Valid()
      reads this
    {
      && initialized == (history != [])
      && (initialized ==> maxSeq == Highest(history))
      && seen == Distinct(history)
      && received == |history|
      && duplicate == Count(history, Repeat)
      && outOfOrder == Count(history, Reordered)
    }

    constructor ()
      ensures Valid() && history == []
    {
      initialized, maxSeq, seen := false, 0, {};
      received, duplicate, outOfOrder := 0, 0, 0;
      history := [];
    }

    /** `SequenceTracker::observe` */
    method Observe(sequence: uint32)
      requires Valid()
      modifies this
      ensures Valid()
      ensures history == old(history) + [sequence]
    {
      CountAppend(history, sequence, Repeat);
      CountAppend(history, sequence, Reordered);
      HighestAppend(history, sequence);
      history := history + [sequence];
      received := received + 1;
      if sequence in seen {
        duplicate := duplicate + 1;
        return;
      }
      seen := seen + {sequence};
      if initialized && sequence < maxSeq {
        outOfOrder := outOfOrder + 1;
      }
      if !initialized || sequence > maxSeq {
        maxSeq := sequence;
        initialized := true;
      }
    }

    /** `SequenceTracker::estimated_missing` */
    method EstimatedMissing() returns (missing: nat)
      requires Valid()
      ensures missing == NeverArrived(history)
    {
      if !initialized {
        missing := 0;
      } else {
        DistinctBelowHighest(history);
        missing := SaturatingSub(maxSeq + 1, |seen|);
        HolesCount(history);
      }
    }
  }

  /** Numbers up to the highest that are absent from the history. */
  function NeverArrived(h: History): nat {
    if h == [] then 0 else |UpTo(Highest(h) + 1) - Distinct(h)|
  }

  lemma HolesCount(h: History)
    requires h != []
    ensures NeverArrived(h) == Highest(h) + 1 - |Distinct(h)|
  {
    AbsentBelow(h, Highest(h) + 1);
  }

  // ----- the two compared, on every history -----

  /** Every arrival that is neither the first nor a new highest is counted once by each side, the
      out-of-order counters differ by the late repeats, and the missing estimates by the numbers
      whose first arrival was late. */
  lemma {:induction false} Divergence(h: History)
    ensures Count(h, RecentRepeat) + Count(h, LateOrReordered) == Count(h, Repeat) + Count(h, Reordered)
    ensures Count(h, LateOrReordered) == Count(h, Reordered) + Count(h, LateRepeat)
    ensures Count(h, Repeat) == Count(h, RecentRepeat) + Count(h, LateRepeat)
    ensures Gaps(h) == NeverArrived(h) + Count(h, LateFirst)
    ensures Count(h, Late) == Count(h, LateFirst) + Count(h, LateRepeat)
  {
    if h != [] {
      var past, s := h[..|h| - 1], h[|h| - 1];
      Divergence(past);
      DistinctCount(h);
      HolesCount(h);
    }
  }

  /** The firmware and the host agree on duplicates, reordering and missing frames exactly on the
      histories in which every arrival is within 63 of the running highest. */
  lemma AgreeExactlyWithoutLateArrivals(h: History)
    ensures (&& Count(h, RecentRepeat) == Count(h, Repeat)
             && Count(h, LateOrReordered) == Count(h, Reordered)
             && Gaps(h) == NeverArrived(h))
       <==> forall k | 0 < k < |h| :: Highest(h[..k]) - h[k] <= 63
  {
    Divergence(h);
    CountZero(h, Late);
    forall k | 0 < k < |h|
      ensures Late(h[..k], h[k]) <==> Highest(h[..k]) - h[k] > 63
    {
      assert h[..k] != [];
    }
  }

  lemma {:induction false} CountZero(h: History, p: (History, uint32) -> bool)
    ensures Count(h, p) == 0 <==> forall k | 0 <= k < |h| :: !p(h[..k], h[k])
  {
    if h != [] {
      var past := h[..|h| - 1];
      CountZero(past, p);
      assert forall k | 0 <= k < |past| :: past[..k] == h[..k] && past[k] == h[k];
    }
  }
}
