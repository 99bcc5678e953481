/** The 28-byte benchmark header: big-endian fields in front of every frame, written and read by the
    firmware and read by the host. */
module Codec {
  import opened Harness
  import opened Words

  const MAGIC: uint32 := 0x4553504E
  const VERSION: byte := 1

  datatype Header = Header(
    packetType: byte, flags: uint16, runId: uint32, streamId: uint16, packetLen: uint16,
    sequence: uint32, timestamp: uint64)

  datatype Option<T> = None | Some(value: T)

  // ----- big-endian numbers -----

  function Power(n: nat): (p: nat)
    ensures p > 0
  {
    if n == 0 then 1 else 0x100 * Power(n - 1)
  }

  /** The n low bytes of v, most significant first. */
  function Bytes(n: nat, v: nat): (s: seq<byte>)
    ensures |s| == n
  {
    if n == 0 then [] else Bytes(n - 1, v / 0x100) + [v % 0x100]
  }

  function Value(s: seq<byte>): (v: nat)
    ensures v < Power(|s|)
  {
    if s == [] then 0 else 0x100 * Value(s[..|s| - 1]) + s[|s| - 1]
  }

  lemma {:induction false} ValueOfBytes(n: nat, v: nat)
    requires v < Power(n)
    ensures Value(Bytes(n, v)) == v
  {
    if n > 0 {
      ValueOfBytes(n - 1, v / 0x100);
      assert Bytes(n, v)[..n - 1] == Bytes(n - 1, v / 0x100);
    }
  }

  lemma {:induction false} BytesOfValue(s: seq<byte>)
    ensures Bytes(|s|, Value(s)) == s
  {
    if s != [] {
      BytesOfValue(s[..|s| - 1]);
      assert s == s[..|s| - 1] + [s[|s| - 1]];
    }
  }

  lemma Widths()
    ensures Power(2) == 0x1_0000 && Power(4) == 0x1_0000_0000 && Power(8) == 0x1_0000_0000_0000_0000
  {
    assert Power(2) == 0x100 * Power(1);
    assert Power(4) == 0x100 * (0x100 * Power(2));
    assert Power(6) == 0x100 * (0x100 * Power(4));
    assert Power(8) == 0x100 * (0x100 * Power(6));
  }

  lemma Bytes2(v: uint16)
    ensures Bytes(2, v) == [v / 0x100, v % 0x100]
  {
    assert Bytes(1, v / 0x100) == [v / 0x100 % 0x100];
  }

  lemma Bytes4(v: uint32)
    ensures Bytes(4, v) == [v / 0x100_0000, v / 0x1_0000 % 0x100, v / 0x100 % 0x100, v % 0x100]
  {
    assert Bytes(4, v) == Bytes(3, v / 0x100) + [v % 0x100];
    assert Bytes(3, v / 0x100) == Bytes(2, v / 0x1_0000) + [v / 0x100 % 0x100];
    Bytes2(v / 0x1_0000);
  }

  lemma {:induction false} BytesOfPair(n: nat, m: nat, high: nat, low: nat)
    requires low < Power(m)
    ensures Bytes(n + m, high * Power(m) + low) == Bytes(n, high) + Bytes(m, low)
  {
    if m == 0 {
      assert high * Power(0) + low == high;
    } else {
      var x := high * Power(m - 1);
      assert high * Power(m) == 0x100 * x;
      BytesOfPair(n, m - 1, high, low / 0x100);
      assert Bytes(n + m, 0x100 * x + low) == Bytes(n + m - 1, x + low / 0x100) + [low % 0x100];
    }
  }

  lemma Bytes8(high: uint32, low: uint32)
    ensures Bytes(8, 0x1_0000_0000 * high as int + low) == Bytes(4, high) + Bytes(4, low)
  {
    Widths();
    BytesOfPair(4, 4, high, low);
  }

  lemma Value2(s: seq<byte>)
    requires |s| == 2
    ensures Value(s) == 0x100 * (s[0] as int) + s[1]
  {
    assert Value(s[..1]) == s[0];
  }

  lemma Value4(s: seq<byte>)
    requires |s| == 4
    ensures Value(s) == 0x100_0000 * (s[0] as int) + 0x1_0000 * (s[1] as int) + 0x100 * (s[2] as int) + s[3]
  {
    Value2(s[..2]);
    assert s[..3][..2] == s[..2];
    assert Value(s[..3]) == 0x100 * Value(s[..2]) + s[2];
  }

  lemma Value8(s: seq<byte>)
    requires |s| == 8
    ensures Value(s) == 0x1_0000_0000 * Value(s[..4]) + Value(s[4..])
  {
    Value4(s[4..]);
    assert s[..5][..4] == s[..4] && s[..6][..5] == s[..5] && s[..7][..6] == s[..6];
    assert Value(s[..5]) == 0x100 * Value(s[..4]) + s[4];
    assert Value(s[..6]) == 0x100 * Value(s[..5]) + s[5];
    assert Value(s[..7]) == 0x100 * Value(s[..6]) + s[6];
  }

  // ----- the header -----

  /** The first twelve bytes of a header. */
  function Front(h: Header): (s: seq<byte>)
    ensures |s| == 12
  {
    Bytes(4, MAGIC) + [VERSION, h.packetType] + Bytes(2, h.flags) + Bytes(4, h.runId)
  }

  /** The other sixteen. */
  function Back(h: Header): (s: seq<byte>)
    ensures |s| == 16
  {
    Bytes(2, h.streamId) + Bytes(2, h.packetLen) + Bytes(4, h.sequence) + Bytes(8, h.timestamp)
  }

  /** The header of a frame, byte by byte. */
  function Encoded(h: Header): (s: seq<byte>)
    ensures |s| == HEADER_SIZE
  {
    Front(h) + Back(h)
  }

  /** s is a whole frame carrying header h. */
  ghost predicate Carries(s: seq<byte>, h: Header) {
    |s| == h.packetLen >= HEADER_SIZE && s[..HEADER_SIZE] == Encoded(h)
  }

  lemma FrontLayout(h: Header)
    ensures var s := Front(h);
      && s[..4] == Bytes(4, MAGIC) && s[4] == VERSION && s[5] == h.packetType
      && s[6..8] == Bytes(2, h.flags) && s[8..12] == Bytes(4, h.runId)
  {}

  lemma BackLayout(h: Header)
    ensures var s := Back(h);
      && s[0..2] == Bytes(2, h.streamId) && s[2..4] == Bytes(2, h.packetLen)
      && s[4..8] == Bytes(4, h.sequence) && s[8..16] == Bytes(8, h.timestamp)
  {}

  /** Slices of a header are slices of its two parts. */
  lemma InFront(a: seq<byte>, b: seq<byte>, i: nat, j: nat)
    requires i <= j <= |a|
    ensures (a + b)[i..j] == a[i..j]
  {}

  lemma InBack(a: seq<byte>, b: seq<byte>, i: nat, j: nat)
    requires i <= j <= |b|
    ensures (a + b)[|a| + i..|a| + j] == b[i..j]
  {}

  /** Where each field of an encoded header lies. */
  lemma Layout(h: Header)
    ensures var s := Encoded(h);
      && s[0..4] == Bytes(4, MAGIC) && s[4] == VERSION && s[5] == h.packetType
      && s[6..8] == Bytes(2, h.flags) && s[8..12] == Bytes(4, h.runId)
      && s[12..14] == Bytes(2, h.streamId) && s[14..16] == Bytes(2, h.packetLen)
      && s[16..20] == Bytes(4, h.sequence) && s[20..28] == Bytes(8, h.timestamp)
  {
    var a, b := Front(h), Back(h);
    FrontLayout(h);
    BackLayout(h);
    InFront(a, b, 0, 4);
    InFront(a, b, 6, 8);
    InFront(a, b, 8, 12);
    InBack(a, b, 0, 2);
    InBack(a, b, 2, 4);
    InBack(a, b, 4, 8);
    InBack(a, b, 8, 16);
    assert a[0..4] == a[..4];
  }

  /** Reading every field at its place. */
  function Fields(s: seq<byte>): Header
    requires |s| >= HEADER_SIZE
  {
    Widths();
    Header(s[5], Value(s[6..8]), Value(s[8..12]), Value(s[12..14]), Value(s[14..16]), Value(s[16..20]),
           Value(s[20..28]))
  }

  lemma SameSlice(s: seq<byte>, e: seq<byte>, i: nat, j: nat)
    requires i <= j <= |e| <= |s| && s[..|e|] == e
    ensures s[i..j] == e[i..j]
  {
    forall k | i <= k < j
      ensures s[k] == e[k]
    {
      assert s[..|e|][k] == s[k];
    }
  }

  lemma FieldsOfEncoded(h: Header, s: seq<byte>)
    requires |s| >= HEADER_SIZE && s[..HEADER_SIZE] == Encoded(h)
    ensures Fields(s) == h && Value(s[0..4]) == MAGIC && s[4] == VERSION
  {
    Layout(h);
    Widths();
    var e := Encoded(h);
    assert s[4] == e[4] && s[5] == e[5];
    SameSlice(s, e, 0, 4);
    SameSlice(s, e, 6, 8);
    SameSlice(s, e, 8, 12);
    SameSlice(s, e, 12, 14);
    SameSlice(s, e, 14, 16);
    SameSlice(s, e, 16, 20);
    SameSlice(s, e, 20, 28);
    ValueOfBytes(4, MAGIC);
    ValueOfBytes(2, h.flags);
    ValueOfBytes(4, h.runId);
    ValueOfBytes(2, h.streamId);
    ValueOfBytes(2, h.packetLen);
    ValueOfBytes(4, h.sequence);
    ValueOfBytes(8, h.timestamp);
  }

  lemma EncodedOfFields(s: seq<byte>)
    requires |s| >= HEADER_SIZE && Value(s[0..4]) == MAGIC && s[4] == VERSION
    ensures Encoded(Fields(s)) == s[..HEADER_SIZE]
  {
    FrontOfFields(s);
    BackOfFields(s);
    assert s[..HEADER_SIZE] == s[..12] + s[12..28];
  }

  lemma FrontOfFields(s: seq<byte>)
    requires |s| >= HEADER_SIZE && Value(s[0..4]) == MAGIC && s[4] == VERSION
    ensures Front(Fields(s)) == s[..12]
  {
    BytesOfValue(s[0..4]);
    BytesOfValue(s[6..8]);
    BytesOfValue(s[8..12]);
    assert s[..12] == s[0..4] + [s[4], s[5]] + s[6..8] + s[8..12];
  }

  lemma BackOfFields(s: seq<byte>)
    requires |s| >= HEADER_SIZE
    ensures Back(Fields(s)) == s[12..28]
  {
    BytesOfValue(s[12..14]);
    BytesOfValue(s[14..16]);
    BytesOfValue(s[16..20]);
    BytesOfValue(s[20..28]);
    assert s[12..28] == s[12..14] + s[14..16] + s[16..20] + s[20..28];
  }

  /** A frame carries at most one header. */
  lemma OneHeader(s: seq<byte>, h: Header, k: Header)
    requires Carries(s, h) && Carries(s, k)
    ensures h == k
  {
    FieldsOfEncoded(h, s);
    FieldsOfEncoded(k, s);
  }

  /** The header laid out on the wire, byte by byte. */
  predicate Laid(s: seq<byte>, h: Header) {
    && |s| == h.packetLen && |s| >= 28
    && s[0] == 0x45 && s[1] == 0x53 && s[2] == 0x50 && s[3] == 0x4E && s[4] == 1
    && h.packetType == s[5]
    && h.flags == 0x100 * (s[6] as int) + s[7]
    && h.runId == 0x100_0000 * (s[8] as int) + 0x1_0000 * (s[9] as int) + 0x100 * (s[10] as int) + s[11]
    && h.streamId == 0x100 * (s[12] as int) + s[13]
    && h.packetLen == 0x100 * (s[14] as int) + s[15]
    && h.sequence == 0x100_0000 * (s[16] as int) + 0x1_0000 * (s[17] as int) + 0x100 * (s[18] as int) + s[19]
    && h.timestamp == 0x100_0000_0000_0000 * (s[20] as int) + 0x1_0000_0000_0000 * (s[21] as int)
                      + 0x100_0000_0000 * (s[22] as int) + 0x1_0000_0000 * (s[23] as int)
                      + 0x100_0000 * (s[24] as int) + 0x1_0000 * (s[25] as int) + 0x100 * (s[26] as int) + s[27]
  }

  lemma MagicBytes(s: seq<byte>)
    requires |s| >= 4
    ensures Value(s[0..4]) == MAGIC <==> s[0] == 0x45 && s[1] == 0x53 && s[2] == 0x50 && s[3] == 0x4E
  {
    Value4(s[0..4]);
  }

  lemma SmallFields(s: seq<byte>)
    requires |s| >= 28
    ensures Value(s[6..8]) == 0x100 * (s[6] as int) + s[7]
    ensures Value(s[12..14]) == 0x100 * (s[12] as int) + s[13]
    ensures Value(s[14..16]) == 0x100 * (s[14] as int) + s[15]
    ensures Value(s[8..12])
         == 0x100_0000 * (s[8] as int) + 0x1_0000 * (s[9] as int) + 0x100 * (s[10] as int) + s[11]
    ensures Value(s[16..20])
         == 0x100_0000 * (s[16] as int) + 0x1_0000 * (s[17] as int) + 0x100 * (s[18] as int) + s[19]
  {
    Value2(s[6..8]);
    Value2(s[12..14]);
    Value2(s[14..16]);
    Value4(s[8..12]);
    Value4(s[16..20]);
  }

  lemma LongField(s: seq<byte>)
    requires |s| >= 28
    ensures Value(s[20..28])
         == 0x100_0000_0000_0000 * (s[20] as int) + 0x1_0000_0000_0000 * (s[21] as int)
            + 0x100_0000_0000 * (s[22] as int) + 0x1_0000_0000 * (s[23] as int)
            + 0x100_0000 * (s[24] as int) + 0x1_0000 * (s[25] as int) + 0x100 * (s[26] as int) + s[27]
  {
    var t := s[20..28];
    Value8(t);
    Value4(t[..4]);
    Value4(t[4..]);
    assert t[4..][0] == s[24] && t[4..][1] == s[25] && t[4..][2] == s[26] && t[4..][3] == s[27];
  }

  /** A frame carries a header exactly when its bytes lay it out: big-endian fields at these offsets, behind
      the four bytes "ESPN" and version 1, in a frame of the length the header says. */
  lemma OnTheWire(s: seq<byte>, h: Header)
    ensures Carries(s, h) <==> Laid(s, h)
  {
    if |s| >= 28 {
      NothingElse(s);
      MagicBytes(s);
      SmallFields(s);
      LongField(s);
      if Laid(s, h) {
        assert h == Fields(s);
        EncodedOfFields(s);
      }
    }
  }

  // ----- writing -----

  /** `put16`, `put32`, `put64`: write a number at an offset and nothing else. */
  ghost predicate Wrote(was: seq<byte>, now: seq<byte>, at: nat, field: seq<byte>) {
    |now| == |was| && at + |field| <= |was| && now == was[..at] + field + was[at + |field|..]
  }

  method Put16(d: array<byte>, at: nat, v: uint16)
    requires at + 2 <= d.Length
    modifies d
    ensures Wrote(old(d[..]), d[..], at, Bytes(2, v))
  {
    Bytes2(v);
    d[at], d[at + 1] := v / 0x100, v % 0x100;
  }

  method Put32(d: array<byte>, at: nat, v: uint32)
    requires at + 4 <= d.Length
    modifies d
    ensures Wrote(old(d[..]), d[..], at, Bytes(4, v))
  {
    Bytes4(v);
    d[at], d[at + 1] := v / 0x100_0000, v / 0x1_0000 % 0x100;
    d[at + 2], d[at + 3] := v / 0x100 % 0x100, v % 0x100;
  }

  method Put64(d: array<byte>, at: nat, v: uint64)
    requires at + 8 <= d.Length
    modifies d
    ensures Wrote(old(d[..]), d[..], at, Bytes(8, v))
  {
    var high, low := v / 0x1_0000_0000, v % 0x1_0000_0000;
    Bytes8(high, low);
    assert v == 0x1_0000_0000 * (high as int) + low;
    ghost var was := d[..];
    Put32(d, at, high);
    ghost var half := d[..];
    Put32(d, at + 4, low);
    WroteBoth(was, half, d[..], at, Bytes(4, high), Bytes(4, low));
  }

  lemma WroteBoth(was: seq<byte>, half: seq<byte>, now: seq<byte>, at: nat, a: seq<byte>, b: seq<byte>)
    requires Wrote(was, half, at, a) && Wrote(half, now, at + |a|, b)
    ensures Wrote(was, now, at, a + b)
  {}

  /** The first bytes of d are those given, and the ones after the header are untouched. */
  ghost predicate Filled(was: seq<byte>, now: seq<byte>, prefix: seq<byte>) {
    && |now| == |was| >= HEADER_SIZE >= |prefix|
    && now[..|prefix|] == prefix
    && now[HEADER_SIZE..] == was[HEADER_SIZE..]
  }

  lemma Fill(was: seq<byte>, half: seq<byte>, now: seq<byte>, prefix: seq<byte>, field: seq<byte>)
    requires Filled(was, half, prefix) && Wrote(half, now, |prefix|, field)
    requires |prefix| + |field| <= HEADER_SIZE
    ensures Filled(was, now, prefix + field)
  {
    assert now[..|prefix + field|] == prefix + field;
    assert now[HEADER_SIZE..] == half[HEADER_SIZE..];
  }

  method PutFront(d: array<byte>, h: Header, ghost was: seq<byte>)
    requires d.Length >= HEADER_SIZE && was == d[..]
    modifies d
    ensures Filled(was, d[..], Front(h))
  {
    Put32(d, 0, MAGIC);
    d[4] := VERSION;
    d[5] := h.packetType;
    ghost var s0, p0 := d[..], Bytes(4, MAGIC) + [VERSION, h.packetType];
    assert Filled(was, s0, p0);
    Put16(d, 6, h.flags);
    ghost var s1, p1 := d[..], p0 + Bytes(2, h.flags);
    Fill(was, s0, s1, p0, Bytes(2, h.flags));
    Put32(d, 8, h.runId);
    Fill(was, s1, d[..], p1, Bytes(4, h.runId));
    assert p1 + Bytes(4, h.runId) == Front(h);
  }

  method PutBack(d: array<byte>, h: Header, ghost was: seq<byte>)
    requires Filled(was, d[..], Front(h))
    modifies d
    ensures Filled(was, d[..], Encoded(h))
  {
    ghost var s0, p0 := d[..], Front(h);
    Put16(d, 12, h.streamId);
    ghost var s1, p1 := d[..], p0 + Bytes(2, h.streamId);
    Fill(was, s0, s1, p0, Bytes(2, h.streamId));
    Put16(d, 14, h.packetLen);
    ghost var s2, p2 := d[..], p1 + Bytes(2, h.packetLen);
    Fill(was, s1, s2, p1, Bytes(2, h.packetLen));
    Put32(d, 16, h.sequence);
    ghost var s3, p3 := d[..], p2 + Bytes(4, h.sequence);
    Fill(was, s2, s3, p2, Bytes(4, h.sequence));
    Put64(d, 20, h.timestamp);
    Fill(was, s3, d[..], p3, Bytes(8, h.timestamp));
    InOrder(p0, Bytes(2, h.streamId), Bytes(2, h.packetLen), Bytes(4, h.sequence), Bytes(8, h.timestamp));
  }

  lemma InOrder(p: seq<byte>, a: seq<byte>, b: seq<byte>, c: seq<byte>, d: seq<byte>)
    ensures p + a + b + c + d == p + (a + b + c + d)
  {}

  /** `bench_encode`: succeeds exactly when the frame fits and has room for the header, writes the header
      and leaves every byte after it alone; on failure nothing is written. */
  method Encode(d: array<byte>, capacity: nat, h: Header) returns (ok: bool)
    requires capacity <= d.Length
    modifies d
    ensures ok <==> 28 <= h.packetLen <= capacity
    ensures ok ==> d[..28] == Encoded(h) && d[28..] == old(d[28..])
    ensures !ok ==> d[..] == old(d[..])
  {
    if capacity < h.packetLen || h.packetLen < HEADER_SIZE {
      return false;
    }
    ghost var was := d[..];
    PutFront(d, h, was);
    PutBack(d, h, was);
    assert d[..HEADER_SIZE] == d[..][..HEADER_SIZE];
    assert d[HEADER_SIZE..] == d[..][HEADER_SIZE..] && was[HEADER_SIZE..] == old(d[HEADER_SIZE..]);
    return true;
  }

  // ----- reading -----

  method Get16(s: seq<byte>, at: nat) returns (v: uint16)
    requires at + 2 <= |s|
    ensures v == Value(s[at..at + 2])
  {
    Value2(s[at..at + 2]);
    v := 0x100 * (s[at] as int) + s[at + 1];
  }

  method Get32(s: seq<byte>, at: nat) returns (v: uint32)
    requires at + 4 <= |s|
    ensures v == Value(s[at..at + 4])
  {
    Value4(s[at..at + 4]);
    v := 0x100_0000 * (s[at] as int) + 0x1_0000 * (s[at + 1] as int) + 0x100 * (s[at + 2] as int) + s[at + 3];
  }

  method Get64(s: seq<byte>, at: nat) returns (v: uint64)
    requires at + 8 <= |s|
    ensures v == Value(s[at..at + 8])
  {
    Value8(s[at..at + 8]);
    assert s[at..at + 8][..4] == s[at..at + 4] && s[at..at + 8][4..] == s[at + 4..at + 8];
    var high := Get32(s, at);
    var low := Get32(s, at + 4);
    v := 0x1_0000_0000 * (high as int) + low;
  }

  /** `bench_decode`: accepts exactly the whole frames that carry a header of one of the 16 streams, and
      returns that header. */
  method Decode(s: seq<byte>) returns (r: Option<Header>)
    ensures r.Some? ==> Carries(s, r.value) && r.value.streamId < 16
    ensures r.None? ==> forall h :: Carries(s, h) ==> h.streamId >= 16
  {
    if |s| < HEADER_SIZE {
      return None;
    }
    NothingElse(s);
    var magic := Get32(s, 0);
    if magic != MAGIC || s[4] != VERSION {
      return None;
    }
    EncodedOfFields(s);
    var flags := Get16(s, 6);
    var runId := Get32(s, 8);
    var streamId := Get16(s, 12);
    var packetLen := Get16(s, 14);
    var sequence := Get32(s, 16);
    var timestamp := Get64(s, 20);
    var h := Header(s[5], flags, runId, streamId, packetLen, sequence, timestamp);
    assert h == Fields(s);
    r := if packetLen == |s| && streamId < MAX_STREAMS then Some(h) else None;
  }

  lemma NothingElse(s: seq<byte>)
    requires |s| >= HEADER_SIZE
    ensures forall h :: Carries(s, h) ==> h == Fields(s) && Value(s[0..4]) == MAGIC && s[4] == VERSION
  {
    forall h | Carries(s, h)
      ensures h == Fields(s) && Value(s[0..4]) == MAGIC && s[4] == VERSION
    {
      FieldsOfEncoded(h, s);
    }
  }

  /** The host's `BenchHeader::decode`, whose reasons for refusing are in the order it checks them. */
  datatype HostError = TooShort | BadMagic | BadVersion | LengthMismatch

  datatype HostResult = Ok(header: Header) | Err(error: HostError)

  method HostDecode(s: seq<byte>) returns (r: HostResult)
    ensures r.Ok? ==> Carries(s, r.header)
    ensures r.Err? ==> forall h :: !Carries(s, h)
    ensures r == Err(TooShort) <==> |s| < 28
    ensures r == Err(BadMagic) <==> |s| >= 28 && s[0..4] != Bytes(4, MAGIC)
    ensures r == Err(BadVersion) <==> |s| >= 28 && s[0..4] == Bytes(4, MAGIC) && s[4] != VERSION
  {
    if |s| < HEADER_SIZE {
      return Err(TooShort);
    }
    NothingElse(s);
    BytesOfValue(s[0..4]);
    ValueOfBytes(4, MAGIC);
    var magic := Get32(s, 0);
    if magic != MAGIC {
      return Err(BadMagic);
    }
    if s[4] != VERSION {
      return Err(BadVersion);
    }
    var packetLen := Get16(s, 14);
    if packetLen != |s| {
      return Err(LengthMismatch);
    }
    EncodedOfFields(s);
    var flags := Get16(s, 6);
    var runId := Get32(s, 8);
    var streamId := Get16(s, 12);
    var sequence := Get32(s, 16);
    var timestamp := Get64(s, 20);
    r := Ok(Header(s[5], flags, runId, streamId, packetLen, sequence, timestamp));
    assert r.header == Fields(s);
  }

  // ----- the two ends together -----

  /** What was encoded is what both ends decode; the firmware refuses it exactly when the stream is out of
      range. */
  method RoundTrip(h: Header, frame: array<byte>) returns (sent: bool, firmware: Option<Header>, host: HostResult)
    requires frame.Length == h.packetLen
    modifies frame
    ensures sent <==> h.packetLen >= 28
    ensures sent ==> host == Ok(h) && firmware == if h.streamId < 16 then Some(h) else None
  {
    sent := Encode(frame, frame.Length, h);
    var s := frame[..];
    firmware := Decode(s);
    host := HostDecode(s);
    if sent {
      assert s[..HEADER_SIZE] == frame[..HEADER_SIZE];
      assert Carries(s, h);
      if firmware.Some? {
        OneHeader(s, h, firmware.value);
      }
      if host.Ok? {
        OneHeader(s, h, host.header);
      }
    }
  }

  /** The host accepts what the firmware accepts, with equal fields, and beyond it only streams out of range. */
  method DecodersAgree(s: seq<byte>) returns (firmware: Option<Header>, host: HostResult)
    ensures firmware.Some? <==> host.Ok? && host.header.streamId < 16
    ensures firmware.Some? ==> firmware.value == host.header
  {
    firmware := Decode(s);
    host := HostDecode(s);
    if firmware.Some? && host.Ok? {
      OneHeader(s, firmware.value, host.header);
    }
  }

  const ECHO: byte := 3

  lemma Retyped(h: Header, t: byte)
    ensures Encoded(h.(packetType := t)) == Encoded(h)[5 := t]
  {
    var k := h.(packetType := t);
    assert Back(k) == Back(h);
    assert Front(k) == Front(h)[5 := t];
  }

  /** The responder's rewrite of byte 5: the frame then carries the same header with only the type changed. */
  lemma EchoRewrite(s: seq<byte>, h: Header, e: seq<byte>)
    requires Carries(s, h) && e == s[5 := 3]
    ensures Carries(e, h.(packetType := 3))
    ensures forall k :: Carries(e, k) ==> k == h.(packetType := 3)
  {
    var k := h.(packetType := ECHO);
    assert e[..HEADER_SIZE] == s[..HEADER_SIZE][5 := ECHO];
    Retyped(h, ECHO);
    forall j | Carries(e, j)
      ensures j == k
    {
      OneHeader(e, j, k);
    }
  }
}
