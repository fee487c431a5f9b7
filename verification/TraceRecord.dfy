/** The 80-byte record the tracer writes and the decoder reads. */
module TraceRecord {
  import opened Words

  /** `struct rec`, field by field.  A present flag of 0 means the pointer was NULL. */
  datatype Rec = Rec(
    ts: int, tid: int, rc: int, errno: int, pad: int,
    newSp: int, newSize: int, newFlags: int, newPresent: int,
    oldSp: int, oldSize: int, oldFlags: int, oldPresent: int,
    caller: int)

  /** The two field types of the format: `Q`, unsigned 64 bits, and `i`, signed 32 bits. */
  datatype Field = Q | I

  function Width(f: Field): nat {
    match f case Q => 8 case I => 4
  }

  const HALF: int := 0x8000_0000
  const TWO32: int := 0x1_0000_0000

  predicate InRange(f: Field, v: int) {
    match f case Q => 0 <= v < WORD case I => -HALF <= v < HALF
  }

  const REC_FMT: seq<Field> := [Q, I, I, I, I, Q, Q, I, I, Q, Q, I, I, Q]
  const REC_SIZE: nat := 80

  function Values(r: Rec): seq<int> {
    [r.ts, r.tid, r.rc, r.errno, r.pad, r.newSp, r.newSize, r.newFlags, r.newPresent,
     r.oldSp, r.oldSize, r.oldFlags, r.oldPresent, r.caller]
  }

  function FromValues(v: seq<int>): Rec
    requires |v| == 14
  {
    Rec(v[0], v[1], v[2], v[3], v[4], v[5], v[6], v[7], v[8], v[9], v[10], v[11], v[12], v[13])
  }

  predicate Matches(fmt: seq<Field>, v: seq<int>) {
    |fmt| == |v| && forall i | 0 <= i < |v| :: InRange(fmt[i], v[i])
  }

  /** Every field holds a value of its C type. */
  predicate Fits(r: Rec) {
    Matches(REC_FMT, Values(r))
  }

  // ------------------------------------------------------------------ fields

  lemma Powers()
    ensures Power256(4) == TWO32 && Power256(8) == WORD
  {
    assert Power256(2) == 65536;
    assert Power256(4) == 65536 * 65536;
    assert Power256(6) == 65536 * Power256(4);
  }

  function EncodeField(f: Field, v: int): (b: seq<byte>)
    requires InRange(f, v)
    ensures |b| == Width(f)
  {
    match f
    case Q => LittleEndian(v, 8)
    case I => LittleEndian(if v < 0 then v + TWO32 else v, 4)
  }

  function DecodeField(f: Field, b: seq<byte>): int
    requires |b| == Width(f)
  {
    match f
    case Q => Magnitude(b)
    case I => Signed(b)
  }

  lemma FieldRoundTrip(f: Field, v: int)
    requires InRange(f, v)
    ensures DecodeField(f, EncodeField(f, v)) == v
  {
    Powers();
    match f {
      case Q => MagnitudeOfBytes(v, 8);
      case I => MagnitudeOfBytes(if v < 0 then v + TWO32 else v, 4);
    }
  }

  lemma FieldBytes(f: Field, b: seq<byte>)
    requires |b| == Width(f)
    ensures InRange(f, DecodeField(f, b)) && EncodeField(f, DecodeField(f, b)) == b
  {
    Powers();
    BytesOfMagnitude(b);
  }

  // ------------------------------------------------------------------ packed formats

  /** `struct.calcsize`, standard sizes without alignment. */
  function CalcSize(fmt: seq<Field>): nat {
    if fmt == [] then 0 else Width(fmt[0]) + CalcSize(fmt[1..])
  }

  function Pack(fmt: seq<Field>, v: seq<int>): (b: seq<byte>)
    requires Matches(fmt, v)
    ensures |b| == CalcSize(fmt)
  {
    if fmt == [] then [] else EncodeField(fmt[0], v[0]) + Pack(fmt[1..], v[1..])
  }

  function Unpack(fmt: seq<Field>, b: seq<byte>): (v: seq<int>)
    requires |b| == CalcSize(fmt)
    ensures |v| == |fmt|
  {
    if fmt == [] then [] else [DecodeField(fmt[0], b[..Width(fmt[0])])] + Unpack(fmt[1..], b[Width(fmt[0])..])
  }

  lemma {:induction false} PackRoundTrip(fmt: seq<Field>, v: seq<int>)
    requires Matches(fmt, v)
    ensures Unpack(fmt, Pack(fmt, v)) == v
  {
    if fmt != [] {
      var w := Width(fmt[0]);
      FieldRoundTrip(fmt[0], v[0]);
      PackRoundTrip(fmt[1..], v[1..]);
      assert Pack(fmt, v)[..w] == EncodeField(fmt[0], v[0]);
      assert Pack(fmt, v)[w..] == Pack(fmt[1..], v[1..]);
    }
  }

  lemma ConsOf<T>(x: T, rest: seq<T>)
    ensures ([x] + rest)[0] == x && ([x] + rest)[1..] == rest
  {
  }

  lemma MatchesCons(fmt: seq<Field>, v: seq<int>)
    requires fmt != [] && v != [] && InRange(fmt[0], v[0]) && Matches(fmt[1..], v[1..])
    ensures Matches(fmt, v)
  {
    forall i | 0 <= i < |v| ensures InRange(fmt[i], v[i]) {
      if i > 0 {
        assert fmt[i] == fmt[1..][i - 1] && v[i] == v[1..][i - 1];
      }
    }
  }

  lemma {:induction false} UnpackRoundTrip(fmt: seq<Field>, b: seq<byte>)
    requires |b| == CalcSize(fmt)
    ensures Matches(fmt, Unpack(fmt, b)) && Pack(fmt, Unpack(fmt, b)) == b
  {
    if fmt != [] {
      var w := Width(fmt[0]);
      FieldBytes(fmt[0], b[..w]);
      UnpackRoundTrip(fmt[1..], b[w..]);
      hide EncodeField, DecodeField, InRange;
      ConsOf(DecodeField(fmt[0], b[..w]), Unpack(fmt[1..], b[w..]));
      MatchesCons(fmt, Unpack(fmt, b));
      assert b == b[..w] + b[w..];
    }
  }

  // ------------------------------------------------------------------ the C struct

  function AlignUp(at: nat, align: nat): nat
    requires align > 0
  {
    (at + align - 1) / align * align
  }

  /** The bytes of a C struct whose members are laid out in order, each aligned to its own width, padding zeroed. */
  function StructBytes(fmt: seq<Field>, v: seq<int>, at: nat): seq<byte>
    requires Matches(fmt, v)
  {
    if fmt == [] then [] else
      var gap := AlignUp(at, Width(fmt[0])) - at;
      seq(gap, _ => 0 as byte) + EncodeField(fmt[0], v[0]) + StructBytes(fmt[1..], v[1..], at + gap + Width(fmt[0]))
  }

  /** No member of this format starts at an unaligned packed offset. */
  predicate Aligned(fmt: seq<Field>, at: nat) {
    fmt == [] || (at % Width(fmt[0]) == 0 && Aligned(fmt[1..], at + Width(fmt[0])))
  }

  lemma AlignedStays(at: nat, f: Field)
    requires at % Width(f) == 0
    ensures AlignUp(at, Width(f)) == at
  {
  }

  lemma StructStep(fmt: seq<Field>, v: seq<int>, at: nat)
    requires fmt != [] && Matches(fmt, v) && at % Width(fmt[0]) == 0
    ensures StructBytes(fmt, v, at) == EncodeField(fmt[0], v[0]) + StructBytes(fmt[1..], v[1..], at + Width(fmt[0]))
  {
    AlignedStays(at, fmt[0]);
    hide AlignUp, EncodeField, Width;
    NoGap(EncodeField(fmt[0], v[0]) + StructBytes(fmt[1..], v[1..], at + Width(fmt[0])));
  }

  lemma NoGap(b: seq<byte>)
    ensures seq(0, _ => 0 as byte) + b == b
  {
  }

  lemma {:induction false} AlignedIsPacked(fmt: seq<Field>, v: seq<int>, at: nat)
    requires Matches(fmt, v) && Aligned(fmt, at)
    ensures StructBytes(fmt, v, at) == Pack(fmt, v)
  {
    if fmt != [] {
      AlignedIsPacked(fmt[1..], v[1..], at + Width(fmt[0]));
      StructStep(fmt, v, at);
    }
  }

  /** Where each member of `struct rec` starts, and where the struct ends. */
  const OFFSETS: seq<nat> := [0, 8, 12, 16, 20, 24, 32, 40, 44, 48, 56, 64, 68, 72, 80]

  lemma OffsetStep(k: nat)
    requires k < |REC_FMT|
    ensures OFFSETS[k + 1] == OFFSETS[k] + Width(REC_FMT[k]) && OFFSETS[k] % Width(REC_FMT[k]) == 0
  {
  }

  lemma {:induction false} LayoutFrom(k: nat)
    requires k <= |REC_FMT|
    ensures CalcSize(REC_FMT[k..]) == REC_SIZE - OFFSETS[k] && Aligned(REC_FMT[k..], OFFSETS[k])
    decreases |REC_FMT| - k
  {
    if k < |REC_FMT| {
      OffsetStep(k);
      LayoutFrom(k + 1);
      assert REC_FMT[k..][0] == REC_FMT[k] && REC_FMT[k..][1..] == REC_FMT[k + 1..];
    }
  }

  /** The record's C layout has no padding and is 80 bytes long, so it is the packed format of the decoder. */
  lemma RecLayout()
    ensures CalcSize(REC_FMT) == REC_SIZE && Aligned(REC_FMT, 0)
  {
    LayoutFrom(0);
    assert REC_FMT[0..] == REC_FMT;
  }

  /** What `write(fd, &r, sizeof(r))` appends. */
  function RecBytes(r: Rec): (b: seq<byte>)
    requires Fits(r)
    ensures |b| == REC_SIZE
  {
    RecLayout();
    AlignedIsPacked(REC_FMT, Values(r), 0);
    StructBytes(REC_FMT, Values(r), 0)
  }

  function DecodeRec(b: seq<byte>): Rec
    requires |b| == REC_SIZE
  {
    RecLayout();
    FromValues(Unpack(REC_FMT, b))
  }

  lemma FromValuesOf(r: Rec)
    ensures FromValues(Values(r)) == r
  {
  }

  lemma ValuesOfFrom(v: seq<int>)
    requires |v| == 14
    ensures Values(FromValues(v)) == v
  {
  }

  // ------------------------------------------------------------------ which bytes each field is

  /** Where field `j` of a packed format starts. */
  function Offset(fmt: seq<Field>, j: nat): nat
    requires j <= |fmt|
  {
    if j == 0 then 0 else Width(fmt[0]) + Offset(fmt[1..], j - 1)
  }

  lemma {:induction false} OffsetNext(fmt: seq<Field>, j: nat)
    requires j < |fmt|
    ensures Offset(fmt, j + 1) == Offset(fmt, j) + Width(fmt[j])
    decreases j
  {
    hide Width;
    if j > 0 {
      OffsetNext(fmt[1..], j - 1);
    } else {
      assert Offset(fmt[1..], 0) == 0;
    }
  }

  lemma {:induction false} RecOffset(j: nat)
    requires j <= |REC_FMT|
    ensures Offset(REC_FMT, j) == OFFSETS[j]
  {
    if j > 0 {
      RecOffset(j - 1);
      OffsetStep(j - 1);
      hide REC_FMT, OFFSETS, Offset, Width;
      OffsetNext(REC_FMT, j - 1);
    }
  }

  /** Each unpacked value is decoded from its own offset. */
  lemma {:induction false} UnpackAt(fmt: seq<Field>, b: seq<byte>, j: nat)
    requires |b| == CalcSize(fmt) && j < |fmt|
    ensures Offset(fmt, j) + Width(fmt[j]) <= |b|
    ensures Unpack(fmt, b)[j] == DecodeField(fmt[j], b[Offset(fmt, j)..Offset(fmt, j) + Width(fmt[j])])
    decreases j
  {
    hide DecodeField, Width;
    var w := Width(fmt[0]);
    assert b[0..w] == b[..w];
    if j > 0 {
      UnpackAt(fmt[1..], b[w..], j - 1);
      TailSlice(b, w, Offset(fmt[1..], j - 1), Width(fmt[j]));
    }
  }

  lemma TailSlice(b: seq<byte>, at: nat, offset: nat, w: nat)
    requires at + offset + w <= |b|
    ensures b[at..][offset..offset + w] == b[at + offset..at + offset + w]
  {
  }

  lemma ValuesOfDecoded(b: seq<byte>)
    requires |b| == REC_SIZE
    ensures |b| == CalcSize(REC_FMT) && Values(DecodeRec(b)) == Unpack(REC_FMT, b)
  {
    RecLayout();
    hide Unpack, CalcSize, Aligned;
    ValuesOfFrom(Unpack(REC_FMT, b));
  }

  /** Field `j` of the record that 80 bytes decode to. */
  lemma FieldAt(b: seq<byte>, j: nat)
    requires |b| == REC_SIZE && j < |REC_FMT|
    ensures OFFSETS[j] + Width(REC_FMT[j]) <= |b|
    ensures Values(DecodeRec(b))[j] == DecodeField(REC_FMT[j], b[OFFSETS[j]..OFFSETS[j] + Width(REC_FMT[j])])
  {
    hide *;
    ValuesOfDecoded(b);
    UnpackAt(REC_FMT, b, j);
    RecOffset(j);
  }

  lemma CallFields(b: seq<byte>)
    requires |b| == REC_SIZE
    ensures var r := DecodeRec(b);
            && r.ts == Magnitude(b[0..8]) && r.tid == Signed(b[8..12])
            && r.rc == Signed(b[12..16]) && r.errno == Signed(b[16..20])
            && r.pad == Signed(b[20..24])
  {
    FieldAt(b, 0);
    FieldAt(b, 1);
    FieldAt(b, 2);
    FieldAt(b, 3);
    FieldAt(b, 4);
    hide DecodeRec, Magnitude, Signed;
  }

  lemma NewFields(b: seq<byte>)
    requires |b| == REC_SIZE
    ensures var r := DecodeRec(b);
            && r.newSp == Magnitude(b[24..32]) && r.newSize == Magnitude(b[32..40])
            && r.newFlags == Signed(b[40..44]) && r.newPresent == Signed(b[44..48])
  {
    FieldAt(b, 5);
    FieldAt(b, 6);
    FieldAt(b, 7);
    FieldAt(b, 8);
    hide DecodeRec, Magnitude, Signed;
  }

  lemma OldFields(b: seq<byte>)
    requires |b| == REC_SIZE
    ensures var r := DecodeRec(b);
            && r.oldSp == Magnitude(b[48..56]) && r.oldSize == Magnitude(b[56..64])
            && r.oldFlags == Signed(b[64..68]) && r.oldPresent == Signed(b[68..72])
            && r.caller == Magnitude(b[72..80])
  {
    FieldAt(b, 9);
    FieldAt(b, 10);
    FieldAt(b, 11);
    FieldAt(b, 12);
    FieldAt(b, 13);
    hide DecodeRec, Magnitude, Signed;
  }

  /** Where each field of a decoded record comes from. */
  lemma RecFields(b: seq<byte>)
    requires |b| == 80
    ensures var r := DecodeRec(b);
            && r.ts == Magnitude(b[0..8]) && r.tid == Signed(b[8..12])
            && r.rc == Signed(b[12..16]) && r.errno == Signed(b[16..20])
            && r.pad == Signed(b[20..24]) && r.newSp == Magnitude(b[24..32])
            && r.newSize == Magnitude(b[32..40]) && r.newFlags == Signed(b[40..44])
            && r.newPresent == Signed(b[44..48]) && r.oldSp == Magnitude(b[48..56])
            && r.oldSize == Magnitude(b[56..64]) && r.oldFlags == Signed(b[64..68])
            && r.oldPresent == Signed(b[68..72]) && r.caller == Magnitude(b[72..80])
  {
    CallFields(b);
    NewFields(b);
    OldFields(b);
    hide DecodeRec, Magnitude, Signed;
  }

  /** The decoder reads back every record the tracer can write. */
  lemma RecRoundTrip(r: Rec)
    requires Fits(r)
    ensures DecodeRec(RecBytes(r)) == r
  {
    RecLayout();
    AlignedIsPacked(REC_FMT, Values(r), 0);
    PackRoundTrip(REC_FMT, Values(r));
    FromValuesOf(r);
  }

  /** Any 80 bytes are the image of exactly the record they decode to. */
  lemma BytesRoundTrip(b: seq<byte>)
    requires |b| == REC_SIZE
    ensures Fits(DecodeRec(b)) && RecBytes(DecodeRec(b)) == b
  {
    RecLayout();
    var v := Unpack(REC_FMT, b);
    UnpackRoundTrip(REC_FMT, b);
    ValuesOfFrom(v);
    AlignedIsPacked(REC_FMT, v, 0);
  }

  /** Where each field of a record is written. */
  lemma RecBytesFields(r: Rec)
    requires Fits(r)
    ensures var b := RecBytes(r);
            && |b| == 80
            && r.ts == Magnitude(b[0..8]) && r.tid == Signed(b[8..12])
            && r.rc == Signed(b[12..16]) && r.errno == Signed(b[16..20])
            && r.pad == Signed(b[20..24]) && r.newSp == Magnitude(b[24..32])
            && r.newSize == Magnitude(b[32..40]) && r.newFlags == Signed(b[40..44])
            && r.newPresent == Signed(b[44..48]) && r.oldSp == Magnitude(b[48..56])
            && r.oldSize == Magnitude(b[56..64]) && r.oldFlags == Signed(b[64..68])
            && r.oldPresent == Signed(b[68..72]) && r.caller == Magnitude(b[72..80])
  {
    RecRoundTrip(r);
    hide DecodeRec, RecBytes, Fits, Magnitude, Signed;
    RecFields(RecBytes(r));
  }
}
