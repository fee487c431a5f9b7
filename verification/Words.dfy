/** Machine words and their little-endian bytes. */
module Words {
  /** Addresses, `size_t` and `uint64_t` count modulo this. */
  const WORD: nat := 0x1_0000_0000_0000_0000

  type word = x: nat | x < WORD

  newtype byte = x: int | 0 <= x < 256

  /** 2^n */
  function Pow2(n: nat): (r: nat)
    ensures r > 0
  {
    if n == 0 then 1 else 2 * Pow2(n - 1)
  }

  /** Halving first, or dividing by twice as much. */
  lemma HalfFirst(x: nat, p: nat)
    requires p > 0
    ensures x / (2 * p) == x / 2 / p
  {
    var q, r := x / 2 / p, x / 2 % p;
    assert x / 2 == q * p + r;
    Twice(q, p);
    QuotientUnique(x, 2 * p, q, 2 * r + x % 2);
  }

  lemma Twice(q: nat, p: nat)
    ensures 2 * (q * p) == q * (2 * p)
  {
  }

  lemma QuotientUnique(x: nat, d: nat, q: nat, r: nat)
    requires r < d && x == q * d + r
    ensures x / d == q
  {
    var n := x / d;
    if n < q {
      Larger(q, n, d);
    } else if n > q {
      Larger(n, q, d);
    }
  }

  lemma Larger(a: nat, b: nat, d: nat)
    requires a > b
    ensures a * d >= b * d + d
  {
    assert a * d == b * d + (a - b) * d;
    assert (a - b) * d == d + (a - b - 1) * d;
  }

  function LittleEndian(v: nat, width: nat): (b: seq<byte>)
    ensures |b| == width
  {
    if width == 0 then [] else [(v % 256) as byte] + LittleEndian(v / 256, width - 1)
  }

  function Magnitude(b: seq<byte>): nat {
    if b == [] then 0 else b[0] as nat + 256 * Magnitude(b[1..])
  }

  /** Two's complement: the sign is the top bit of the last of four bytes. */
  function Signed(b: seq<byte>): (v: int)
    requires |b| == 4
  {
    if Magnitude(b) >= 0x8000_0000 then Magnitude(b) - 0x1_0000_0000 else Magnitude(b)
  }

  /** Least significant byte first. */
  lemma FourBytes(b: seq<byte>)
    requires |b| == 4
    ensures Magnitude(b) == b[0] as nat + 256 * b[1] as nat + 65536 * b[2] as nat + 16777216 * b[3] as nat
    ensures Signed(b) == Magnitude(b) - if b[3] >= 128 then 0x1_0000_0000 else 0
  {
    hide Magnitude;
    MagnitudeStep(b);
    MagnitudeStep(b[1..]);
    MagnitudeStep(b[2..]);
    MagnitudeStep(b[3..]);
    NoBytes(b[4..]);
    assert b[1..][1..] == b[2..] && b[2..][1..] == b[3..] && b[3..][1..] == b[4..];
  }

  lemma NoBytes(b: seq<byte>)
    requires b == []
    ensures Magnitude(b) == 0
  {
  }

  lemma EightBytes(b: seq<byte>)
    requires |b| == 8
    ensures Magnitude(b) == Magnitude(b[..4]) + 0x1_0000_0000 * Magnitude(b[4..])
  {
    hide Magnitude;
    MagnitudeStep(b);
    MagnitudeStep(b[1..]);
    MagnitudeStep(b[2..]);
    MagnitudeStep(b[3..]);
    FourBytes(b[..4]);
    assert b[1..][1..] == b[2..] && b[2..][1..] == b[3..] && b[3..][1..] == b[4..];
  }

  function Power256(k: nat): nat {
    if k == 0 then 1 else 256 * Power256(k - 1)
  }

  lemma {:induction false} MagnitudeOfBytes(v: nat, width: nat)
    requires v < Power256(width)
    ensures Magnitude(LittleEndian(v, width)) == v
  {
    if width > 0 {
      MagnitudeOfBytes(v / 256, width - 1);
    }
  }

  lemma LittleEndianStep(v: nat, width: nat)
    requires width > 0
    ensures LittleEndian(v, width) == [(v % 256) as byte] + LittleEndian(v / 256, width - 1)
  {
  }

  lemma MagnitudeStep(b: seq<byte>)
    requires b != []
    ensures Magnitude(b) == b[0] as nat + 256 * Magnitude(b[1..])
  {
  }

  lemma BytesStep(b: seq<byte>)
    requires b != []
    ensures LittleEndian(Magnitude(b), |b|) == [b[0]] + LittleEndian(Magnitude(b[1..]), |b| - 1)
    ensures [b[0]] + b[1..] == b
  {
    hide LittleEndian, Magnitude;
    MagnitudeStep(b);
    Split256(b[0] as nat, Magnitude(b[1..]));
    LittleEndianStep(Magnitude(b), |b|);
  }

  lemma Split256(low: nat, high: nat)
    requires low < 256
    ensures (low + 256 * high) % 256 == low && (low + 256 * high) / 256 == high
  {
  }

  lemma {:induction false} BytesOfMagnitude(b: seq<byte>)
    ensures Magnitude(b) < Power256(|b|) && LittleEndian(Magnitude(b), |b|) == b
  {
    if b != [] {
      BytesOfMagnitude(b[1..]);
      BytesStep(b);
    }
  }
}
