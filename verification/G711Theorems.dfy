/** What companding keeps: codes survive a round trip, samples come back within half a step, in
    order; and so do whole buffers. */
module G711Theorems {
  import opened G711

  function Abs(x: int): nat {
    if x < 0 then -x else x
  }

  // ---------------------------------------------------------------- A-law

  lemma AlawLevelOfMagnitude(t: nat)
    requires t < 128
    ensures 8 <= AlawMagnitude(t) <= 0x7fff && AlawLevel(AlawMagnitude(t)) == t
  {
    hide Level, MulawMagnitude;
    LevelOfMagnitude(t);
  }

  /** Decoding and encoding again gives back every A-law code. */
  lemma AlawCodes(c: Code)
    ensures -32768 <= AlawDecode(c) <= 32767 && AlawEncode(AlawDecode(c)) == c
  {
    hide AlawMagnitude, AlawLevel, Flip55;
    var a := Flip55(c);
    AlawLevelOfMagnitude(a % 128);
    Flip55Twice(c);
  }

  /** The middle of the A-law cell: the first two segments share a step of 16. */
  function AlawMiddle(mag: nat): int
    requires mag <= 0x7fff
  {
    if mag < 256 then 16 * (mag / 16) + 8 else Middle(mag)
  }

  lemma AlawLevelMiddle(mag: nat)
    requires mag <= 0x7fff
    ensures AlawLevel(mag) < 128 && AlawMagnitude(AlawLevel(mag)) == AlawMiddle(mag)
  {
    hide Level, Middle, Pow2;
    LevelRange(mag);
    if mag >= 256 { LevelMiddle(mag); }
  }

  lemma AlawQuantises(x: Sample)
    ensures AlawDecode(AlawEncode(x)) == if x >= 0 then AlawMiddle(Magnitude(x)) else -AlawMiddle(Magnitude(x))
  {
    hide Flip55, AlawLevel, AlawMagnitude, AlawMiddle;
    var mag := Magnitude(x);
    AlawLevelMiddle(mag);
    Flip55Twice((if x >= 0 then 128 else 0) + AlawLevel(mag));
  }

  /** A sample comes back within 8 when it is small, and within 1/32 of itself otherwise: half
      a step of its segment. */
  lemma AlawError(x: Sample)
    ensures Abs(x) < 256 ==> Abs(AlawDecode(AlawEncode(x)) - x) <= 8
    ensures Abs(x) >= 256 ==> 32 * Abs(AlawDecode(AlawEncode(x)) - x) <= Abs(x)
    ensures Abs(x) >= 256 ==> Abs(AlawDecode(AlawEncode(x)) - x) <= 4 * Pow2(Segment(Magnitude(x)))
  {
    hide AlawDecode, AlawEncode, Middle, Segment, Pow2;
    AlawQuantises(x);
    MiddleNear(Magnitude(x));
    if x == -32768 { MostNegative(); }
  }

  lemma MostNegative()
    ensures Segment(32767) == 7 && Pow2(7) == 128 && Middle(32767) == 32256
  {
  }

  lemma AlawMiddleMonotone(a: nat, b: nat)
    requires a <= b <= 0x7fff
    ensures 0 < AlawMiddle(a) <= AlawMiddle(b)
  {
    hide Middle, Segment, Pow2;
    if 256 <= a { MiddleMonotone(a, b); AboveSmall(a); }
    else if 256 <= b { AboveSmall(b); }
    else { assert a / 16 <= b / 16; }
  }

  lemma AboveSmall(a: nat)
    requires 256 <= a <= 0x7fff
    ensures Middle(a) >= 256
  {
    hide Segment;
    CellInSegment(a);
  }

  lemma AlawMonotone(x: Sample, y: Sample)
    requires x <= y
    ensures AlawDecode(AlawEncode(x)) <= AlawDecode(AlawEncode(y))
  {
    hide AlawDecode, AlawEncode, AlawMiddle;
    AlawQuantises(x);
    AlawQuantises(y);
    if x >= 0 { AlawMiddleMonotone(Magnitude(x), Magnitude(y)); }
    else if y < 0 { AlawMiddleMonotone(Magnitude(y), Magnitude(x)); }
    else {
      AlawMiddleMonotone(Magnitude(x), Magnitude(x));
      AlawMiddleMonotone(Magnitude(y), Magnitude(y));
    }
  }

  // ---------------------------------------------------------------- code words

  /** Bit `k` of a number, the lowest being bit 0. */
  function BitOf(n: nat, k: nat): nat
    requires k < 8
  {
    (n / Pow2(k)) % 2
  }

  /** Width and lower end of the decision interval of step `q` in segment `s`: the first two
      A-law segments share a width of 16. */
  function AlawWidth(s: nat): nat
    requires s < 8
  {
    if s == 0 then 16 else 8 * Pow2(s)
  }

  function AlawLow(s: nat, q: nat): nat
    requires s < 8
  {
    if s == 0 then 16 * q else (16 + q) * AlawWidth(s)
  }

  predicate InAlawCell(mag: nat, s: nat, q: nat) {
    s < 8 && q < 16 && AlawLow(s, q) <= mag < AlawLow(s, q) + AlawWidth(s)
  }

  predicate InMulawCell(mag: nat, s: nat, q: nat) {
    s < 8 && q < 16 && (16 + q) * (8 * Pow2(s)) <= mag < (17 + q) * (8 * Pow2(s))
  }

  lemma QuotientIs(mag: nat, d: nat, q: nat)
    requires d > 0 && q * d <= mag < (q + 1) * d
    ensures mag / d == q
  {
    var r := mag / d;
    assert mag == r * d + mag % d;
    Multiples(r - q, d);
    assert (r - q) * d == r * d - q * d;
  }

  lemma Multiples(x: int, d: int)
    requires d >= 0
    ensures x >= 1 ==> x * d >= d
    ensures x <= -1 ==> x * d <= -d
  {
  }

  lemma LevelOfCell(mag: nat, s: nat, q: nat)
    requires InMulawCell(mag, s, q) && mag <= 0x7fff
    ensures mag >= 128 && Level(mag) == 16 * s + q
  {
    hide Segment, Pow2;
    var d := 8 * Pow2(s);
    assert (16 + q) * d == 16 * d + q * d && (17 + q) * d == 32 * d - (15 - q) * d;
    assert q * d >= 0 && (15 - q) * d >= 0;
    SegmentIs(mag, s);
    QuotientIs(mag, d, 16 + q);
  }

  /** Exclusive or with 5 inverts bits 0 and 2 of a nibble. */
  lemma NibbleBits(n: nat)
    requires n < 16
    ensures BitOf(Flip5(n), 0) == 1 - BitOf(n, 0) && BitOf(Flip5(n), 1) == BitOf(n, 1)
    ensures BitOf(Flip5(n), 2) == 1 - BitOf(n, 2) && BitOf(Flip5(n), 3) == BitOf(n, 3)
  {
    hide BitOf, Flip5;
    BitsAre(n);
    BitsAre(Flip5(n));
    FlippedLow(n);
    FlippedHigh(n);
  }

  lemma FlippedLow(n: nat)
    requires n < 16
    ensures Flip5(n) % 2 == 1 - n % 2 && Flip5(n) / 2 % 2 == n / 2 % 2
  {
    if n < 8 {} else {}
  }

  lemma FlippedHigh(n: nat)
    requires n < 16
    ensures Flip5(n) / 4 % 2 == 1 - n / 4 % 2 && Flip5(n) / 8 % 2 == n / 8 % 2
  {
    if n < 8 {} else {}
  }

  /** The bits of a number, as quotients and remainders by constants. */
  lemma BitsAre(n: nat)
    ensures BitOf(n, 0) == n % 2 && BitOf(n, 1) == n / 2 % 2 && BitOf(n, 2) == n / 4 % 2 && BitOf(n, 3) == n / 8 % 2
    ensures BitOf(n, 4) == n / 16 % 2 && BitOf(n, 5) == n / 32 % 2 && BitOf(n, 6) == n / 64 % 2 && BitOf(n, 7) == n / 128 % 2
  {
  }

  lemma LowBits(a: nat, b: nat)
    requires b < 16
    ensures (16 * a + b) % 2 == b % 2 && (16 * a + b) / 2 == 8 * a + b / 2 && (16 * a + b) / 4 == 4 * a + b / 4
    ensures (16 * a + b) / 8 == 2 * a + b / 8
  {
  }

  lemma HighBits(a: nat, b: nat)
    requires b < 16
    ensures (16 * a + b) / 16 == a && (16 * a + b) / 32 == a / 2 && (16 * a + b) / 64 == a / 4 && (16 * a + b) / 128 == a / 8
  {
  }

  lemma Parity(x: int, y: int)
    ensures (2 * x + y) % 2 == y % 2 && (2 * x + 1 - y) % 2 == 1 - y % 2
  {
  }

  lemma BitsOfNibbles(a: nat, b: nat, k: nat)
    requires b < 16 && k < 4
    ensures BitOf(16 * a + b, k) == BitOf(b, k) && BitOf(16 * a + b, k + 4) == BitOf(a, k)
  {
    hide BitOf;
    BitsAre(16 * a + b);
    BitsAre(a);
    BitsAre(b);
    LowBits(a, b);
    HighBits(a, b);
    Parity(4 * a, b / 2);
    Parity(2 * a, b / 4);
    Parity(a, b / 8);
    assert k == 0 || k == 1 || k == 2 || k == 3;
  }

  lemma EvenBitsInverted(n: nat, k: nat)
    requires n < 256 && k < 8
    ensures BitOf(Flip55(n), k) == if k % 2 == 1 then BitOf(n, k) else 1 - BitOf(n, k)
  {
    hide BitOf, Flip5;
    var a, b := n / 16, n % 16;
    assert n == 16 * a + b;
    NibbleBits(a);
    NibbleBits(b);
    BitsOfNibbles(a, b, k % 4);
    BitsOfNibbles(Flip5(a), Flip5(b), k % 4);
    assert k % 4 == 0 || k % 4 == 1 || k % 4 == 2 || k % 4 == 3;
  }

  lemma Complements(n: nat)
    requires n < 256
    ensures var m := 255 - n;
            && m / 2 == 127 - n / 2 && m / 4 == 63 - n / 4 && m / 8 == 31 - n / 8 && m / 16 == 15 - n / 16
            && m / 32 == 7 - n / 32 && m / 64 == 3 - n / 64 && m / 128 == 1 - n / 128
  {
  }

  lemma AllBitsInverted(n: nat, k: nat)
    requires n < 256 && k < 8
    ensures BitOf(255 - n, k) == 1 - BitOf(n, k)
  {
    if k < 4 { LowBitsInverted(n, k); } else { HighBitsInverted(n, k); }
  }

  lemma LowBitsInverted(n: nat, k: nat)
    requires n < 256 && k < 4
    ensures BitOf(255 - n, k) == 1 - BitOf(n, k)
  {
    hide BitOf;
    Complements(n);
    BitsAre(n);
    BitsAre(255 - n);
    Parity(127, n);
    Parity(63, n / 2);
    Parity(31, n / 4);
    Parity(15, n / 8);
    assert k == 0 || k == 1 || k == 2 || k == 3;
  }

  lemma HighBitsInverted(n: nat, k: nat)
    requires n < 256 && 4 <= k < 8
    ensures BitOf(255 - n, k) == 1 - BitOf(n, k)
  {
    hide BitOf;
    Complements(n);
    BitsAre(n);
    BitsAre(255 - n);
    Parity(7, n / 16);
    Parity(3, n / 32);
    Parity(1, n / 64);
    Parity(0, n / 128);
    assert k == 4 || k == 5 || k == 6 || k == 7;
  }

  /** The A-law code word: sign (1 for a sample that is not negative), segment and step of the
      decision interval, with the even bits inverted. */
  lemma AlawWord(x: Sample, s: nat, q: nat, k: nat)
    requires InAlawCell(Magnitude(x), s, q) && k < 8
    ensures var word := (if x >= 0 then 128 else 0) + 16 * s + q;
            BitOf(AlawEncode(x), k) == if k % 2 == 1 then BitOf(word, k) else 1 - BitOf(word, k)
  {
    hide BitOf, Flip55, Level, Segment;
    var mag := Magnitude(x);
    AlawLevelIs(mag, s, q);
    EvenBitsInverted((if x >= 0 then 128 else 0) + 16 * s + q, k);
  }

  lemma AlawLevelIs(mag: nat, s: nat, q: nat)
    requires InAlawCell(mag, s, q) && mag <= 0x7fff
    ensures AlawLevel(mag) == 16 * s + q
  {
    hide Level;
    if s == 0 { assert mag / 16 == q; }
    else {
      assert InMulawCell(mag, s, q) by {
        if s == 1 {} else if s == 2 {} else if s == 3 {} else if s == 4 {} else if s == 5 {} else if s == 6 {} else { assert s == 7; }
      }
      assert mag >= 256 by {
        if s == 1 {} else if s == 2 {} else if s == 3 {} else if s == 4 {} else if s == 5 {} else if s == 6 {} else { assert s == 7; }
      }
      LevelOfCell(mag, s, q);
    }
  }

  /** The decision intervals cover every sample, for both laws. */
  lemma CellsCover(x: Sample)
    ensures exists s, q :: InAlawCell(Magnitude(x), s, q)
    ensures exists s, q :: InMulawCell(Biased(x), s, q)
  {
    MulawCell(Biased(x));
    var mag := Magnitude(x);
    if mag < 256 { assert InAlawCell(mag, 0, mag / 16); }
    else {
      MulawCell(mag);
      var s, q :| InMulawCell(mag, s, q);
      assert InAlawCell(mag, s, q) by {
        if s == 0 {} else if s == 1 {} else if s == 2 {} else if s == 3 {}
        else if s == 4 {} else if s == 5 {} else if s == 6 {} else { assert s == 7; }
      }
    }
  }

  lemma MulawCell(mag: nat)
    requires 128 <= mag <= 0x7fff
    ensures exists s, q :: InMulawCell(mag, s, q)
  {
    hide Segment;
    var s := Segment(mag);
    assert 128 * Pow2(s) <= mag by { if s == 0 { PowZero(); } }
    Steps(mag, s);
    var q := mag / (8 * Pow2(s)) - 16;
    assert InMulawCell(mag, s, q) by {
      if s == 0 {} else if s == 1 {} else if s == 2 {} else if s == 3 {}
      else if s == 4 {} else if s == 5 {} else if s == 6 {} else { assert s == 7; }
    }
  }

  /** The mu-law code word: sign (1 for a negative sample), segment and step of the decision
      interval of the biased magnitude, with all bits inverted. */
  lemma MulawWord(x: Sample, s: nat, q: nat, k: nat)
    requires InMulawCell(Biased(x), s, q) && k < 8
    ensures BitOf(MulawEncode(x), k) == 1 - BitOf((if x < 0 then 128 else 0) + 16 * s + q, k)
  {
    hide BitOf, Level, Segment;
    LevelOfCell(Biased(x), s, q);
    AllBitsInverted((if x < 0 then 128 else 0) + 16 * s + q, k);
  }

  /** Silence. */
  lemma SilenceWords()
    ensures AlawEncode(0) == 0xd5 && MulawEncode(0) == 0xff
  {
  }

  // ---------------------------------------------------------------- mu-law

  /** Mu-law has two codes for zero; every other code survives, and 0x7f becomes 0xff. */
  lemma MulawCodes(c: Code)
    ensures -32768 <= MulawDecode(c) <= 32767
    ensures MulawEncode(MulawDecode(c)) == if c == 0x7f then 0xff else c
  {
    hide MulawMagnitude, Level;
    var t := (255 - c) % 128;
    LevelOfMagnitude(t);
    SmallestMagnitude(t);
  }

  lemma SmallestMagnitude(t: nat)
    requires t < 128
    ensures MulawMagnitude(t) >= 0x84 && (MulawMagnitude(t) == 0x84 <==> t == 0)
  {
  }

  lemma MulawQuantises(x: Sample)
    ensures var m := Middle(Biased(x)) - 0x84;
            MulawDecode(MulawEncode(x)) == if x < 0 then -m else m
  {
    hide MulawMagnitude, Level, Middle;
    var b := Biased(x);
    LevelRange(b);
    LevelMiddle(b);
  }

  lemma MulawError(x: Sample)
    requires Abs(x) <= 32635
    ensures 32 * Abs(MulawDecode(MulawEncode(x)) - x) <= Abs(x) + 132
  {
    hide MulawDecode, MulawEncode, Middle, Segment, Pow2;
    MulawQuantises(x);
    MiddleNear(Biased(x));
  }

  lemma SmallestMiddle()
    ensures Middle(0x84) == 0x84
  {
  }

  lemma MulawMonotone(x: Sample, y: Sample)
    requires x <= y
    ensures MulawDecode(MulawEncode(x)) <= MulawDecode(MulawEncode(y))
  {
    hide MulawDecode, MulawEncode, Middle;
    MulawQuantises(x);
    MulawQuantises(y);
    SmallestMiddle();
    MiddleMonotone(0x84, Biased(x));
    MiddleMonotone(0x84, Biased(y));
    if x >= 0 { MiddleMonotone(Biased(x), Biased(y)); }
    else if y < 0 { MiddleMonotone(Biased(y), Biased(x)); }
  }

  // ---------------------------------------------------------------- buffers

  function Encode(law: Law, x: Sample): Code {
    if law == Alaw then AlawEncode(x) else MulawEncode(x)
  }

  function Decode(law: Law, c: Code): Sample {
    AlawCodes(c);
    MulawCodes(c);
    if law == Alaw then AlawDecode(c) else MulawDecode(c)
  }

  function EncodeAll(law: Law, xs: seq<Sample>): (r: seq<Code>)
    ensures |r| == |xs| && forall i :: 0 <= i < |xs| ==> r[i] == Encode(law, xs[i])
  {
    seq(|xs|, i requires 0 <= i < |xs| => Encode(law, xs[i]))
  }

  function DecodeAll(law: Law, cs: seq<Code>): (r: seq<Sample>)
    ensures |r| == |cs| && forall i :: 0 <= i < |cs| ==> r[i] == Decode(law, cs[i])
  {
    seq(|cs|, i requires 0 <= i < |cs| => Decode(law, cs[i]))
  }

  /** The one code that mu-law rewrites. */
  function Canonical(law: Law, c: Code): Code {
    if law == Mulaw && c == 0x7f then 0xff else c
  }

  /** Decoding a buffer and encoding it again changes nothing but the negative zeros of mu-law. */
  lemma {:induction false} BufferCodes(law: Law, cs: seq<Code>)
    ensures EncodeAll(law, DecodeAll(law, cs)) == seq(|cs|, i requires 0 <= i < |cs| => Canonical(law, cs[i]))
  {
    hide AlawEncode, AlawDecode, MulawEncode, MulawDecode;
    forall i | 0 <= i < |cs| ensures Encode(law, Decode(law, cs[i])) == Canonical(law, cs[i]) {
      AlawCodes(cs[i]);
      MulawCodes(cs[i]);
    }
  }

  lemma CanonicalDecodes(law: Law, c: Code)
    ensures Decode(law, Canonical(law, c)) == Decode(law, c)
  {
    if law == Mulaw && c == 0x7f { assert MulawMagnitude(0) == 0x84; }
  }

  /** A buffer that went through a codec once is left alone by every later trip. */
  lemma {:induction false} BufferIdempotent(law: Law, xs: seq<Sample>)
    ensures var once := DecodeAll(law, EncodeAll(law, xs));
            DecodeAll(law, EncodeAll(law, once)) == once
  {
    hide Encode, Decode, Canonical;
    var cs := EncodeAll(law, xs);
    BufferCodes(law, cs);
    forall i | 0 <= i < |cs| ensures Decode(law, Canonical(law, cs[i])) == Decode(law, cs[i]) { CanonicalDecodes(law, cs[i]); }
  }
}
