/** G.711 companding (sound_conv.c).  Shifts are divisions and multiplications by powers of
    two, masks are remainders, and the bits that the source combines with | are disjoint. */
module G711 {

  type Sample = x: int | -32768 <= x <= 32767
  type Code = x: int | 0 <= x < 256

  datatype Law = Alaw | Mulaw

  /** 1 << s */
  function Pow2(s: nat): (r: nat)
    requires s < 8
    ensures r > 0
  {
    if s == 0 then 1 else if s == 1 then 2 else if s == 2 then 4 else if s == 3 then 8
    else if s == 4 then 16 else if s == 5 then 32 else if s == 6 then 64 else 128
  }

  /** val_seg */
  function Segment(val: nat): (s: nat)
    requires val <= 0x7fff
    ensures s < 8
    ensures val < 256 <==> s == 0
    ensures s > 0 ==> 128 * Pow2(s) <= val
    ensures val < 256 * Pow2(s)
  {
    var v0 := val / 128;
    var r0 := if (v0 / 16) % 16 != 0 then 4 else 0;
    var v1 := if r0 == 4 then v0 / 16 else v0;
    var r1 := if (v1 / 4) % 4 != 0 then 2 else 0;
    var v2 := if r1 == 2 then v1 / 4 else v1;
    r0 + r1 + if (v2 / 2) % 2 != 0 then 1 else 0
  }

  /** Exclusive or with 5: bits 0 and 2 are inverted. */
  function Flip5(n: nat): (r: nat)
    requires n < 16
    ensures r < 16
  {
    n + (if n % 2 == 0 then 1 else -1) + (if (n / 4) % 2 == 0 then 4 else -4)
  }

  /** Exclusive or with 0x55. */
  function Flip55(n: nat): (r: nat)
    requires n < 256
    ensures r < 256
  {
    16 * Flip5(n / 16) + Flip5(n % 16)
  }

  lemma Flip5Twice(n: nat)
    requires n < 16
    ensures Flip5(Flip5(n)) == n
  {
  }

  lemma Flip55Twice(n: nat)
    requires n < 256
    ensures Flip55(Flip55(n)) == n
  {
    Flip5Twice(n / 16);
    Flip5Twice(n % 16);
  }

  // ---------------------------------------------------------------- the four converters

  /** Segment and step of a magnitude, as the seven low bits of a code. */
  function Level(mag: nat): (r: nat)
    requires 128 <= mag <= 0x7fff
  {
    var seg := Segment(mag);
    16 * seg + (mag / (8 * Pow2(seg))) % 16
  }

  function AlawLevel(mag: nat): (r: nat)
    requires mag <= 0x7fff
  {
    if mag < 256 then mag / 16 else Level(mag)
  }

  function Magnitude(x: int): nat {
    if x >= 0 then x else if -x > 0x7fff then 0x7fff else -x
  }

  lemma LevelRange(mag: nat)
    requires mag <= 0x7fff
    ensures AlawLevel(mag) < 128
    ensures mag >= 128 ==> Level(mag) < 128
  {
  }

  /** s16_to_alaw */
  function AlawEncode(x: Sample): Code
  {
    LevelRange(Magnitude(x));
    Flip55((if x >= 0 then 128 else 0) + AlawLevel(Magnitude(x)))
  }

  function AlawMagnitude(t: nat): (r: int)
    requires t < 128
  {
    if t < 16 then 16 * t + 8 else (16 * (t % 16) + 0x108) * Pow2(t / 16 - 1)
  }

  /** alaw_to_s16 */
  function AlawDecode(c: Code): int {
    var a := Flip55(c);
    if a >= 128 then AlawMagnitude(a % 128) else -AlawMagnitude(a % 128)
  }

  function Biased(x: int): nat {
    var b := 0x84 + if x < 0 then -x else x;
    if b > 0x7fff then 0x7fff else b
  }

  /** s16_to_ulaw: the code word is complemented, a negative sign is a cleared top bit. */
  function MulawEncode(x: Sample): Code
  {
    LevelRange(Biased(x));
    (if x < 0 then 127 else 255) - Level(Biased(x))
  }

  function MulawMagnitude(t: nat): (r: int)
    requires t < 128
  {
    (8 * (t % 16) + 0x84) * Pow2(t / 16)
  }

  /** ulaw_to_s16 */
  function MulawDecode(c: Code): int {
    var u := 255 - c;
    var t := MulawMagnitude(u % 128);
    if u >= 128 then 0x84 - t else t - 0x84
  }

  // ---------------------------------------------------------------- cells

  /** The cell of a magnitude: the values that share its level; a decoder answers its middle. */
  function Middle(mag: nat): int
    requires mag <= 0x7fff
  {
    var step := 8 * Pow2(Segment(mag));
    mag / step * step + step / 2
  }

  /** In its segment a magnitude has one of sixteen steps. */
  lemma Steps(mag: nat, s: nat)
    requires s < 8 && 128 * Pow2(s) <= mag < 256 * Pow2(s)
    ensures 16 <= mag / (8 * Pow2(s)) < 32
  {
    if s == 0 {} else if s == 1 {} else if s == 2 {} else if s == 3 {}
    else if s == 4 {} else if s == 5 {} else if s == 6 {} else { assert s == 7; }
  }

  lemma Scaled(q: int, s: nat)
    requires s < 8
    ensures (8 * (q - 16) + 0x84) * Pow2(s) == q * (8 * Pow2(s)) + (8 * Pow2(s)) / 2
    ensures s > 0 ==> (16 * (q - 16) + 0x108) * Pow2(s - 1) == q * (8 * Pow2(s)) + (8 * Pow2(s)) / 2
  {
    if s == 0 {} else if s == 1 {} else if s == 2 {} else if s == 3 {}
    else if s == 4 {} else if s == 5 {} else if s == 6 {} else { assert s == 7; }
  }

  lemma MagnitudesAt(s: nat, m: nat)
    requires s < 8 && m < 16
    ensures MulawMagnitude(16 * s + m) == (8 * m + 0x84) * Pow2(s)
    ensures s > 0 ==> AlawMagnitude(16 * s + m) == (16 * m + 0x108) * Pow2(s - 1)
  {
    hide Pow2;
    assert (16 * s + m) / 16 == s && (16 * s + m) % 16 == m;
  }

  lemma LevelMiddle(mag: nat)
    requires 128 <= mag <= 0x7fff
    ensures Level(mag) < 128
    ensures MulawMagnitude(Level(mag)) == Middle(mag)
    ensures mag >= 256 ==> AlawMagnitude(Level(mag)) == Middle(mag)
  {
    hide Segment, Pow2, MulawMagnitude, AlawMagnitude;
    var s := Segment(mag);
    assert 128 * Pow2(s) <= mag by { if s == 0 { PowZero(); } }
    var q := mag / (8 * Pow2(s));
    Steps(mag, s);
    Scaled(q, s);
    assert Level(mag) == 16 * s + (q - 16);
    MagnitudesAt(s, q - 16);
  }

  lemma PowZero()
    ensures Pow2(0) == 1
  {
  }

  /** A magnitude and the middle of its cell are half a step apart at most, and in a segment
      that is not more than 1/32 of the magnitude. */
  lemma MiddleNear(mag: nat)
    requires mag <= 0x7fff
    ensures -4 * Pow2(Segment(mag)) <= Middle(mag) - mag <= 4 * Pow2(Segment(mag))
    ensures mag >= 128 ==> 32 * (4 * Pow2(Segment(mag))) <= mag
  {
    hide Segment;
    var s := Segment(mag);
    if s == 0 {} else if s == 1 {} else if s == 2 {} else if s == 3 {}
    else if s == 4 {} else if s == 5 {} else if s == 6 {} else { assert s == 7; }
  }

  /** The bounds of a cell do not leave the segment. */
  lemma CellInSegment(mag: nat)
    requires mag <= 0x7fff
    ensures var p := Pow2(Segment(mag)); mag / (8 * p) * (8 * p) + 8 * p <= 256 * p
    ensures Segment(mag) > 0 ==> var p := Pow2(Segment(mag)); mag / (8 * p) * (8 * p) >= 128 * p
  {
    hide Segment;
    var s := Segment(mag);
    if s == 0 {} else if s == 1 {} else if s == 2 {} else if s == 3 {}
    else if s == 4 {} else if s == 5 {} else if s == 6 {} else { assert s == 7; }
  }

  lemma SegmentMonotone(a: nat, b: nat)
    requires a <= b <= 0x7fff
    ensures Segment(a) <= Segment(b)
    ensures Segment(a) < Segment(b) ==> 256 * Pow2(Segment(a)) <= 128 * Pow2(Segment(b))
  {
    hide Segment;
  }

  lemma MiddleMonotone(a: nat, b: nat)
    requires a <= b <= 0x7fff
    ensures Middle(a) <= Middle(b)
  {
    hide Segment;
    SegmentMonotone(a, b);
    CellInSegment(a);
    CellInSegment(b);
    var s, s' := Segment(a), Segment(b);
    if s == s' {
      DivMonotone(a, b, s);
    }
  }

  lemma DivMonotone(a: nat, b: nat, s: nat)
    requires a <= b && s < 8
    ensures var step := 8 * Pow2(s); a / step * step <= b / step * step
  {
    if s == 0 { assert a / 8 <= b / 8; }
    else if s == 1 { assert a / 16 <= b / 16; }
    else if s == 2 { assert a / 32 <= b / 32; }
    else if s == 3 { assert a / 64 <= b / 64; }
    else if s == 4 { assert a / 128 <= b / 128; }
    else if s == 5 { assert a / 256 <= b / 256; }
    else if s == 6 { assert a / 512 <= b / 512; }
    else { assert a / 1024 <= b / 1024; }
  }

  // ---------------------------------------------------------------- levels are read back

  lemma SegmentIs(mag: nat, s: nat)
    requires s < 8 && 128 * Pow2(s) <= mag < 256 * Pow2(s) && mag <= 0x7fff
    ensures Segment(mag) == s
  {
    hide Segment;
  }

  lemma StepIs(m: nat, s: nat)
    requires s < 8 && m < 16
    ensures var mag := (8 * m + 0x84) * Pow2(s);
            128 * Pow2(s) <= mag < 256 * Pow2(s) && mag <= 0x7fff && mag / (8 * Pow2(s)) == m + 16
    ensures s > 0 ==> (16 * m + 0x108) * Pow2(s - 1) == (8 * m + 0x84) * Pow2(s)
  {
    if s == 0 {} else if s == 1 {} else if s == 2 {} else if s == 3 {}
    else if s == 4 {} else if s == 5 {} else if s == 6 {} else { assert s == 7; }
  }

  lemma LevelOfMagnitude(t: nat)
    requires t < 128
    ensures 128 <= MulawMagnitude(t) <= 0x7fff && Level(MulawMagnitude(t)) == t
    ensures t >= 16 ==> AlawMagnitude(t) == MulawMagnitude(t) && AlawMagnitude(t) >= 256
  {
    hide Segment, Pow2, MulawMagnitude, AlawMagnitude;
    var s, m := t / 16, t % 16;
    MagnitudesAt(s, m);
    StepIs(m, s);
    assert t == 16 * s + m;
    var mag := MulawMagnitude(t);
    assert Pow2(s) >= 1 && mag >= 128;
    SegmentIs(mag, s);
  }
}
