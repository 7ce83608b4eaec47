/** The IPv6 printer (inet_ntop.c). */
module Ipv6Printer {
  import opened Wrappers
  import opened Text
  import opened Ipv6Text

  /** The run of zero groups that "::" replaces. */
  datatype Gap = NoGap | Gap(base: nat, len: nat)

  predicate ZeroRun(w: seq<Word>, base: nat, len: nat) {
    len >= 1 && base + len <= |w| && forall k :: base <= k < base + len ==> w[k] == 0
  }

  /** The first of the longest runs of zero groups, if that is longer than one group. */
  ghost predicate LeftmostLongest(w: seq<Word>, g: Gap) {
    match g
    case NoGap => forall b: nat, n: nat :: ZeroRun(w, b, n) ==> n < 2
    case Gap(base, len) =>
      && len >= 2 && ZeroRun(w, base, len)
      && (forall b: nat, n: nat :: ZeroRun(w, b, n) ==> n < len || (n == len && base <= b))
  }

  lemma OneLeftmostLongest(w: seq<Word>, g: Gap, g': Gap)
    requires LeftmostLongest(w, g) && LeftmostLongest(w, g')
    ensures g == g'
  {
    if g.Gap? { assert ZeroRun(w, g.base, g.len); }
    if g'.Gap? { assert ZeroRun(w, g'.base, g'.len); }
  }

  /** ::d.d.d.d and ::ffff:d.d.d.d */
  predicate Embedded(w: seq<Word>, g: Gap)
    requires |w| == 8
  {
    g.Gap? && g.base == 0 && (g.len == 6 || (g.len == 5 && w[5] == 0xffff))
  }

  function Hex(w: Word): string {
    Numeral(w, true)
  }

  function Groups(w: seq<Word>, a: nat, b: nat): (r: seq<string>)
    requires a <= b <= |w|
    ensures |r| == b - a
    ensures forall i :: 0 <= i < b - a ==> r[i] == Hex(w[a + i])
  {
    seq(b - a, i requires 0 <= i < b - a => Hex(w[a + i]))
  }

  /** _inet_ntop4 */
  function Dotted(a: Byte, b: Byte, c: Byte, d: Byte): string {
    Join([Numeral(a, false), Numeral(b, false), Numeral(c, false), Numeral(d, false)], '.')
  }

  function DottedWords(hi: Word, lo: Word): string {
    Dotted(hi / 256, hi % 256, lo / 256, lo % 256)
  }

  /** The groups behind the gap. */
  function Tail(w: seq<Word>, g: Gap): seq<string>
    requires |w| == 8 && g.Gap? && g.base + g.len <= 8
  {
    if Embedded(w, g) then Groups(w, g.len, 6) + [DottedWords(w[6], w[7])]
    else Groups(w, g.base + g.len, 8)
  }

  /** What is printed for the words `w` when `g` is left out. */
  function Render(w: seq<Word>, g: Gap): string
    requires |w| == 8 && (g.Gap? ==> g.base + g.len <= 8)
  {
    match g
    case NoGap => Join(Groups(w, 0, 8), ':')
    case Gap(base, len) => Join(Groups(w, 0, base), ':') + "::" + Join(Tail(w, g), ':')
  }

  // ---------------------------------------------------------------- what is printed can be read

  predicate Plain(f: string) {
    f != "" && ':' !in f
  }

  lemma DigitsPlain(s: string)
    requires Digits(s)
    ensures ':' !in s && '.' !in s
  {
  }

  lemma HexReads(w: Word)
    ensures ReadGroup(Hex(w)) == Some(w) && Plain(Hex(w)) && '.' !in Hex(w) && |Hex(w)| <= 4
  {
    hide Numeral, Value, Digits;
    HexValue(w);
    HexLength(w);
    NumeralDigits(w, true);
    DigitsPlain(Numeral(w, true));
  }

  lemma DecimalReads(b: Byte)
    ensures ReadByte(Numeral(b, false)) == Some(b) && Plain(Numeral(b, false)) && '.' !in Numeral(b, false) && |Numeral(b, false)| <= 3
  {
    hide Numeral, Value, Digits;
    DecimalValue(b);
    DecimalLength(b);
    NumeralDigits(b, false);
    DigitsPlain(Numeral(b, false));
  }

  lemma JoinContents(fs: seq<string>, sep: char)
    ensures forall i, c :: 0 <= i < |fs| && c in fs[i] ==> c in Join(fs, sep)
    ensures |fs| >= 2 ==> sep in Join(fs, sep)
    ensures forall c :: c in Join(fs, sep) ==> c == sep || exists i :: 0 <= i < |fs| && c in fs[i]
  {
    if |fs| >= 2 {
      JoinContents(fs[1..], sep);
      forall c | c in Join(fs, sep) ensures c == sep || exists i :: 0 <= i < |fs| && c in fs[i] {
        if c !in fs[0] && c != sep {
          var i :| 0 <= i < |fs[1..]| && c in fs[1..][i];
          assert c in fs[i + 1];
        }
      }
      forall i, c | 0 <= i < |fs| && c in fs[i] ensures c in Join(fs, sep) {
        if i > 0 { assert fs[1..][i - 1] == fs[i]; }
      }
    }
  }

  lemma JoinLength(fs: seq<string>, sep: char, n: nat)
    requires forall i :: 0 <= i < |fs| ==> |fs[i]| <= n
    ensures fs != [] ==> |Join(fs, sep)| <= |fs| * (n + 1) - 1
  {
    if |fs| >= 2 { JoinLength(fs[1..], sep, n); }
  }

  lemma DottedReads(a: Byte, b: Byte, c: Byte, d: Byte)
    ensures ReadDotted(Dotted(a, b, c, d)) == Some([Pair(a, b), Pair(c, d)])
    ensures Plain(Dotted(a, b, c, d)) && '.' in Dotted(a, b, c, d) && |Dotted(a, b, c, d)| <= 15
  {
    hide Numeral, Join, Split, ReadByte;
    var fs := [Numeral(a, false), Numeral(b, false), Numeral(c, false), Numeral(d, false)];
    DecimalReads(a);
    DecimalReads(b);
    DecimalReads(c);
    DecimalReads(d);
    SplitJoin(fs, '.');
    JoinContents(fs, '.');
    JoinLength(fs, '.', 3);
  }

  lemma GroupsRead(w: seq<Word>, a: nat, b: nat, last: bool)
    requires a <= b <= |w|
    ensures ReadFields(Groups(w, a, b), last) == Some(w[a..b])
    ensures forall i :: 0 <= i < b - a ==> Plain(Groups(w, a, b)[i]) && |Groups(w, a, b)[i]| <= 4
    decreases b - a
  {
    if a < b {
      HexReads(w[a]);
      assert Groups(w, a, b)[1..] == Groups(w, a + 1, b);
      GroupsRead(w, a + 1, b, last);
      assert w[a..b] == [w[a]] + w[a + 1..b];
      forall i | 0 <= i < b - a ensures Plain(Groups(w, a, b)[i]) && |Groups(w, a, b)[i]| <= 4 { HexReads(w[a + i]); }
    } else {
      assert Groups(w, a, b) == [] && w[a..b] == [];
    }
  }

  lemma EmbeddedReads(w: seq<Word>, a: nat)
    requires a <= 6 && |w| == 8
    ensures ReadFields(Groups(w, a, 6) + [DottedWords(w[6], w[7])], true) == Some(w[a..])
    decreases 6 - a
  {
    hide Hex, Dotted, ReadDotted, ReadGroup;
    var fs := Groups(w, a, 6) + [DottedWords(w[6], w[7])];
    if a == 6 {
      DottedReads(w[6] / 256, w[6] % 256, w[7] / 256, w[7] % 256);
      assert fs == [DottedWords(w[6], w[7])];
      assert w[6..] == [w[6], w[7]];
    } else {
      HexReads(w[a]);
      assert fs[1..] == Groups(w, a + 1, 6) + [DottedWords(w[6], w[7])];
      EmbeddedReads(w, a + 1);
      assert w[a..] == [w[a]] + w[a + 1..];
    }
  }

  lemma TailReads(w: seq<Word>, g: Gap)
    requires |w| == 8 && g.Gap? && g.base + g.len <= 8
    ensures ReadFields(Tail(w, g), true) == Some(w[g.base + g.len..])
    ensures forall i :: 0 <= i < |Tail(w, g)| ==> Plain(Tail(w, g)[i])
  {
    hide ReadFields, Dotted;
    if Embedded(w, g) {
      EmbeddedReads(w, g.len);
      GroupsRead(w, g.len, 6, true);
      DottedReads(w[6] / 256, w[6] % 256, w[7] / 256, w[7] % 256);
    } else {
      GroupsRead(w, g.base + g.len, 8, true);
      assert w[g.base + g.len..8] == w[g.base + g.len..];
    }
  }

  lemma NoDoubleHere(t: string)
    requires t != "" && (|t| >= 2 ==> t[0] != ':' || t[1] != ':') && FindDouble(t[1..]).None?
    ensures FindDouble(t).None?
  {
  }

  lemma {:induction false} NoDoubleField(f: string, s: string)
    requires ':' !in f && FindDouble(s).None? && (s == "" || s[0] != ':')
    ensures FindDouble(f + ":" + s).None?
  {
    hide FindDouble;
    var t := f + ":" + s;
    if f == "" { assert t[1..] == s; }
    else {
      NoDoubleField(f[1..], s);
      assert t[1..] == f[1..] + ":" + s && t[0] == f[0];
    }
    NoDoubleHere(t);
  }

  lemma NoDoublePlain(f: string)
    requires ':' !in f
    ensures FindDouble(f).None?
  {
    if f != "" { NoDoublePlain(f[1..]); }
  }

  lemma NoDoubleJoin(fs: seq<string>)
    requires forall i :: 0 <= i < |fs| ==> Plain(fs[i])
    ensures FindDouble(Join(fs, ':')).None?
    ensures fs != [] ==> Join(fs, ':') != "" && Join(fs, ':')[0] != ':' && Join(fs, ':')[|Join(fs, ':')| - 1] != ':'
  {
    if |fs| == 1 { NoDoublePlain(fs[0]); }
    if |fs| >= 2 {
      NoDoubleJoin(fs[1..]);
      NoDoubleField(fs[0], Join(fs[1..], ':'));
    }
  }

  lemma DoubleAt(t: string, s: string)
    requires FindDouble(t).None? && (t != "" ==> t[|t| - 1] != ':')
    ensures FindDouble(t + "::" + s) == Some(|t|)
  {
    var u := t + "::" + s;
    if t != "" {
      assert u[1..] == t[1..] + "::" + s;
      DoubleAt(t[1..], s);
    }
  }

  lemma JoinReads(fs: seq<string>, last: bool)
    requires forall i :: 0 <= i < |fs| ==> Plain(fs[i])
    ensures ReadGroups(Join(fs, ':'), last) == ReadFields(fs, last)
  {
    hide ReadFields, Split;
    if fs != [] {
      NoDoubleJoin(fs);
      SplitJoin(fs, ':');
    } else {
      NoFields(last);
    }
  }

  lemma NoFields(last: bool)
    ensures ReadFields([], last) == Some([])
  {
  }

  /** Every address is read back from what is printed for it, whatever run of zero groups is
      left out. */
  lemma RenderReads(w: seq<Word>, g: Gap)
    requires |w| == 8 && (g.Gap? ==> ZeroRun(w, g.base, g.len))
    ensures ReadAddress(Render(w, g)) == Some(w)
  {
    hide ReadFields, Split, Join, FindDouble, Tail;
    match g
    case NoGap =>
      GroupsRead(w, 0, 8, true);
      NoDoubleJoin(Groups(w, 0, 8));
      JoinReads(Groups(w, 0, 8), true);
      assert w[0..8] == w;
    case Gap(base, len) =>
      var left, right := Join(Groups(w, 0, base), ':'), Join(Tail(w, g), ':');
      GroupsRead(w, 0, base, false);
      TailReads(w, g);
      JoinReads(Groups(w, 0, base), false);
      JoinReads(Tail(w, g), true);
      NoDoubleJoin(Groups(w, 0, base));
      EmptyJoin(':');
      DoubleAt(left, right);
      var s := Render(w, g);
      assert s[..|left|] == left && s[|left| + 2..] == right;
      assert w == w[0..base] + Zeros(len) + w[base + len..];
  }

  lemma EmptyJoin(sep: char)
    ensures Join([], sep) == "" && FindDouble("").None?
  {
  }

  // ---------------------------------------------------------------- the dotted form

  /** Words 0 to 4 are zero, and words 5 and 6 are those of ::d.d.d.d, other than :: and ::x, or of
      ::ffff:d.d.d.d. */
  predicate HoldsIpv4(w: seq<Word>)
    requires |w| == 8
  {
    (forall k :: 0 <= k < 5 ==> w[k] == 0) && ((w[5] == 0 && w[6] != 0) || w[5] == 0xffff)
  }

  lemma EmbeddedIs(w: seq<Word>, g: Gap)
    requires |w| == 8 && LeftmostLongest(w, g)
    ensures Embedded(w, g) <==> HoldsIpv4(w)
  {
    if HoldsIpv4(w) {
      assert ZeroRun(w, 0, if w[5] == 0 then 6 else 5);
    }
    if Embedded(w, g) && g.len == 6 && w[6] == 0 { assert ZeroRun(w, 0, 7); }
  }

  lemma GroupsUndotted(w: seq<Word>, a: nat, b: nat)
    requires a <= b <= |w|
    ensures '.' !in Join(Groups(w, a, b), ':')
  {
    hide Hex;
    forall i | 0 <= i < b - a ensures '.' !in Groups(w, a, b)[i] { HexReads(w[a + i]); }
    JoinContents(Groups(w, a, b), ':');
  }

  lemma TailDotted(w: seq<Word>, g: Gap)
    requires |w| == 8 && g.Gap? && g.base + g.len <= 8
    ensures '.' in Join(Tail(w, g), ':') <==> Embedded(w, g)
  {
    hide Hex, Dotted, Join;
    if Embedded(w, g) {
      var fs := Groups(w, g.len, 6) + [DottedWords(w[6], w[7])];
      DottedReads(w[6] / 256, w[6] % 256, w[7] / 256, w[7] % 256);
      JoinContents(fs, ':');
      assert fs[6 - g.len] == DottedWords(w[6], w[7]);
    } else {
      GroupsUndotted(w, g.base + g.len, 8);
    }
  }

  /** The dotted form is printed exactly for the addresses that hold an IPv4 address. */
  lemma RenderDotted(w: seq<Word>, g: Gap)
    requires |w| == 8 && LeftmostLongest(w, g)
    ensures '.' in Render(w, g) <==> HoldsIpv4(w)
  {
    hide LeftmostLongest, Join, Tail, Embedded;
    EmbeddedIs(w, g);
    match g
    case NoGap =>
      NeverEmbedded(w);
      GroupsUndotted(w, 0, 8);
    case Gap(base, len) =>
      GapShape(w, g);
      GroupsUndotted(w, 0, base);
      TailDotted(w, g);
  }

  /** No letter of upper case. */
  predicate LowerCase(s: string) {
    forall i :: 0 <= i < |s| ==> !('A' <= s[i] <= 'Z')
  }

  lemma NumeralLower(n: nat, hex: bool)
    ensures LowerCase(Numeral(n, hex))
  {
    if hex && n >= 16 { NumeralLower(n / 16, hex); }
    if !hex && n >= 10 { NumeralLower(n / 10, hex); }
  }

  lemma JoinLower(fs: seq<string>, sep: char)
    requires !('A' <= sep <= 'Z') && forall i :: 0 <= i < |fs| ==> LowerCase(fs[i])
    ensures LowerCase(Join(fs, sep))
  {
    hide LowerCase;
    JoinContents(fs, sep);
    var s := Join(fs, sep);
    assert forall c :: c in s ==> !('A' <= c <= 'Z') by {
      forall c | c in s ensures !('A' <= c <= 'Z') {
        if c != sep {
          var i :| 0 <= i < |fs| && c in fs[i];
          LowerAll(fs[i], c);
        }
      }
    }
    AllLower(s);
  }

  lemma LowerAll(s: string, c: char)
    requires LowerCase(s) && c in s
    ensures !('A' <= c <= 'Z')
  {
  }

  lemma AllLower(s: string)
    requires forall c :: c in s ==> !('A' <= c <= 'Z')
    ensures LowerCase(s)
  {
    forall i | 0 <= i < |s| ensures !('A' <= s[i] <= 'Z') { assert s[i] in s; }
  }

  lemma GroupsLower(w: seq<Word>, a: nat, b: nat)
    requires a <= b <= |w|
    ensures LowerCase(Join(Groups(w, a, b), ':'))
  {
    forall i | 0 <= i < b - a ensures LowerCase(Groups(w, a, b)[i]) { NumeralLower(w[a + i], true); }
    JoinLower(Groups(w, a, b), ':');
  }

  lemma TailLower(w: seq<Word>, g: Gap)
    requires |w| == 8 && g.Gap? && g.base + g.len <= 8
    ensures LowerCase(Join(Tail(w, g), ':'))
  {
    hide LowerCase, Join, Numeral;
    if Embedded(w, g) {
      var fs := Groups(w, g.len, 6) + [DottedWords(w[6], w[7])];
      forall n: nat, hex ensures LowerCase(Numeral(n, hex)) { NumeralLower(n, hex); }
      JoinLower([Numeral(w[6] / 256, false), Numeral(w[6] % 256, false), Numeral(w[7] / 256, false), Numeral(w[7] % 256, false)], '.');
      JoinLower(fs, ':');
    } else {
      GroupsLower(w, g.base + g.len, 8);
    }
  }

  lemma LowerAppend(s: string, t: string)
    requires LowerCase(s) && LowerCase(t)
    ensures LowerCase(s + t)
  {
  }

  /** Nothing is printed in upper case. */
  lemma RenderLower(w: seq<Word>, g: Gap)
    requires |w| == 8 && (g.Gap? ==> g.base + g.len <= 8)
    ensures LowerCase(Render(w, g))
  {
    hide Tail, Join;
    match g
    case NoGap => GroupsLower(w, 0, 8);
    case Gap(base, len) =>
      var left, right := Join(Groups(w, 0, base), ':'), Join(Tail(w, g), ':');
      GroupsLower(w, 0, base);
      TailLower(w, g);
      LowerAppend(left, "::");
      LowerAppend(left + "::", right);
  }

  lemma NeverEmbedded(w: seq<Word>)
    requires |w| == 8
    ensures !Embedded(w, NoGap)
  {
  }

  /** At most 39 characters, the embedded forms included. */
  lemma RenderLength(w: seq<Word>, g: Gap)
    requires |w| == 8 && LeftmostLongest(w, g)
    ensures |Render(w, g)| <= 39
  {
    hide LeftmostLongest, Join, Tail;
    match g
    case NoGap =>
      GroupsRead(w, 0, 8, true);
      JoinLength(Groups(w, 0, 8), ':', 4);
    case Gap(base, len) =>
      assert len >= 2 && base + len <= 8 by { GapShape(w, g); }
      EmptyJoin(':');
      GroupsRead(w, 0, base, true);
      JoinLength(Groups(w, 0, base), ':', 4);
      TailLength(w, g);
  }

  lemma GapShape(w: seq<Word>, g: Gap)
    requires LeftmostLongest(w, g) && g.Gap?
    ensures g.len >= 2 && g.base + g.len <= |w| && ZeroRun(w, g.base, g.len)
  {
  }

  lemma TailLength(w: seq<Word>, g: Gap)
    requires |w| == 8 && g.Gap? && g.base + g.len <= 8
    ensures |Join(Tail(w, g), ':')| <= if Embedded(w, g) then 20 else 5 * (8 - g.base - g.len)
  {
    hide Join, DottedWords, Hex;
    if Embedded(w, g) {
      EmbeddedLength(w, g.len);
    } else {
      PlainLength(w, g.base + g.len, 8);
    }
  }

  lemma PlainLength(w: seq<Word>, a: nat, b: nat)
    requires a <= b <= |w|
    ensures |Join(Groups(w, a, b), ':')| <= if a == b then 0 else 5 * (b - a) - 1
  {
    hide Join, Hex, ReadFields;
    EmptyJoin(':');
    GroupsRead(w, a, b, true);
    JoinLength(Groups(w, a, b), ':', 4);
    assert a == b ==> Groups(w, a, b) == [];
  }

  lemma EmbeddedLength(w: seq<Word>, a: nat)
    requires |w| == 8 && 5 <= a <= 6
    ensures |Join(Groups(w, a, 6) + [DottedWords(w[6], w[7])], ':')| <= 20
  {
    hide Join, Dotted, Hex;
    var d := DottedWords(w[6], w[7]);
    DottedReads(w[6] / 256, w[6] % 256, w[7] / 256, w[7] % 256);
    JoinSnoc(Groups(w, a, 6), d, ':');
    PlainLength(w, a, 6);
  }

  // ---------------------------------------------------------------- the printer

  /** The words of an address; on disjoint bits the source's |= is an addition. */
  function Words(src: seq<Byte>): (w: seq<Word>)
    requires |src| == 16
    ensures |w| == 8
  {
    seq(8, i requires 0 <= i < 8 => Pair(src[2 * i], src[2 * i + 1]))
  }

  method ReadWords(src: seq<Byte>) returns (words: array<Word>)
    requires |src| == 16
    ensures fresh(words) && words[..] == Words(src)
  {
    words := new Word[8](_ => 0);
    var i := 0;
    while i < 16
      invariant 0 <= i <= 16
      invariant forall k :: 0 <= k < i / 2 ==> words[k] == Pair(src[2 * k], src[2 * k + 1])
      invariant i % 2 == 1 ==> words[i / 2] == Pair(src[i - 1], 0)
      invariant forall k :: (i + 1) / 2 <= k < 8 ==> words[k] == 0
    {
      if i % 2 == 0 {
        words[i / 2] := Pair(src[i], 0);
      } else {
        words[i / 2] := words[i / 2] + src[i];
      }
      i := i + 1;
    }
  }

  /** The best of the runs that end before `i`. */
  ghost predicate BestBefore(w: seq<Word>, i: nat, g: Gap) {
    match g
    case NoGap => forall b: nat, n: nat :: ZeroRun(w, b, n) && b + n < i ==> false
    case Gap(base, len) =>
      && ZeroRun(w, base, len) && base + len <= i
      && (forall b: nat, n: nat :: ZeroRun(w, b, n) && b + n < i ==> n < len || (n == len && base <= b))
  }

  method FindBest(words: array<Word>) returns (best: Gap)
    requires words.Length == 8
    ensures LeftmostLongest(words[..], best)
  {
    ghost var w := words[..];
    best := NoGap;
    var cur := NoGap;
    var i := 0;
    while i < 8
      invariant 0 <= i <= 8
      invariant BestBefore(w, if cur.Gap? then cur.base else i, best)
      invariant cur.Gap? ==> ZeroRun(w, cur.base, cur.len) && cur.base + cur.len == i && (cur.base > 0 ==> w[cur.base - 1] != 0)
      invariant cur.NoGap? ==> i == 0 || w[i - 1] != 0
    {
      if words[i] == 0 {
        cur := if cur.NoGap? then Gap(i, 1) else Gap(cur.base, cur.len + 1);
      } else {
        if cur.Gap? {
          if best.NoGap? || cur.len > best.len { best := cur; }
          cur := NoGap;
        }
      }
      i := i + 1;
    }
    if cur.Gap? {
      if best.NoGap? || cur.len > best.len { best := cur; }
    }
    if best.Gap? && best.len < 2 { best := NoGap; }
  }

  /** _inet_ntop4: the text, unless it is longer than `size`; the terminator is not counted. */
  method Ntop4(src: seq<Byte>, size: nat) returns (r: Option<string>)
    requires |src| == 4
    ensures r == if |Dotted(src[0], src[1], src[2], src[3])| <= size then Some(Dotted(src[0], src[1], src[2], src[3])) else None
    ensures size >= 15 ==> r.Some?
    ensures r.Some? ==> ReadDotted(r.value) == Some([Pair(src[0], src[1]), Pair(src[2], src[3])])
  {
    DottedReads(src[0], src[1], src[2], src[3]);
    var tmp := Dotted(src[0], src[1], src[2], src[3]);
    if |tmp| > size { return None; }
    return Some(tmp);
  }

  /** What is written before word `i` is looked at. */
  function Written(w: seq<Word>, g: Gap, i: nat): string
    requires i <= |w| && (g.Gap? ==> g.base + g.len <= |w|)
  {
    if g.NoGap? || i <= g.base then Join(Groups(w, 0, i), ':')
    else if i <= g.base + g.len then Join(Groups(w, 0, g.base), ':') + ":"
    else Join(Groups(w, 0, g.base), ':') + "::" + Join(Groups(w, g.base + g.len, i), ':')
  }

  lemma GroupsSnoc(w: seq<Word>, a: nat, i: nat)
    requires a <= i < |w|
    ensures Join(Groups(w, a, i + 1), ':') == (if a == i then Hex(w[i]) else Join(Groups(w, a, i), ':') + ":" + Hex(w[i]))
  {
    assert Groups(w, a, i + 1) == Groups(w, a, i) + [Hex(w[i])];
    JoinSnoc(Groups(w, a, i), Hex(w[i]), ':');
  }

  /** One turn of the loop that writes the groups. */
  lemma WriteGroup(w: seq<Word>, g: Gap, i: nat)
    requires i < |w| && (g.Gap? ==> g.len >= 1 && g.base + g.len <= |w|)
    ensures g.Gap? && g.base <= i < g.base + g.len ==>
              Written(w, g, i + 1) == Written(w, g, i) + if i == g.base then ":" else ""
    ensures !(g.Gap? && g.base <= i < g.base + g.len) ==>
              Written(w, g, i + 1) == Written(w, g, i) + (if i != 0 then ":" else "") + Hex(w[i])
    ensures Written(w, g, 0) == ""
  {
    hide Join, Hex;
    EmptyJoin(':');
    assert Groups(w, 0, 0) == [];
    if g.Gap? && g.base + g.len <= i {
      GroupsSnoc(w, g.base + g.len, i);
      var left := Join(Groups(w, 0, g.base), ':');
      assert left + "::" + Hex(w[i]) == left + ":" + ":" + Hex(w[i]);
      var right := Join(Groups(w, g.base + g.len, i), ':');
      assert left + "::" + (right + ":" + Hex(w[i])) == left + "::" + right + ":" + Hex(w[i]);
    } else {
      GroupsSnoc(w, 0, i);
      assert "" + "" + Hex(w[i]) == Hex(w[i]);
    }
  }

  lemma WriteEmbedded(w: seq<Word>, g: Gap)
    requires |w| == 8 && g.Gap? && Embedded(w, g)
    ensures Render(w, g) == Written(w, g, 6) + ":" + DottedWords(w[6], w[7])
    ensures |Written(w, g, 6)| <= 6
  {
    hide Join, DottedWords;
    GroupsRead(w, g.len, 6, true);
    JoinLength(Groups(w, g.len, 6), ':', 4);
    EmptyJoin(':');
    var d := DottedWords(w[6], w[7]);
    var left := Join(Groups(w, 0, 0), ':');
    assert Groups(w, 0, 0) == [];
    JoinSnoc(Groups(w, g.len, 6), d, ':');
    if g.len == 6 {
      assert Groups(w, 6, 6) == [];
      assert left + "::" + d == left + ":" + ":" + d;
    } else {
      var right := Join(Groups(w, 5, 6), ':');
      assert left + "::" + (right + ":" + d) == left + "::" + right + ":" + d;
    }
  }

  lemma WriteEnd(w: seq<Word>, g: Gap)
    requires |w| == 8 && (g.Gap? ==> g.len >= 1 && g.base + g.len <= 8) && !Embedded(w, g)
    ensures Render(w, g) == Written(w, g, 8) + if g.Gap? && g.base + g.len == 8 then ":" else ""
  {
    hide Join;
    EmptyJoin(':');
    if g.Gap? && g.base + g.len == 8 {
      assert Groups(w, 8, 8) == [];
      var left := Join(Groups(w, 0, g.base), ':');
      assert left + "::" + "" == left + ":" + ":";
    }
  }

  lemma DottedBytes(a: Byte, b: Byte, c: Byte, d: Byte)
    ensures DottedWords(Pair(a, b), Pair(c, d)) == Dotted(a, b, c, d)
  {
    hide Dotted;
    assert Pair(a, b) / 256 == a && Pair(a, b) % 256 == b && Pair(c, d) / 256 == c && Pair(c, d) % 256 == d;
  }

  method Format(src: seq<Byte>, words: array<Word>, best: Gap) returns (out: string)
    requires |src| == 16 && words[..] == Words(src) && LeftmostLongest(words[..], best)
    ensures out == Render(words[..], best)
  {
    hide LeftmostLongest, Written, Render, DottedWords;
    ghost var w := words[..];
    assert best.Gap? ==> best.len >= 2 && best.base + best.len <= 8 by { if best.Gap? { GapShape(w, best); } }
    out := "";
    WriteGroup(w, best, 0);
    var i := 0;
    while i < 8
      invariant 0 <= i <= 8
      invariant Embedded(w, best) ==> i <= 6
      invariant out == Written(w, best, i)
    {
      WriteGroup(w, best, i);
      if best.Gap? && best.base <= i < best.base + best.len {
        if i == best.base { out := out + ":"; }
      } else {
        if i != 0 { out := out + ":"; }
        if i == 6 && best.Gap? && best.base == 0 && (best.len == 6 || (best.len == 5 && words[5] == 0xffff)) {
          WriteEmbedded(w, best);
          DottedBytes(src[12], src[13], src[14], src[15]);
          var d := Ntop4(src[12..], 46 - |out|);
          return out + d.value;
        }
        out := out + Hex(words[i]);
      }
      i := i + 1;
    }
    WriteEnd(w, best);
    if best.Gap? && best.base + best.len == 8 { out := out + ":"; }
  }

  /** _inet_ntop6: any address that fits the buffer is printed with its leftmost longest run
      of zero groups left out, and reads back as the same address. */
  method Ntop6(src: seq<Byte>, size: nat) returns (r: Option<string>)
    requires |src| == 16
    ensures forall g :: LeftmostLongest(Words(src), g) ==>
                          r == if |Render(Words(src), g)| + 1 <= size then Some(Render(Words(src), g)) else None
    ensures exists g :: LeftmostLongest(Words(src), g)
    ensures r.Some? ==> ReadAddress(r.value) == Some(Words(src)) && |r.value| <= 39
    ensures r.Some? ==> ('.' in r.value <==> HoldsIpv4(Words(src))) && LowerCase(r.value)
    ensures size >= 40 ==> r.Some?
  {
    hide LeftmostLongest, Render, ReadAddress, HoldsIpv4, LowerCase;
    var words := ReadWords(src);
    var best := FindBest(words);
    var tmp := Format(src, words, best);
    if best.Gap? { GapShape(Words(src), best); }
    RenderReads(Words(src), best);
    RenderLength(Words(src), best);
    RenderDotted(Words(src), best);
    RenderLower(Words(src), best);
    forall g | LeftmostLongest(Words(src), g) ensures g == best { OneLeftmostLongest(Words(src), g, best); }
    if |tmp| + 1 > size { return None; }
    return Some(tmp);
  }
}
