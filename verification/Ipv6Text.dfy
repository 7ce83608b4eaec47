/** Text forms of addresses: numbers, and the reading of an IPv6 address after section 2.2 of
    RFC 4291. */
module Ipv6Text {
  import opened Wrappers
  import opened Text

  type Word = x: int | 0 <= x < 0x1_0000
  type Byte = x: int | 0 <= x < 0x100

  // ---------------------------------------------------------------- numbers

  function Digit(n: int): char
    requires 0 <= n < 16
  {
    if n < 10 then '0' + n as char else 'a' + (n - 10) as char
  }

  /** "%x" (base 16) and "%u" (base 10): no leading zeros. */
  function Numeral(n: nat, hex: bool): (r: string)
    ensures r != ""
  {
    if hex then if n < 16 then [Digit(n)] else Numeral(n / 16, hex) + [Digit(n % 16)]
    else if n < 10 then [Digit(n)] else Numeral(n / 10, hex) + [Digit(n % 10)]
  }

  /** Value of a digit, of either case; 16 for any other character. */
  function DigitValue(c: char): (r: nat) {
    if '0' <= c <= '9' then (c - '0') as int
    else if 'a' <= c <= 'f' then (c - 'a') as int + 10
    else if 'A' <= c <= 'F' then (c - 'A') as int + 10
    else 16
  }

  function Value(s: string, hex: bool): Option<nat> {
    if s == "" then Some(0)
    else
      var d := DigitValue(s[|s| - 1]);
      match Value(s[..|s| - 1], hex)
      case None => None
      case Some(v) => if hex then if d < 16 then Some(v * 16 + d) else None
                      else if d < 10 then Some(v * 10 + d) else None
  }

  lemma DigitReads(d: int)
    requires 0 <= d < 16
    ensures DigitValue(Digit(d)) == d
  {
  }

  lemma HexSnoc(s: string, n: nat, d: nat)
    requires Value(s, true) == Some(n) && d < 16
    ensures Value(s + [Digit(d)], true) == Some(n * 16 + d)
  {
    hide Digit, DigitValue;
    var t := s + [Digit(d)];
    DigitReads(d);
    assert t[..|t| - 1] == s && t[|t| - 1] == Digit(d);
  }

  lemma DecimalSnoc(s: string, n: nat, d: nat)
    requires Value(s, false) == Some(n) && d < 10
    ensures Value(s + [Digit(d)], false) == Some(n * 10 + d)
  {
    hide Digit, DigitValue;
    var t := s + [Digit(d)];
    DigitReads(d);
    assert t[..|t| - 1] == s && t[|t| - 1] == Digit(d);
  }

  lemma {:induction false} HexValue(n: nat)
    ensures Value(Numeral(n, true), true) == Some(n)
  {
    hide Value, Digit;
    EmptyValue(true);
    if n < 16 {
      HexSnoc("", 0, n);
      assert "" + [Digit(n)] == Numeral(n, true);
    } else {
      HexValue(n / 16);
      HexSnoc(Numeral(n / 16, true), n / 16, n % 16);
    }
  }

  lemma {:induction false} DecimalValue(n: nat)
    ensures Value(Numeral(n, false), false) == Some(n)
  {
    hide Value, Digit;
    EmptyValue(false);
    if n < 10 {
      DecimalSnoc("", 0, n);
      assert "" + [Digit(n)] == Numeral(n, false);
    } else {
      DecimalValue(n / 10);
      DecimalSnoc(Numeral(n / 10, false), n / 10, n % 10);
    }
  }

  lemma EmptyValue(hex: bool)
    ensures Value("", hex) == Some(0)
  {
  }

  lemma HexLength(n: nat)
    ensures n < 0x10 ==> |Numeral(n, true)| <= 1
    ensures n < 0x100 ==> |Numeral(n, true)| <= 2
    ensures n < 0x1000 ==> |Numeral(n, true)| <= 3
    ensures n < 0x1_0000 ==> |Numeral(n, true)| <= 4
  {
    if n >= 16 { HexLength(n / 16); }
  }

  lemma DecimalLength(n: nat)
    ensures n < 10 ==> |Numeral(n, false)| <= 1
    ensures n < 100 ==> |Numeral(n, false)| <= 2
    ensures n < 1000 ==> |Numeral(n, false)| <= 3
  {
    if n >= 10 { DecimalLength(n / 10); }
  }

  predicate Digits(s: string) {
    forall i :: 0 <= i < |s| ==> DigitValue(s[i]) < 16
  }

  lemma NumeralDigits(n: nat, hex: bool)
    ensures Digits(Numeral(n, hex))
  {
    if hex && n >= 16 { NumeralDigits(n / 16, hex); }
    if !hex && n >= 10 { NumeralDigits(n / 10, hex); }
  }

  // ---------------------------------------------------------------- reading an address

  function ReadByte(f: string): Option<Byte> {
    if 1 <= |f| <= 3 then
      match Value(f, false) case None => None case Some(v) => if v < 256 then Some(v) else None
    else None
  }

  function Pair(hi: Byte, lo: Byte): Word {
    hi * 256 + lo
  }

  /** "d.d.d.d", as the two words it stands for. */
  function ReadDotted(f: string): Option<seq<Word>> {
    var fs := Split(f, '.');
    if |fs| != 4 then None
    else match (ReadByte(fs[0]), ReadByte(fs[1]), ReadByte(fs[2]), ReadByte(fs[3]))
      case (Some(a), Some(b), Some(c), Some(d)) => Some([Pair(a, b), Pair(c, d)])
      case _ => None
  }

  /** One group: one to four hexadecimal digits. */
  function ReadGroup(f: string): Option<Word> {
    if 1 <= |f| <= 4 then
      match Value(f, true) case None => None case Some(v) => if v < 0x1_0000 then Some(v) else None
    else None
  }

  /** Groups separated by ":"; the last one may be an IPv4 address. */
  function ReadFields(fs: seq<string>, last: bool): Option<seq<Word>> {
    if fs == [] then Some([])
    else if last && |fs| == 1 && '.' in fs[0] then ReadDotted(fs[0])
    else match (ReadGroup(fs[0]), ReadFields(fs[1..], last))
      case (Some(w), Some(ws)) => Some([w] + ws)
      case _ => None
  }

  function ReadGroups(s: string, last: bool): Option<seq<Word>> {
    if s == "" then Some([]) else ReadFields(Split(s, ':'), last)
  }

  /** Position of the first "::". */
  function FindDouble(s: string): (r: Option<nat>)
    ensures r.Some? ==> r.value + 2 <= |s|
  {
    if |s| < 2 then None
    else if s[0] == ':' && s[1] == ':' then Some(0)
    else match FindDouble(s[1..]) case None => None case Some(i) => Some(i + 1)
  }

  function Zeros(n: nat): seq<Word> {
    seq(n, _ => 0)
  }

  /** Section 2.2 of RFC 4291: eight groups, or fewer around one "::" that stands for one or
      more groups of zeros; the last two groups may be written as an IPv4 address. */
  function ReadAddress(s: string): Option<seq<Word>> {
    match FindDouble(s)
    case None =>
      (match ReadGroups(s, true)
       case None => None
       case Some(ws) => if |ws| == 8 then Some(ws) else None)
    case Some(i) =>
      match (ReadGroups(s[..i], false), ReadGroups(s[i + 2..], true))
      case (Some(left), Some(right)) =>
        if |left| + |right| <= 7 then Some(left + Zeros(8 - |left| - |right|) + right) else None
      case _ => None
  }
}
