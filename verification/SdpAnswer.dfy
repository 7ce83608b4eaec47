/** The SDP answer of josua (sdp_complete_message): built line by line from the offer, and read
    back as section 6 of RFC 3264 asks for. */
module SdpAnswer {
  import opened Wrappers
  import opened Text
  import opened Sdp

  predicate IsAudio(m: Media) {
    EqualNoCase(m.media, "audio")
  }

  predicate Known(payload: string) {
    payload == "0" || payload == "8"
  }

  /** The offered payloads that are supported, in the order of the offer. */
  function Supported(payloads: seq<string>): (r: seq<string>)
    ensures forall i :: 0 <= i < |r| ==> Known(r[i]) && r[i] in payloads
    ensures forall p :: p in payloads && Known(p) ==> p in r
  {
    if payloads == [] then []
    else
      var n := |payloads| - 1;
      var r := Supported(payloads[..n]);
      if Known(payloads[n]) then r + [payloads[n]] else r
  }

  /** Formats separated, and followed, by blanks. */
  function Listed(ps: seq<string>): string {
    if ps == [] then "" else Listed(ps[..|ps| - 1]) + ps[|ps| - 1] + " "
  }

  predicate Acceptable(m: Media) {
    IsAudio(m) ==> exists p :: p in m.payloads && Known(p)
  }

  function Header(ip: string): seq<string> {
    ["v=0", "o=josua 0 0 IN IP4 " + ip, "s=conversation", "c=IN IP4 " + ip, "t=0 0"]
  }

  const PCMU := "a=rtpmap:0 PCMU/8000"
  const PCMA := "a=rtpmap:8 PCMA/8000"

  function MediaLine(m: Media): string {
    if IsAudio(m) then "m=" + m.media + " 10500 RTP/AVP " + Listed(Supported(m.payloads))
    else "m=" + m.media + " 0 " + m.proto + " "
  }

  function Maps(m: Media): seq<string> {
    (if IsAudio(m) && "0" in m.payloads then [PCMU] else []) + (if IsAudio(m) && "8" in m.payloads then [PCMA] else [])
  }

  /** The lines that answer one stream. */
  function StreamLines(m: Media): seq<string> {
    [MediaLine(m)] + Maps(m)
  }

  function AllStreamLines(ms: seq<Media>): seq<string> {
    if ms == [] then [] else AllStreamLines(ms[..|ms| - 1]) + StreamLines(ms[|ms| - 1])
  }

  function Unlines(ls: seq<string>): string {
    if ls == [] then "" else Unlines(ls[..|ls| - 1]) + ls[|ls| - 1] + "\r\n"
  }

  lemma UnlinesAppend(xs: seq<string>, ys: seq<string>)
    ensures Unlines(xs + ys) == Unlines(xs) + Unlines(ys)
  {
    if ys == [] { assert xs + ys == xs; }
    else {
      var n := |ys| - 1;
      assert (xs + ys)[..|xs + ys| - 1] == xs + ys[..n];
      UnlinesAppend(xs, ys[..n]);
    }
  }

  // ---------------------------------------------------------------- the search for a format

  /** strstr (s, p) != NULL */
  predicate Contains(s: string, p: string) {
    exists i :: 0 <= i <= |s| && StartsAt(s, i, p)
  }

  predicate StartsAt(s: string, i: nat, p: string) {
    i + |p| <= |s| && s[i..i + |p|] == p
  }

  /** The test of the source: the format at the front, or between blanks. */
  predicate Mentions(s: string, c: char) {
    Contains(s, [' ', c, ' ']) || (|s| >= 2 && s[0] == c && s[1] == ' ')
  }

  lemma ListedShape(ps: seq<string>)
    requires forall i :: 0 <= i < |ps| ==> Known(ps[i])
    ensures |Listed(ps)| == 2 * |ps|
    ensures forall i :: 0 <= i < |ps| ==> Known(ps[i]) && Listed(ps)[2 * i] == ps[i][0] && Listed(ps)[2 * i + 1] == ' '
  {
    if ps != [] { ListedShape(ps[..|ps| - 1]); }
  }

  lemma Blanked(s: string, i: nat, c: char)
    ensures StartsAt(s, i, [' ', c, ' ']) <==> i + 3 <= |s| && s[i] == ' ' && s[i + 1] == c && s[i + 2] == ' '
  {
    if i + 3 <= |s| { assert s[i..i + 3] == [s[i], s[i + 1], s[i + 2]]; }
  }

  lemma FormatIsMentioned(ps: seq<string>, i: nat, c: char)
    requires forall j :: 0 <= j < |ps| ==> Known(ps[j])
    requires i < |ps| && ps[i] == [c]
    ensures Mentions(Listed(ps), c)
  {
    hide Listed, StartsAt;
    var s := Listed(ps);
    ListedShape(ps);
    assert s[2 * i] == c && s[2 * i + 1] == ' ';
    if i > 0 {
      assert s[2 * (i - 1) + 1] == ' ';
      Blanked(s, 2 * i - 1, c);
    }
  }

  lemma MentionedIsFormat(ps: seq<string>, c: char)
    requires forall j :: 0 <= j < |ps| ==> Known(ps[j])
    requires c != ' ' && Mentions(Listed(ps), c)
    ensures [c] in ps
  {
    hide Listed, StartsAt;
    var s := Listed(ps);
    ListedShape(ps);
    var j := 0;
    if Contains(s, [' ', c, ' ']) {
      var i :| 0 <= i <= |s| && StartsAt(s, i, [' ', c, ' ']);
      Blanked(s, i, c);
      j := (i + 1) / 2;
      assert 2 * j == i + 1;
    }
    assert s[2 * j] == ps[j][0] && ps[j] == [c];
  }

  lemma {:induction false} MentionsListed(ps: seq<string>, c: char)
    requires forall i :: 0 <= i < |ps| ==> Known(ps[i])
    requires c != ' '
    ensures Mentions(Listed(ps), c) <==> [c] in ps
  {
    hide Mentions;
    if [c] in ps {
      var i :| 0 <= i < |ps| && ps[i] == [c];
      FormatIsMentioned(ps, i, c);
    }
    if Mentions(Listed(ps), c) { MentionedIsFormat(ps, c); }
  }

  // ---------------------------------------------------------------- building the answer

  /** The loop over the payloads of one audio stream. */
  method CollectPayloads(m: Media) returns (payloads: string)
    ensures payloads == Listed(Supported(m.payloads))
  {
    hide Supported, Listed;
    payloads := "";
    NoneSupported();
    var pos := 0;
    while pos < |m.payloads|
      invariant 0 <= pos <= |m.payloads|
      invariant payloads == Listed(Supported(m.payloads[..pos]))
    {
      var p := m.payloads[pos];
      assert m.payloads[..pos] + [p] == m.payloads[..pos + 1];
      ListedSnoc(m.payloads[..pos], p);
      if Known(p) { payloads := payloads + (p + " "); }
      pos := pos + 1;
    }
    assert m.payloads[..pos] == m.payloads;
  }

  lemma NoneSupported()
    ensures Listed(Supported([])) == ""
  {
  }

  lemma ListedSnoc(ps: seq<string>, p: string)
    ensures Listed(Supported(ps + [p])) == Listed(Supported(ps)) + if Known(p) then p + " " else ""
  {
    assert (ps + [p])[..|ps|] == ps;
    var r := Supported(ps);
    assert (r + [p])[..|r|] == r;
  }

  lemma NothingListed(ps: seq<string>)
    requires forall i :: 0 <= i < |ps| ==> Known(ps[i])
    ensures Listed(ps) == "" <==> ps == []
  {
    ListedShape(ps);
  }

  lemma UnlinesOne(l: string)
    ensures Unlines([l]) == l + "\r\n" && Unlines([]) == ""
  {
    assert [l][..0] == [];
  }

  lemma UnlinesStream(m: Media)
    ensures Unlines(StreamLines(m)) ==
              MediaLine(m) + "\r\n"
              + (if IsAudio(m) && "0" in m.payloads then PCMU + "\r\n" else "")
              + (if IsAudio(m) && "8" in m.payloads then PCMA + "\r\n" else "")
  {
    hide MediaLine, IsAudio, Unlines;
    UnlinesOne(MediaLine(m));
    UnlinesOne(PCMU);
    UnlinesOne(PCMA);
    var a := if IsAudio(m) && "0" in m.payloads then [PCMU] else [];
    var b := if IsAudio(m) && "8" in m.payloads then [PCMA] else [];
    UnlinesAppend([MediaLine(m)], a + b);
    UnlinesAppend(a, b);
  }

  /** The answer to one stream; None when the offer has to be refused. */
  method AnswerStream(m: Media) returns (r: Option<string>)
    ensures r == if Acceptable(m) then Some(Unlines(StreamLines(m))) else None
  {
    hide Unlines, Listed, Mentions;
    UnlinesStream(m);
    if IsAudio(m) {
      var payloads := CollectPayloads(m);
      ghost var ps := Supported(m.payloads);
      NothingListed(ps);
      if payloads == "" { return None; }
      assert ps[0] in m.payloads;
      var buf := "m=" + m.media;
      buf := buf + " 10500 RTP/AVP ";
      buf := buf + payloads;
      buf := buf + "\r\n";
      assert buf == MediaLine(m) + "\r\n";
      assert forall p :: Known(p) ==> (p in ps <==> p in m.payloads);
      assert "0" == ['0'] && "8" == ['8'];
      MentionsListed(ps, '0');
      MentionsListed(ps, '8');
      if Mentions(payloads, '0') { buf := buf + (PCMU + "\r\n"); } else { assert buf + "" == buf; }
      if Mentions(payloads, '8') { buf := buf + (PCMA + "\r\n"); } else { assert buf + "" == buf; }
      return Some(buf);
    }
    var buf := "m=" + m.media;
    buf := buf + " 0 ";
    buf := buf + m.proto;
    buf := buf + " \r\n";
    assert buf == MediaLine(m) + "\r\n" + "" + "";
    return Some(buf);
  }

  /** sdp_complete_message: an answer is produced exactly when every audio stream offers one of
      the two payloads. */
  method CompleteMessage(ip: string, offer: Session) returns (r: Option<string>)
    ensures r.Some? <==> forall i :: 0 <= i < |offer.medias| ==> Acceptable(offer.medias[i])
    ensures r.Some? ==> r.value == Unlines(Header(ip) + AllStreamLines(offer.medias))
    ensures r.Some? && OneLine(ip) && (forall i :: 0 <= i < |offer.medias| ==> Clean(offer.medias[i]) && Blankless(offer.medias[i]))
            ==> Answers(r.value, ip, offer)
  {
    hide Unlines, Acceptable, StreamLines, Header, Answers, Clean, Blankless;
    var buf := FirstLines(ip);
    var pos := 0;
    while pos < |offer.medias|
      invariant 0 <= pos <= |offer.medias|
      invariant forall i :: 0 <= i < pos ==> Acceptable(offer.medias[i])
      invariant buf == Unlines(Header(ip) + AllStreamLines(offer.medias[..pos]))
    {
      var lines := AnswerStream(offer.medias[pos]);
      if lines.None? { return None; }
      ghost var ms := offer.medias[..pos + 1];
      assert ms[..pos] == offer.medias[..pos];
      ghost var before := Header(ip) + AllStreamLines(ms[..pos]);
      UnlinesAppend(before, StreamLines(ms[pos]));
      assert before + StreamLines(ms[pos]) == Header(ip) + AllStreamLines(ms);
      buf := buf + lines.value;
      pos := pos + 1;
    }
    assert offer.medias[..pos] == offer.medias;
    if OneLine(ip) && forall i :: 0 <= i < |offer.medias| ==> Clean(offer.medias[i]) && Blankless(offer.medias[i]) {
      AnswerIsRight(ip, offer);
    }
    return Some(buf);
  }

  lemma UnlinesSnoc(ls: seq<string>, l: string)
    ensures Unlines(ls + [l]) == Unlines(ls) + l + "\r\n"
  {
    assert (ls + [l])[..|ls|] == ls;
  }

  method FirstLines(ip: string) returns (buf: string)
    ensures buf == Unlines(Header(ip) + AllStreamLines([]))
  {
    var h := Header(ip);
    buf := "";
    var i := 0;
    while i < 5
      invariant 0 <= i <= 5
      invariant buf == Unlines(h[..i])
    {
      UnlinesSnoc(h[..i], h[i]);
      assert h[..i] + [h[i]] == h[..i + 1];
      buf := buf + h[i] + "\r\n";
      i := i + 1;
    }
    assert h[..5] == h && h + [] == h;
  }

  // ---------------------------------------------------------------- reading the answer

  predicate OneLine(l: string) {
    '\n' !in l
  }

  /** The lines of a text, by its line feeds, without their carriage returns. */
  function ReadLines(t: string): seq<string> {
    var fs := Split(t, '\n');
    seq(|fs| - 1, i requires 0 <= i < |fs| - 1 => if fs[i] == "" then "" else fs[i][..|fs[i]| - 1])
  }

  lemma UnlinesFirst(ls: seq<string>)
    requires ls != []
    ensures Unlines(ls) == (ls[0] + "\r") + ['\n'] + Unlines(ls[1..])
  {
    hide Unlines;
    UnlinesAppend([ls[0]], ls[1..]);
    assert [ls[0]] + ls[1..] == ls;
    UnlinesSnoc([], ls[0]);
    assert [] + [ls[0]] == [ls[0]];
    assert Unlines([]) == "" by { UnlinesNone(); }
    assert "" + ls[0] + "\r\n" == (ls[0] + "\r") + ['\n'];
  }

  lemma UnlinesNone()
    ensures Unlines([]) == "" && Split("", '\n') == [""]
  {
  }

  function Returned(ls: seq<string>): (r: seq<string>)
    ensures |r| == |ls| && forall i :: 0 <= i < |ls| ==> r[i] == ls[i] + "\r"
  {
    seq(|ls|, i requires 0 <= i < |ls| => ls[i] + "\r")
  }

  lemma NoFeed(l: string)
    requires OneLine(l)
    ensures '\n' !in l + "\r"
  {
  }

  lemma ReturnedFirst(ls: seq<string>)
    requires ls != []
    ensures Returned(ls) == [ls[0] + "\r"] + Returned(ls[1..])
  {
  }

  lemma {:induction false} SplitUnlines(ls: seq<string>)
    requires forall i :: 0 <= i < |ls| ==> OneLine(ls[i])
    ensures Split(Unlines(ls), '\n') == Returned(ls) + [""]
  {
    hide Split, Unlines, OneLine;
    UnlinesNone();
    if ls == [] {
      assert Returned(ls) == [];
    } else {
      SplitUnlines(ls[1..]);
      UnlinesFirst(ls);
      NoFeed(ls[0]);
      SplitField(ls[0] + "\r", Unlines(ls[1..]), '\n');
      ReturnedFirst(ls);
      assert [ls[0] + "\r"] + (Returned(ls[1..]) + [""]) == Returned(ls) + [""];
    }
  }

  /** Lines that were written are read back. */
  lemma ReadUnlines(ls: seq<string>)
    requires forall i :: 0 <= i < |ls| ==> OneLine(ls[i])
    ensures ReadLines(Unlines(ls)) == ls
  {
    SplitUnlines(ls);
    var fs := Split(Unlines(ls), '\n');
    forall i | 0 <= i < |ls| ensures ReadLines(Unlines(ls))[i] == ls[i] {
      assert fs[i] == ls[i] + "\r";
    }
  }

  predicate IsMediaLine(l: string) {
    |l| >= 2 && l[0] == 'm' && l[1] == '='
  }

  function MediaLines(ls: seq<string>): seq<string> {
    if ls == [] then []
    else MediaLines(ls[..|ls| - 1]) + if IsMediaLine(ls[|ls| - 1]) then [ls[|ls| - 1]] else []
  }

  lemma MediaLinesAppend(xs: seq<string>, ys: seq<string>)
    ensures MediaLines(xs + ys) == MediaLines(xs) + MediaLines(ys)
  {
    if ys == [] { assert xs + ys == xs; }
    else {
      var n := |ys| - 1;
      assert (xs + ys)[..|xs + ys| - 1] == xs + ys[..n];
      MediaLinesAppend(xs, ys[..n]);
    }
  }

  predicate Clean(m: Media) {
    OneLine(m.media) && OneLine(m.proto)
  }

  lemma NoMedia(ls: seq<string>)
    requires forall i :: 0 <= i < |ls| ==> !IsMediaLine(ls[i])
    ensures MediaLines(ls) == []
  {
  }

  lemma ListedClean(ps: seq<string>)
    requires forall i :: 0 <= i < |ps| ==> Known(ps[i])
    ensures OneLine(Listed(ps))
  {
  }

  lemma MapLines()
    ensures OneLine(PCMU) && OneLine(PCMA) && !IsMediaLine(PCMU) && !IsMediaLine(PCMA)
  {
  }

  lemma MediaLineClean(m: Media)
    requires Clean(m)
    ensures OneLine(MediaLine(m)) && IsMediaLine(MediaLine(m))
  {
    ListedClean(Supported(m.payloads));
  }

  lemma MapsRead(m: Media)
    ensures MediaLines(Maps(m)) == []
    ensures forall i :: 0 <= i < |Maps(m)| ==> OneLine(Maps(m)[i])
  {
    hide OneLine, IsMediaLine, IsAudio, MediaLines;
    MapLines();
    NoMedia(Maps(m));
  }

  lemma StreamLinesRead(m: Media)
    requires Clean(m)
    ensures MediaLines(StreamLines(m)) == [MediaLine(m)]
    ensures forall i :: 0 <= i < |StreamLines(m)| ==> OneLine(StreamLines(m)[i])
  {
    hide OneLine, IsMediaLine, MediaLine, Maps, MediaLines;
    MapsRead(m);
    MediaLineClean(m);
    OneMediaLine(MediaLine(m));
    MediaLinesAppend([MediaLine(m)], Maps(m));
    assert [MediaLine(m)] + [] == [MediaLine(m)];
  }

  lemma OneMediaLine(l: string)
    requires IsMediaLine(l)
    ensures MediaLines([l]) == [l]
  {
    hide IsMediaLine;
    assert [l][..0] == [] && [] + [l] == [l];
  }

  function Answered(ms: seq<Media>): (r: seq<string>)
    ensures |r| == |ms| && forall i :: 0 <= i < |ms| ==> r[i] == MediaLine(ms[i])
  {
    seq(|ms|, i requires 0 <= i < |ms| => MediaLine(ms[i]))
  }

  lemma AnsweredSnoc(ms: seq<Media>)
    requires ms != []
    ensures Answered(ms) == Answered(ms[..|ms| - 1]) + [MediaLine(ms[|ms| - 1])]
  {
    hide MediaLine;
  }

  lemma {:induction false} StreamsRead(ms: seq<Media>)
    requires forall i :: 0 <= i < |ms| ==> Clean(ms[i])
    ensures MediaLines(AllStreamLines(ms)) == Answered(ms)
    ensures forall i :: 0 <= i < |AllStreamLines(ms)| ==> OneLine(AllStreamLines(ms)[i])
  {
    hide StreamLines, MediaLine, Clean, OneLine, Answered, IsMediaLine;
    if ms == [] { NoAnswer(); }
    else {
      var n := |ms| - 1;
      StreamsRead(ms[..n]);
      StreamLinesRead(ms[n]);
      AnsweredSnoc(ms);
      MediaLinesAppend(AllStreamLines(ms[..n]), StreamLines(ms[n]));
    }
  }

  lemma NoAnswer()
    ensures MediaLines(AllStreamLines([])) == Answered([]) == []
  {
  }

  /** Read back, an answer has one media line per offered stream, in order. */
  lemma AnswerReads(ip: string, offer: Session)
    requires OneLine(ip) && forall i :: 0 <= i < |offer.medias| ==> Clean(offer.medias[i])
    ensures var text := Unlines(Header(ip) + AllStreamLines(offer.medias));
            && ReadLines(text) == Header(ip) + AllStreamLines(offer.medias)
            && MediaLines(ReadLines(text)) == Answered(offer.medias)
  {
    hide Unlines, ReadLines, AllStreamLines;
    StreamsRead(offer.medias);
    NoMedia(Header(ip));
    MediaLinesAppend(Header(ip), AllStreamLines(offer.medias));
    ReadUnlines(Header(ip) + AllStreamLines(offer.medias));
  }

  // ---------------------------------------------------------------- what a media line says

  /** An m= line, by its blanks: media, port, protocol, and the formats, each followed by one. */
  datatype Reading = Reading(media: string, port: string, proto: string, formats: seq<string>)

  function ReadMedia(l: string): Option<Reading> {
    if !IsMediaLine(l) then None
    else
      var fs := Split(l[2..], ' ');
      if |fs| < 4 || fs[|fs| - 1] != "" then None else Some(Reading(fs[0], fs[1], fs[2], fs[3..|fs| - 1]))
  }

  /** The offered 0s and 8s, all of them, in their order: `at` are their positions. */
  predicate PickedAt(payloads: seq<string>, formats: seq<string>, at: seq<nat>) {
    && |at| == |formats|
    && (forall x :: 0 <= x < |at| ==> at[x] < |payloads| && formats[x] == payloads[at[x]])
    && (forall x, y :: 0 <= x < y < |at| ==> at[x] < at[y])
    && (forall p :: 0 <= p < |payloads| && payloads[p] in ["0", "8"] ==> p in at)
    && (forall x :: 0 <= x < |formats| ==> formats[x] in ["0", "8"])
  }

  ghost predicate Picked(payloads: seq<string>, formats: seq<string>) {
    exists at :: PickedAt(payloads, formats, at)
  }

  lemma PickedSnoc(payloads: seq<string>, formats: seq<string>, at: seq<nat>, p: string)
    requires PickedAt(payloads, formats, at)
    ensures p in ["0", "8"] ==> PickedAt(payloads + [p], formats + [p], at + [|payloads|])
    ensures p !in ["0", "8"] ==> PickedAt(payloads + [p], formats, at)
  {
    var n, all := |payloads|, payloads + [p];
    forall q | 0 <= q < |all| && all[q] in ["0", "8"] ensures q in at + [n] && (q < n ==> q in at) {
      if q < n { assert payloads[q] == all[q]; } else { assert (at + [n])[|at|] == n; }
    }
  }

  lemma {:induction false} SupportedIsPicked(payloads: seq<string>)
    ensures Picked(payloads, Supported(payloads))
  {
    hide PickedAt;
    if payloads == [] { NonePicked(); }
    else {
      var n := |payloads| - 1;
      SupportedIsPicked(payloads[..n]);
      var at :| PickedAt(payloads[..n], Supported(payloads[..n]), at);
      PickedSnoc(payloads[..n], Supported(payloads[..n]), at, payloads[n]);
      assert payloads[..n] + [payloads[n]] == payloads;
    }
  }

  lemma NonePicked()
    ensures Picked([], Supported([]))
  {
    assert PickedAt([], [], []);
  }

  lemma {:induction false} SplitListed(ps: seq<string>)
    requires forall i :: 0 <= i < |ps| ==> ' ' !in ps[i]
    ensures Split(Listed(ps), ' ') == ps + [""]
  {
    hide Split;
    if ps == [] { SplitOne("", ' '); }
    else {
      ListedFirst(ps);
      SplitListed(ps[1..]);
      SplitField(ps[0], Listed(ps[1..]), ' ');
      assert ps == [ps[0]] + ps[1..];
    }
  }

  lemma {:induction false} ListedFirst(ps: seq<string>)
    requires ps != []
    ensures Listed(ps) == ps[0] + [' '] + Listed(ps[1..])
  {
    var n := |ps| - 1;
    if n == 0 { assert Listed(ps[..0]) == "" && Listed(ps[1..]) == "" && "" + ps[0] + " " == ps[0] + [' '] + ""; }
    else {
      ListedFirst(ps[..n]);
      assert ps[..n][1..] == ps[1..][..n - 1] && ps[1..][n - 1] == ps[n];
      assert Listed(ps) == ps[0] + [' '] + (Listed(ps[1..][..n - 1]) + ps[n] + " ");
    }
  }

  predicate Blankless(m: Media) {
    ' ' !in m.media && ' ' !in m.proto
  }

  function Fields(media: string, port: string, proto: string, rest: string): string {
    media + [' '] + (port + [' '] + (proto + [' '] + rest))
  }

  lemma ReadFields(l: string, media: string, port: string, proto: string, ps: seq<string>)
    requires ' ' !in media && ' ' !in port && ' ' !in proto && forall i :: 0 <= i < |ps| ==> ' ' !in ps[i]
    requires IsMediaLine(l) && l[2..] == Fields(media, port, proto, Listed(ps))
    ensures ReadMedia(l) == Some(Reading(media, port, proto, ps))
  {
    hide Split, Listed;
    SplitField(media, port + [' '] + (proto + [' '] + Listed(ps)), ' ');
    SplitField(port, proto + [' '] + Listed(ps), ' ');
    SplitField(proto, Listed(ps), ' ');
    SplitListed(ps);
    var fs := Split(l[2..], ' ');
    assert fs == [media] + ([port] + ([proto] + (ps + [""])));
    assert fs[|fs| - 1] == "" && fs[3..|fs| - 1] == ps;
  }

  /** The blanks between port and protocol, regrouped. */
  lemma Regrouped(media: string, middle: string, port: string, proto: string, rest: string)
    requires middle == [' '] + port + [' '] + proto + [' ']
    ensures var l := "m=" + media + middle + rest; IsMediaLine(l) && l[2..] == Fields(media, port, proto, rest)
  {
    var tail := port + [' '] + (proto + [' '] + rest);
    assert middle + rest == [' '] + tail;
    var l := "m=" + media + middle + rest;
    assert l == "m=" + (media + (middle + rest));
    assert l[2..] == media + ([' '] + tail);
    assert media + ([' '] + tail) == media + [' '] + tail;
  }

  lemma LineFields(m: Media)
    ensures IsMediaLine(MediaLine(m))
    ensures MediaLine(m)[2..] == if IsAudio(m) then Fields(m.media, "10500", "RTP/AVP", Listed(Supported(m.payloads)))
                                 else Fields(m.media, "0", m.proto, "")
  {
    hide IsAudio, Listed, Fields, IsMediaLine;
    if IsAudio(m) {
      assert " 10500 RTP/AVP " == [' '] + "10500" + [' '] + "RTP/AVP" + [' '];
      Regrouped(m.media, " 10500 RTP/AVP ", "10500", "RTP/AVP", Listed(Supported(m.payloads)));
    } else {
      var middle := [' '] + "0" + [' '] + m.proto + [' '];
      Regrouped(m.media, middle, "0", m.proto, "");
      RefusalLine(m.media, m.proto);
    }
  }

  lemma RefusalLine(media: string, proto: string)
    ensures "m=" + media + " 0 " + proto + " " == "m=" + media + ([' '] + "0" + [' '] + proto + [' ']) + ""
  {
    assert " 0 " + proto + " " == [' '] + "0" + [' '] + proto + [' '];
    assert "m=" + media + " 0 " + proto + " " == "m=" + media + (" 0 " + proto + " ");
  }

  /** An audio line offers port 10500, RTP/AVP, and the offered 0s and 8s; any other line refuses
      the stream with port 0 and its own protocol. */
  predicate Describes(r: Reading, m: Media, ps: seq<string>) {
    && r.media == m.media && (r.port == "0" <==> !IsAudio(m))
    && (IsAudio(m) ==> r.port == "10500" && r.proto == "RTP/AVP" && r.formats == ps)
    && (!IsAudio(m) ==> r.proto == m.proto && r.formats == [])
  }

  lemma MediaLineReads(m: Media)
    requires Blankless(m)
    ensures ReadMedia(MediaLine(m)).Some? && Describes(ReadMedia(MediaLine(m)).value, m, Supported(m.payloads))
  {
    hide ReadMedia, IsAudio, Listed, MediaLine, Fields;
    LineFields(m);
    if IsAudio(m) {
      ReadFields(MediaLine(m), m.media, "10500", "RTP/AVP", Supported(m.payloads));
    } else {
      assert Listed([]) == "" by { NoneSupported(); }
      ReadFields(MediaLine(m), m.media, "0", m.proto, []);
    }
  }

  /** The text answers the offer, as section 6 of RFC 3264 asks for: one media line per offered
      stream, in order, that names its media; audio is taken with the offered 0s and 8s in their
      order and number, everything else is refused with port 0. */
  ghost predicate Answers(text: string, ip: string, offer: Session) {
    var lines := ReadLines(text);
    var ms := MediaLines(lines);
    && |lines| >= 5 && lines[3] == "c=IN IP4 " + ip
    && |ms| == |offer.medias|
    && forall i :: 0 <= i < |ms| ==>
         var r := ReadMedia(ms[i]);
         r.Some? && Describes(r.value, offer.medias[i], r.value.formats)
         && (IsAudio(offer.medias[i]) ==> Picked(offer.medias[i].payloads, r.value.formats))
  }

  lemma AnswerIsRight(ip: string, offer: Session)
    requires OneLine(ip) && forall i :: 0 <= i < |offer.medias| ==> Clean(offer.medias[i]) && Blankless(offer.medias[i])
    ensures Answers(Unlines(Header(ip) + AllStreamLines(offer.medias)), ip, offer)
  {
    hide Unlines, ReadLines, MediaLines, ReadMedia, AllStreamLines, Picked, MediaLine, IsAudio, Clean, Blankless;
    AnswerReads(ip, offer);
    forall i | 0 <= i < |offer.medias|
      ensures var r := ReadMedia(Answered(offer.medias)[i]);
              r.Some? && Describes(r.value, offer.medias[i], r.value.formats)
              && (IsAudio(offer.medias[i]) ==> Picked(offer.medias[i].payloads, r.value.formats))
    {
      MediaLineReads(offer.medias[i]);
      SupportedIsPicked(offer.medias[i].payloads);
    }
  }

  /** An answer keeps the protocol of every stream if and only if all audio was offered as RTP/AVP. */
  lemma ProtocolKept(m: Media)
    requires Blankless(m)
    ensures ReadMedia(MediaLine(m)).Some?
    ensures ReadMedia(MediaLine(m)).value.proto == m.proto <==> !IsAudio(m) || m.proto == "RTP/AVP"
  {
    hide ReadMedia, MediaLine, IsAudio;
    MediaLineReads(m);
  }

  /** Audio offered as RTP/SAVP is answered as RTP/AVP. */
  lemma SecureAudioAnsweredPlain()
    ensures var m := Media("audio", "RTP/SAVP", ["0"], []);
            && Acceptable(m) && ReadMedia(MediaLine(m)).Some? && ReadMedia(MediaLine(m)).value.proto == "RTP/AVP"
  {
    hide ReadMedia, MediaLine;
    var m := Media("audio", "RTP/SAVP", ["0"], []);
    assert IsAudio(m) && Known(m.payloads[0]);
    MediaLineReads(m);
  }

  /** An rtpmap line: the format, the encoding and the clock rate. */
  datatype Mapping = Mapping(format: string, encoding: string, clock: string)

  function ReadMap(l: string): Option<Mapping> {
    if |l| < 9 || l[..9] != "a=rtpmap:" then None
    else
      var fs := Split(l[9..], ' ');
      if |fs| != 2 then None
      else
        var es := Split(fs[1], '/');
        if |es| != 2 then None else Some(Mapping(fs[0], es[0], es[1]))
  }

  /** The two lines say what table 4 of RFC 3551 assigns to the static formats 0 and 8. */
  lemma MapsSay()
    ensures ReadMap(PCMU) == Some(Mapping("0", "PCMU", "8000")) && ReadMap(PCMA) == Some(Mapping("8", "PCMA", "8000"))
  {
    hide Split;
    MapSays("0", "PCMU", "8000");
    MapSays("8", "PCMA", "8000");
    assert PCMU == "a=rtpmap:" + ("0" + [' '] + ("PCMU" + ['/'] + "8000"));
    assert PCMA == "a=rtpmap:" + ("8" + [' '] + ("PCMA" + ['/'] + "8000"));
  }

  lemma MapSays(format: string, encoding: string, clock: string)
    requires ' ' !in format && ' ' !in encoding && ' ' !in clock && '/' !in encoding && '/' !in clock
    ensures ReadMap("a=rtpmap:" + (format + [' '] + (encoding + ['/'] + clock))) == Some(Mapping(format, encoding, clock))
  {
    hide Split;
    var rest := encoding + ['/'] + clock;
    var l := "a=rtpmap:" + (format + [' '] + rest);
    assert l[..9] == "a=rtpmap:" && l[9..] == format + [' '] + rest;
    SplitField(format, rest, ' ');
    SplitOne(rest, ' ');
    SplitField(encoding, clock, '/');
    SplitOne(clock, '/');
  }

  /** In the lines of a stream each format of the two is described if and only if it is answered. */
  lemma MapsFollowFormats(m: Media)
    ensures PCMU in StreamLines(m) <==> IsAudio(m) && "0" in Supported(m.payloads)
    ensures PCMA in StreamLines(m) <==> IsAudio(m) && "8" in Supported(m.payloads)
  {
    assert MediaLine(m)[0] == 'm' && PCMU[0] == 'a' && PCMA[0] == 'a';
    assert PCMU[9] == '0' && PCMA[9] == '8';
    assert forall p :: Known(p) ==> (p in Supported(m.payloads) <==> p in m.payloads);
  }
}
