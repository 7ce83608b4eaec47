/** Presence documents in josua: the PIDF body of a NOTIFY (jinsubscriptions.c) and the scanner
    that reads the status back from one (jsubscriptions.c). */
module Presence {
  import opened Wrappers
  import opened Text

  datatype Status = Unknown | Pending | Online | Busy | BeRightBack | Away | OnThePhone | OutToLunch | Closed

  // ---------------------------------------------------------------- the scanner

  /** The text begins with the word: its first letter as it is, the others in either case. */
  predicate Starts(s: string, w: string)
    requires w != ""
  {
    |w| <= |s| && s[0] == w[0] && forall i :: 0 <= i < |w| ==> Lower(s[i]) == Lower(w[i])
  }

  function Activity(s: string): Option<Status> {
    if Starts(s, "away") then Some(Away)
    else if Starts(s, "meal") then Some(OutToLunch)
    else if Starts(s, "in-transit") then Some(BeRightBack)
    else if Starts(s, "busy") then Some(Busy)
    else if Starts(s, "on-the-phone") then Some(OnThePhone)
    else None
  }

  /** From "open" on: the first activity, up to the end of the status. */
  function ScanOpen(s: string): Status {
    if s == "" then Online
    else if Activity(s).Some? then Activity(s).value
    else if Starts(s, "/status") then Online
    else ScanOpen(s[1..])
  }

  /** jsubscriptions_set_presence_status, for a pidf+xml body; `prev` is the status so far. */
  function Scan(s: string, prev: Status): Status {
    if s == "" then prev
    else if Starts(s, "open") then ScanOpen(s)
    else if Starts(s, "closed") then Closed
    else Scan(s[1..], prev)
  }

  lemma NeverOnline(s: string)
    ensures Activity(s) != Some(Online)
    ensures Activity(s).Some? ==> !Starts(s, "/status")
  {
  }

  method SetPresenceStatus(body: string, prev: Status) returns (status: Status)
    ensures status == Scan(body, prev)
  {
    hide Starts, Activity;
    status := prev;
    var i := 0;
    while i < |body|
      invariant 0 <= i <= |body| && status == prev
      invariant Scan(body, prev) == Scan(body[i..], prev)
    {
      if Starts(body[i..], "open") {
        status := Online;
        while i < |body|
          invariant 0 <= i <= |body| && status == Online
          invariant Scan(body, prev) == ScanOpen(body[i..])
        {
          var act := Activity(body[i..]);
          NeverOnline(body[i..]);
          if act.Some? { status := act.value; }
          if Starts(body[i..], "/status") { break; }
          if status != Online { break; }
          i := i + 1;
        }
        return;
      } else if Starts(body[i..], "closed") {
        status := Closed;
        return;
      }
      i := i + 1;
    }
  }

  // ---------------------------------------------------------------- the printer

  function Concat(cs: seq<string>): string {
    if cs == [] then "" else cs[0] + Concat(cs[1..])
  }

  const XML := ["<?xml version=\"1.0\" ", "encoding=\"UTF-8\"?>\n", "<presence ", "xmlns=\"urn:ietf:params:", "xml:ns:pidf\"\n"]
  const RPID := ["xmlns:es=\"urn:ietf:params:", "xml:ns:pidf:status:", "rpid-status\"\n"]
  const PAD := ["          "]
  const ENTITY := ["entity=\""]
  const TUPLE := ["\">\n", "<tuple id=\"sg89ae\">\n", "<status>\n", "<basic>"]
  const OPEN := ["open", "</basic>\n", "<"]
  const ACTIVITY := ["open", "</basic>\n", "<es:activities>\n", "  <es:activity>"]
  const ABSENCE := ["closed", "</basic>\n", "<es:activities>\n", "  <es:activity>", "permanent-absence", "</e:activity>\n", "</es:activities>\n", "<"]

  function Word(st: Status): string {
    match st
    case Busy => "busy"
    case BeRightBack => "in-transit"
    case Away => "away"
    case OnThePhone => "on-the-phone"
    case OutToLunch => "meal"
    case _ => ""
  }

  function Note(st: Status): string {
    match st
    case Online => "online"
    case Busy => "busy"
    case BeRightBack => "be right back"
    case Away => "away"
    case OnThePhone => "on the phone"
    case OutToLunch => "out to lunch"
    case _ => ""
  }

  /** What follows the status, for the six open ones. */
  function Trailer(st: Status, contact: string): string {
    "<contact priority=\"0.8\">" + contact + "</contact>\n<note>" + Note(st) + "</note\n</tuple>\n</presence>"
  }

  /** The text from the status on. */
  function Body(st: Status, contact: string): string {
    if st == Online then Concat(OPEN) + ("/status" + (">\n" + Trailer(st, contact)))
    else if Word(st) != "" then
      Concat(ACTIVITY) + (Word(st) + ("</es:activity>\n</es:activities>\n</status>\n" + Trailer(st, contact)))
    else Concat(ABSENCE) + ("/status" + ">\n</tuple>\n\n</presence>\n")
  }

  function Head(st: Status): seq<string> {
    if st == Online then XML + PAD + ENTITY
    else if Word(st) != "" then XML + PAD + RPID + PAD + ENTITY
    else XML + RPID + ENTITY
  }

  /** The body of a NOTIFY for an active subscription; any status without a text of its own is
      printed as closed. */
  function Print(st: Status, contact: string): string {
    Concat(Head(st)) + (contact + (Concat(TUPLE) + Body(st, contact)))
  }

  // ---------------------------------------------------------------- text the scanner passes over

  predicate QuietAt(s: string, i: nat) {
    && (i < |s| && s[i] == 'o' ==> i + 1 < |s| && s[i + 1] != 'p' && s[i + 1] != 'P')
    && (i < |s| && s[i] == 'c' ==> i + 1 < |s| && s[i + 1] != 'l' && s[i + 1] != 'L')
  }

  /** No "op" and no "cl", also not across the end. */
  predicate Quiet(s: string) {
    forall i :: 0 <= i < |s| ==> QuietAt(s, i)
  }

  predicate Differs(s: string, i: nat, x: char, y: char, z: char) {
    i < |s| && s[i] == x ==> i + 1 < |s| && s[i + 1] != y && s[i + 1] != z
  }

  predicate CalmAt(s: string, i: nat) {
    && Differs(s, i, 'a', 'w', 'W') && Differs(s, i, 'm', 'e', 'E') && Differs(s, i, 'i', 'n', 'N')
    && Differs(s, i, 'b', 'u', 'U') && Differs(s, i, 'o', 'n', 'N') && Differs(s, i, '/', 's', 'S')
  }

  /** No beginning of an activity or of "/status". */
  predicate Calm(s: string) {
    forall i :: 0 <= i < |s| ==> CalmAt(s, i)
  }

  /** The second letter of a word decides. */
  lemma SecondLetter(s: string, w: string)
    requires |w| >= 2 && Starts(s, w)
    ensures |s| >= 2 && s[0] == w[0] && Lower(s[1]) == Lower(w[1])
  {
  }

  lemma {:induction false} PassQuiet(c: string, s: string, prev: Status)
    requires Quiet(c)
    ensures Scan(c + s, prev) == Scan(s, prev)
  {
    if c == "" { assert c + s == s; }
    else {
      var t := c + s;
      assert QuietAt(c, 0);
      if Starts(t, "open") { SecondLetter(t, "open"); }
      if Starts(t, "closed") { SecondLetter(t, "closed"); }
      assert t[1..] == c[1..] + s;
      assert Quiet(c[1..]) by { forall i | 0 <= i < |c[1..]| ensures QuietAt(c[1..], i) { assert QuietAt(c, i + 1); } }
      PassQuiet(c[1..], s, prev);
    }
  }

  lemma NoActivity(c: string, s: string)
    requires c != "" && CalmAt(c, 0)
    ensures Activity(c + s).None? && !Starts(c + s, "/status")
  {
    var t := c + s;
    if Starts(t, "away") { SecondLetter(t, "away"); }
    if Starts(t, "meal") { SecondLetter(t, "meal"); }
    if Starts(t, "in-transit") { SecondLetter(t, "in-transit"); }
    if Starts(t, "busy") { SecondLetter(t, "busy"); }
    if Starts(t, "on-the-phone") { SecondLetter(t, "on-the-phone"); }
    if Starts(t, "/status") { SecondLetter(t, "/status"); }
  }

  lemma {:induction false} PassCalm(c: string, s: string)
    requires Calm(c)
    ensures ScanOpen(c + s) == ScanOpen(s)
  {
    if c == "" { assert c + s == s; }
    else {
      hide Activity, Starts;
      var t := c + s;
      assert CalmAt(c, 0);
      NoActivity(c, s);
      assert t[1..] == c[1..] + s;
      assert Calm(c[1..]) by { forall i | 0 <= i < |c[1..]| ensures CalmAt(c[1..], i) { assert CalmAt(c, i + 1); } }
      PassCalm(c[1..], s);
    }
  }

  lemma PassAllQuiet(cs: seq<string>, s: string, prev: Status)
    requires forall i :: 0 <= i < |cs| ==> Quiet(cs[i])
    ensures Scan(Concat(cs) + s, prev) == Scan(s, prev)
  {
    hide Scan, Quiet;
    if cs == [] { assert Concat(cs) + s == s; }
    else {
      assert Concat(cs) + s == cs[0] + (Concat(cs[1..]) + s);
      PassQuiet(cs[0], Concat(cs[1..]) + s, prev);
      PassAllQuiet(cs[1..], s, prev);
    }
  }

  lemma PassAllCalm(cs: seq<string>, s: string)
    requires forall i :: 0 <= i < |cs| ==> Calm(cs[i])
    ensures ScanOpen(Concat(cs) + s) == ScanOpen(s)
  {
    hide ScanOpen, Calm;
    if cs == [] { assert Concat(cs) + s == s; }
    else {
      assert Concat(cs) + s == cs[0] + (Concat(cs[1..]) + s);
      PassCalm(cs[0], Concat(cs[1..]) + s);
      PassAllCalm(cs[1..], s);
    }
  }

  lemma QuietHead()
    ensures forall i :: 0 <= i < |XML| ==> Quiet(XML[i])
    ensures Quiet(PAD[0]) && Quiet(ENTITY[0])
  {
    assert Quiet("<?xml version=\"1.0\" ");
    assert Quiet("encoding=\"UTF-8\"?>\n");
    assert Quiet("<presence ");
    assert Quiet("xmlns=\"urn:ietf:params:");
    assert Quiet("xml:ns:pidf\"\n");
  }

  lemma QuietRpid()
    ensures forall i :: 0 <= i < |RPID| ==> Quiet(RPID[i])
  {
    assert Quiet("xmlns:es=\"urn:ietf:params:");
    assert Quiet("xml:ns:pidf:status:");
    assert Quiet("rpid-status\"\n");
  }

  lemma QuietTuple()
    ensures forall i :: 0 <= i < |TUPLE| ==> Quiet(TUPLE[i])
  {
    assert Quiet("\">\n");
    assert Quiet("<tuple id=\"sg89ae\">\n");
    assert Quiet("<status>\n");
    assert Quiet("<basic>");
  }

  lemma CalmId()
    ensures Calm("<tuple id=\"sg89ae\">\n")
  {
  }

  lemma CalmStatus()
    ensures Calm("\">\n") && Calm("<status>\n") && Calm("<basic>")
  {
  }

  lemma CalmTuple()
    ensures forall i :: 0 <= i < |TUPLE| ==> Calm(TUPLE[i])
  {
    hide Calm;
    CalmId();
    CalmStatus();
  }

  lemma CalmBasic()
    ensures Calm("open") && Calm("closed") && Calm("</basic>\n") && Calm("<")
  {
  }

  lemma CalmActivities()
    ensures Calm("<es:activities>\n") && Calm("  <es:activity>")
  {
  }

  lemma CalmEnds()
    ensures Calm("permanent-absence") && Calm("</e:activity>\n")
  {
  }

  lemma CalmLast()
    ensures Calm("</es:activities>\n")
  {
  }

  lemma CalmBodies()
    ensures forall i :: 0 <= i < |OPEN| ==> Calm(OPEN[i])
    ensures forall i :: 0 <= i < |ACTIVITY| ==> Calm(ACTIVITY[i])
    ensures forall i :: 0 <= i < |ABSENCE| ==> Calm(ABSENCE[i])
  {
    hide Calm;
    CalmBasic();
    CalmActivities();
    CalmEnds();
    CalmLast();
  }

  // ---------------------------------------------------------------- the status in the text

  lemma StartsWith(w: string, s: string)
    requires w != ""
    ensures Starts(w + s, w)
  {
  }

  /** A body that is known to be open. */
  lemma OpenBody(st: Status, contact: string)
    ensures ScanOpen(Body(st, contact)) == if st == Online || Word(st) != "" then st else Online
  {
    hide Trailer, Concat, Calm, ScanOpen;
    CalmBodies();
    if st == Online {
      PassAllCalm(OPEN, "/status" + (">\n" + Trailer(st, contact)));
      EndOfStatus(">\n" + Trailer(st, contact));
    } else if Word(st) != "" {
      var rest := "</es:activity>\n</es:activities>\n</status>\n" + Trailer(st, contact);
      PassAllCalm(ACTIVITY, Word(st) + rest);
      ReadWord(st, rest);
    } else {
      PassAllCalm(ABSENCE, "/status" + ">\n</tuple>\n\n</presence>\n");
      EndOfStatus(">\n</tuple>\n\n</presence>\n");
    }
  }

  lemma EndOfStatus(s: string)
    ensures ScanOpen("/status" + s) == Online
  {
    StartsWith("/status", s);
    var t := "/status" + s;
    assert t[0] == '/';
  }

  lemma ReadWord(st: Status, s: string)
    requires Word(st) != ""
    ensures ScanOpen(Word(st) + s) == st
  {
    StartsWith(Word(st), s);
    var t := Word(st) + s;
    assert t[0] == Word(st)[0];
  }

  // ---------------------------------------------------------------- what the contact does

  /** The effect of a contact that stands before the status: none, a status of its own, or to
      open the document. */
  datatype Effect = Transparent | Fixed(status: Status) | Opened

  function OpenEffect(c: string): Effect {
    if c == "" then Opened
    else if Activity(c).Some? then Fixed(Activity(c).value)
    else if Starts(c, "/status") then Fixed(Online)
    else OpenEffect(c[1..])
  }

  function EffectOf(c: string): Effect {
    if c == "" then Transparent
    else if Starts(c, "open") then OpenEffect(c)
    else if Starts(c, "closed") then Fixed(Closed)
    else EffectOf(c[1..])
  }

  /** No word of the scanner crosses a quotation mark. */
  lemma StartsBefore(c: string, s: string, w: string)
    requires w != "" && '"' !in w && s != "" && s[0] == '"'
    ensures Starts(c + s, w) <==> Starts(c, w)
  {
    if |c| < |w| { assert (c + s)[|c|] == '"' && w[|c|] in w; }
  }

  lemma ActivityBefore(c: string, s: string)
    requires s != "" && s[0] == '"'
    ensures Activity(c + s) == Activity(c)
  {
    hide Starts;
    StartsBefore(c, s, "away");
    StartsBefore(c, s, "meal");
    StartsBefore(c, s, "in-transit");
    StartsBefore(c, s, "busy");
    StartsBefore(c, s, "on-the-phone");
  }

  lemma {:induction false} ScanOpenContact(c: string, s: string)
    requires s != "" && s[0] == '"'
    ensures ScanOpen(c + s) == match OpenEffect(c) case Fixed(st) => st case _ => ScanOpen(s)
  {
    hide Activity, Starts;
    if c == "" { assert c + s == s; }
    else {
      ActivityBefore(c, s);
      StartsBefore(c, s, "/status");
      assert (c + s)[1..] == c[1..] + s;
      ScanOpenContact(c[1..], s);
    }
  }

  lemma {:induction false} ScanContact(c: string, s: string, prev: Status)
    requires s != "" && s[0] == '"'
    ensures Scan(c + s, prev) == match EffectOf(c)
                                 case Transparent => Scan(s, prev)
                                 case Fixed(st) => st
                                 case Opened => ScanOpen(s)
  {
    hide Starts, ScanOpen, OpenEffect;
    if c == "" { assert c + s == s; }
    else {
      StartsBefore(c, s, "open");
      StartsBefore(c, s, "closed");
      if Starts(c, "open") { ScanOpenContact(c, s); OpenIsNotTransparent(c); }
      else {
        assert (c + s)[1..] == c[1..] + s;
        ScanContact(c[1..], s, prev);
      }
    }
  }

  lemma OpenIsNotTransparent(c: string)
    ensures OpenEffect(c) != Transparent
  {
  }

  // ---------------------------------------------------------------- print, then scan

  /** The status that a printed one stands for. */
  function Printed(st: Status): Status {
    if st == Online || Word(st) != "" then st else Closed
  }

  lemma ScanBody(st: Status, contact: string, prev: Status)
    ensures Scan(Concat(TUPLE) + Body(st, contact), prev) == Printed(st)
  {
    hide ScanOpen, Concat, Trailer;
    QuietTuple();
    var b := Body(st, contact);
    PassAllQuiet(TUPLE, b, prev);
    OpenBody(st, contact);
    BodyStarts(st, contact);
  }

  lemma ConcatFirst(cs: seq<string>, s: string)
    requires cs != []
    ensures Concat(cs) + s == cs[0] + (Concat(cs[1..]) + s)
  {
  }

  lemma BodyStarts(st: Status, contact: string)
    ensures if Printed(st) == Closed then !Starts(Body(st, contact), "open") && Starts(Body(st, contact), "closed")
            else Starts(Body(st, contact), "open")
    ensures Body(st, contact) != ""
  {
    hide Trailer, Concat, Starts;
    if st == Online {
      var rest := "/status" + (">\n" + Trailer(st, contact));
      ConcatFirst(OPEN, rest);
      StartsWith("open", Concat(OPEN[1..]) + rest);
    } else if Word(st) != "" {
      var rest := Word(st) + ("</es:activity>\n</es:activities>\n</status>\n" + Trailer(st, contact));
      ConcatFirst(ACTIVITY, rest);
      StartsWith("open", Concat(ACTIVITY[1..]) + rest);
    } else {
      var rest := "/status" + ">\n</tuple>\n\n</presence>\n";
      ConcatFirst(ABSENCE, rest);
      StartsWith("closed", Concat(ABSENCE[1..]) + rest);
      NotBoth(Body(st, contact));
    }
  }

  lemma NotBoth(s: string)
    requires Starts(s, "closed")
    ensures !Starts(s, "open")
  {
  }

  lemma QuietHeads(st: Status)
    ensures forall i :: 0 <= i < |Head(st)| ==> Quiet(Head(st)[i])
  {
    hide Quiet;
    QuietHead();
    QuietRpid();
  }

  /** Printing and scanning, for every contact: the status comes back unless the contact has a
      say in it. */
  lemma {:induction false} PrintThenScan(st: Status, contact: string, prev: Status)
    ensures Scan(Print(st, contact), prev) == match EffectOf(contact)
                                              case Transparent => Printed(st)
                                              case Fixed(s) => s
                                              case Opened => if Printed(st) == Closed then Online else st
  {
    hide Scan, ScanOpen, Concat, Body, EffectOf, Quiet, Calm, Head;
    var t := Concat(TUPLE) + Body(st, contact);
    QuietHeads(st);
    PassAllQuiet(Head(st), contact + t, prev);
    TupleStarts(Body(st, contact));
    ScanContact(contact, t, prev);
    ScanBody(st, contact, prev);
    CalmTuple();
    PassAllCalm(TUPLE, Body(st, contact));
    OpenBody(st, contact);
  }

  lemma TupleStarts(s: string)
    ensures Concat(TUPLE) + s != "" && (Concat(TUPLE) + s)[0] == '"'
  {
    assert Concat(TUPLE) == TUPLE[0] + Concat(TUPLE[1..]);
  }

  predicate Mentions(c: string, w: string)
    requires w != ""
  {
    exists i :: 0 <= i <= |c| && Starts(c[i..], w)
  }

  /** A contact without the words "open" and "closed" has no effect. */
  lemma {:induction false} PlainContact(c: string)
    requires !Mentions(c, "open") && !Mentions(c, "closed")
    ensures EffectOf(c) == Transparent
  {
    if c != "" {
      assert c[0..] == c;
      forall w | w == "open" || w == "closed" ensures !Mentions(c[1..], w) {
        forall i | 0 <= i <= |c[1..]| ensures !Starts(c[1..][i..], w) {
          assert c[1..][i..] == c[i + 1..];
          assert !Starts(c[i + 1..], w);
        }
      }
      PlainContact(c[1..]);
    }
  }

  /** The exact condition under which a status survives the round trip. */
  lemma StatusSurvives(st: Status, contact: string, prev: Status)
    requires st != Unknown && st != Pending
    ensures Scan(Print(st, contact), prev) == st <==>
              || EffectOf(contact) == Transparent
              || EffectOf(contact) == Fixed(st)
              || (EffectOf(contact) == Opened && st != Closed)
  {
    hide Scan, Print, EffectOf;
    PrintThenScan(st, contact, prev);
  }

  /** A busy party at "sip:closed@h" is read as closed ... */
  lemma ClosedContact(prev: Status)
    ensures Scan(Print(Busy, "sip:closed@h"), prev) == Closed
  {
    hide Scan, Print;
    var c := "sip:closed@h";
    PrintThenScan(Busy, c, prev);
    assert Quiet("sip:");
    assert c == "sip:" + "closed@h";
    EffectAfter("sip:", "closed@h");
    ClosedEffect();
  }

  /** ... and a closed one at "sip:open@h" as online. */
  lemma OpenContact(prev: Status)
    ensures Scan(Print(Closed, "sip:open@h"), prev) == Online
  {
    hide Scan, Print;
    var c := "sip:open@h";
    PrintThenScan(Closed, c, prev);
    assert Quiet("sip:");
    assert c == "sip:" + "open@h";
    EffectAfter("sip:", "open@h");
    OpenedEffect();
  }

  lemma EffectAfter(c: string, s: string)
    requires Quiet(c)
    ensures EffectOf(c + s) == EffectOf(s)
  {
    if c == "" { assert c + s == s; }
    else {
      var t := c + s;
      assert QuietAt(c, 0);
      if Starts(t, "open") { SecondLetter(t, "open"); }
      if Starts(t, "closed") { SecondLetter(t, "closed"); }
      assert t[1..] == c[1..] + s;
      assert Quiet(c[1..]) by { forall i | 0 <= i < |c[1..]| ensures QuietAt(c[1..], i) { assert QuietAt(c, i + 1); } }
      EffectAfter(c[1..], s);
    }
  }

  lemma ClosedEffect()
    ensures EffectOf("closed@h") == Fixed(Closed)
  {
    var c := "closed@h";
    assert c == "closed" + "@h";
    StartsWith("closed", "@h");
    NotBoth(c);
  }

  lemma OpenedEffect()
    ensures EffectOf("open@h") == Opened
  {
    var c := "open@h";
    assert c == "open" + "@h";
    StartsWith("open", "@h");
    assert Calm("open@h");
    CalmOpens(c);
  }

  lemma CalmOpens(c: string)
    requires Calm(c)
    ensures OpenEffect(c) == Opened
  {
    if c != "" {
      assert CalmAt(c, 0);
      assert c + "" == c;
      NoActivity(c, "");
      assert Calm(c[1..]) by { forall i | 0 <= i < |c[1..]| ensures CalmAt(c[1..], i) { assert CalmAt(c, i + 1); } }
      CalmOpens(c[1..]);
    }
  }
}
