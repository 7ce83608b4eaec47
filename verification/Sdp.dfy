/** Session descriptions in josua (sdptools.c): hold, off hold, the direction of a stream, and
    the answer to an offer. */
module Sdp {
  import opened Wrappers

  /** `attrs` are the a= fields, in order. */
  datatype Media = Media(media: string, proto: string, payloads: seq<string>, attrs: seq<string>)

  datatype Session = Session(attrs: seq<string>, medias: seq<Media>)

  datatype Direction = SENDRECV | SENDONLY | RECVONLY

  // ---------------------------------------------------------------- directions

  predicate IsDirection(f: string) {
    f == "sendonly" || f == "recvonly" || f == "sendrecv"
  }

  predicate HasDirection(attrs: seq<string>) {
    exists i :: 0 <= i < |attrs| && IsDirection(attrs[i])
  }

  function DirectionOf(f: string): Direction
    requires IsDirection(f)
  {
    if f == "sendonly" then SENDONLY else if f == "recvonly" then RECVONLY else SENDRECV
  }

  /** The first direction of a list of attributes. */
  function FirstDirection(attrs: seq<string>): (r: Option<Direction>)
    ensures r.Some? <==> HasDirection(attrs)
    ensures r.Some? ==> exists i :: 0 <= i < |attrs| && IsDirection(attrs[i]) && DirectionOf(attrs[i]) == r.value
  {
    if attrs == [] then None
    else if IsDirection(attrs[0]) then Some(DirectionOf(attrs[0]))
    else
      assert HasDirection(attrs[1..]) ==> HasDirection(attrs) by {
        if HasDirection(attrs[1..]) {
          var i :| 0 <= i < |attrs[1..]| && IsDirection(attrs[1..][i]);
          assert IsDirection(attrs[i + 1]);
        }
      }
      assert HasDirection(attrs) ==> HasDirection(attrs[1..]) by {
        if HasDirection(attrs) {
          var i :| 0 <= i < |attrs| && IsDirection(attrs[i]);
          assert IsDirection(attrs[1..][i - 1]);
        }
      }
      FirstDirection(attrs[1..])
  }

  /** A stream's own direction, else that of the session, else both ways. */
  function Analyse(s: Session, i: nat): Direction
    requires i < |s.medias|
  {
    match FirstDirection(s.medias[i].attrs)
    case Some(d) => d
    case None => match FirstDirection(s.attrs) case Some(d) => d case None => SENDRECV
  }

  function NameOf(d: Direction): string {
    match d case SENDRECV => "sendrecv" case SENDONLY => "sendonly" case RECVONLY => "recvonly"
  }

  /** The first direction among the attributes is this one. */
  predicate Leads(attrs: seq<string>, name: string) {
    exists i :: 0 <= i < |attrs| && attrs[i] == name && Bare(attrs[..i])
  }

  predicate Bare(attrs: seq<string>) {
    forall j :: 0 <= j < |attrs| ==> attrs[j] !in ["sendonly", "recvonly", "sendrecv"]
  }

  lemma NamesDiffer(d: Direction)
    ensures IsDirection(NameOf(d)) && DirectionOf(NameOf(d)) == d
    ensures forall f :: IsDirection(f) ==> NameOf(DirectionOf(f)) == f
  {
  }

  lemma LeadsFirst(attrs: seq<string>, name: string)
    requires attrs != [] && IsDirection(name)
    ensures Leads(attrs, name) <==> if IsDirection(attrs[0]) then attrs[0] == name else Leads(attrs[1..], name)
    ensures Bare(attrs) <==> !IsDirection(attrs[0]) && Bare(attrs[1..])
  {
    assert attrs[..0] == [];
    if !IsDirection(attrs[0]) && Leads(attrs[1..], name) {
      var i :| 0 <= i < |attrs[1..]| && attrs[1..][i] == name && Bare(attrs[1..][..i]);
      assert attrs[..i + 1] == [attrs[0]] + attrs[1..][..i] && attrs[i + 1] == name;
    }
    if Leads(attrs, name) {
      var i :| 0 <= i < |attrs| && attrs[i] == name && Bare(attrs[..i]);
      if i > 0 {
        assert attrs[..i][0] == attrs[0] && attrs[1..][i - 1] == name;
        assert attrs[1..][..i - 1] == attrs[..i][1..];
      }
    }
  }

  lemma {:induction false} FirstLeads(attrs: seq<string>, d: Direction)
    ensures FirstDirection(attrs) == Some(d) <==> Leads(attrs, NameOf(d))
    ensures FirstDirection(attrs) == None <==> Bare(attrs)
  {
    hide NameOf, DirectionOf, IsDirection, HasDirection, Leads, Bare;
    if attrs != [] {
      FirstLeads(attrs[1..], d);
      NamesDiffer(d);
      LeadsFirst(attrs, NameOf(d));
    } else {
      NoneLeads(NameOf(d));
    }
  }

  lemma NoneLeads(name: string)
    ensures !Leads([], name) && Bare([])
  {
  }

  /** A stream has a direction exactly when it leads the stream's own attributes, or those of the
      session when the stream has none, or is both ways when neither has one. */
  lemma DirectionLaw(s: Session, i: nat, d: Direction)
    requires i < |s.medias|
    ensures Analyse(s, i) == d <==>
              var own := s.medias[i].attrs;
              || Leads(own, NameOf(d))
              || (Bare(own) && Leads(s.attrs, NameOf(d)))
              || (Bare(own) && Bare(s.attrs) && d == SENDRECV)
  {
    hide NameOf, Leads, Bare, FirstDirection;
    var own := s.medias[i].attrs;
    FirstLeads(own, d);
    FirstLeads(s.attrs, d);
  }

  // ---------------------------------------------------------------- hold and off hold

  function Turned(attrs: seq<string>, to: string): (r: seq<string>)
    ensures |r| == |attrs|
    ensures forall i :: 0 <= i < |attrs| ==> r[i] == if IsDirection(attrs[i]) then to else attrs[i]
  {
    seq(|attrs|, i requires 0 <= i < |attrs| => if IsDirection(attrs[i]) then to else attrs[i])
  }

  function TurnedMedias(ms: seq<Media>, to: string): (r: seq<Media>)
    ensures |r| == |ms|
    ensures forall i :: 0 <= i < |ms| ==> r[i] == ms[i].(attrs := Turned(ms[i].attrs, to))
  {
    seq(|ms|, i requires 0 <= i < |ms| => ms[i].(attrs := Turned(ms[i].attrs, to)))
  }

  predicate AnyDirection(s: Session) {
    HasDirection(s.attrs) || exists i :: 0 <= i < |s.medias| && HasDirection(s.medias[i].attrs)
  }

  /** _sdp_hold_call: every direction becomes "sendonly"; when there is none the session gets
      one. */
  function Hold(s: Session): Session {
    Session(Turned(s.attrs, "sendonly") + if AnyDirection(s) then [] else ["sendonly"],
            TurnedMedias(s.medias, "sendonly"))
  }

  /** _sdp_off_hold_call */
  function OffHold(s: Session): Session {
    Session(Turned(s.attrs, "sendrecv"), TurnedMedias(s.medias, "sendrecv"))
  }

  lemma TurnedDirection(attrs: seq<string>, to: string)
    requires IsDirection(to)
    ensures HasDirection(Turned(attrs, to)) <==> HasDirection(attrs)
    ensures HasDirection(attrs) ==> FirstDirection(Turned(attrs, to)) == Some(DirectionOf(to))
  {
    var r := Turned(attrs, to);
    if HasDirection(attrs) {
      var i :| 0 <= i < |attrs| && IsDirection(attrs[i]);
      assert IsDirection(r[i]);
    }
    if HasDirection(r) {
      var i :| 0 <= i < |r| && IsDirection(r[i]);
      assert IsDirection(attrs[i]);
    }
  }

  lemma TurnedStays(attrs: seq<string>, to: string)
    requires IsDirection(to)
    ensures Turned(Turned(attrs, to), to) == Turned(attrs, to)
  {
    hide IsDirection;
  }

  lemma FirstOfTwo(xs: seq<string>, ys: seq<string>)
    ensures FirstDirection(xs + ys) == if HasDirection(xs) then FirstDirection(xs) else FirstDirection(ys)
  {
    if xs == [] { assert xs + ys == ys; }
    else {
      assert (xs + ys)[1..] == xs[1..] + ys;
      FirstOfTwo(xs[1..], ys);
    }
  }

  lemma HeldSession(s: Session)
    ensures AnyDirection(Hold(s))
    ensures FirstDirection(Hold(s).attrs) ==
              if HasDirection(s.attrs) || !AnyDirection(s) then Some(SENDONLY) else None
  {
    TurnedDirection(s.attrs, "sendonly");
    FirstOfTwo(Turned(s.attrs, "sendonly"), if AnyDirection(s) then [] else ["sendonly"]);
    if AnyDirection(s) && !HasDirection(s.attrs) {
      var i :| 0 <= i < |s.medias| && HasDirection(s.medias[i].attrs);
      TurnedDirection(s.medias[i].attrs, "sendonly");
      assert HasDirection(Hold(s).medias[i].attrs);
    }
  }

  /** Hold, said exactly: a stream is then "sendonly" if and only if it or the session had a
      direction, or nothing did; a bare stream next to one with a direction stays as it was. */
  lemma HoldMakesSendOnly(s: Session, i: nat)
    requires i < |s.medias|
    ensures Analyse(Hold(s), i) ==
              if HasDirection(s.medias[i].attrs) || HasDirection(s.attrs) || !AnyDirection(s) then SENDONLY else SENDRECV
  {
    HeldSession(s);
    TurnedDirection(s.medias[i].attrs, "sendonly");
    assert HasDirection(s.medias[i].attrs) <==> FirstDirection(Hold(s).medias[i].attrs).Some?;
  }

  /** A bare stream beside one that has a direction: hold leaves it sending and receiving. */
  lemma HoldMissesBareStream()
    ensures var bare := Media("audio", "RTP/AVP", ["0"], []);
            var directed := Media("video", "RTP/AVP", ["31"], ["recvonly"]);
            var s := Session([], [bare, directed]);
            Analyse(Hold(s), 0) == SENDRECV && Analyse(Hold(s), 1) == SENDONLY
  {
    var bare := Media("audio", "RTP/AVP", ["0"], []);
    var directed := Media("video", "RTP/AVP", ["31"], ["recvonly"]);
    var s := Session([], [bare, directed]);
    assert IsDirection(directed.attrs[0]) && HasDirection(s.medias[1].attrs);
    HoldMakesSendOnly(s, 0);
    HoldMakesSendOnly(s, 1);
  }

  lemma TurnedTwice(ms: seq<Media>, to: string)
    requires IsDirection(to)
    ensures TurnedMedias(TurnedMedias(ms, to), to) == TurnedMedias(ms, to)
  {
    forall i | 0 <= i < |ms| ensures Turned(Turned(ms[i].attrs, to), to) == Turned(ms[i].attrs, to) {
      TurnedStays(ms[i].attrs, to);
    }
  }

  lemma HoldIdempotent(s: Session)
    ensures Hold(Hold(s)) == Hold(s)
  {
    HeldSession(s);
    TurnedStays(s.attrs, "sendonly");
    TurnedTwice(s.medias, "sendonly");
    assert Turned(Hold(s).attrs, "sendonly") == Hold(s).attrs;
    assert Hold(s).attrs + [] == Hold(s).attrs;
  }

  /** Off hold makes every stream send and receive, after a hold or not. */
  lemma {:induction false} OffHoldMakesSendRecv(s: Session, i: nat)
    requires i < |s.medias|
    ensures Analyse(OffHold(s), i) == SENDRECV && i < |Hold(s).medias| && Analyse(OffHold(Hold(s)), i) == SENDRECV
  {
    TurnedDirection(s.medias[i].attrs, "sendrecv");
    TurnedDirection(s.attrs, "sendrecv");
    TurnedDirection(Hold(s).medias[i].attrs, "sendrecv");
    TurnedDirection(Hold(s).attrs, "sendrecv");
    assert FirstDirection(OffHold(s).attrs).Some? ==> FirstDirection(OffHold(s).attrs) == Some(SENDRECV);
  }

  // ---------------------------------------------------------------- the description as an object

  class Description {
    var attrs: seq<string>
    var medias: seq<Media>

    function View(): Session
      reads this
    {
      Session(attrs, medias)
    }

    /** Rewrites the directions of one list of attributes, in place; tells whether it had any. */
    static method Turn(attrs: seq<string>, to: string) returns (r: seq<string>, had: bool)
      requires IsDirection(to)
      ensures r == Turned(attrs, to) && had == HasDirection(attrs)
    {
      r, had := attrs, false;
      var pos := 0;
      while pos < |r|
        invariant 0 <= pos <= |r| == |attrs|
        invariant forall i :: 0 <= i < pos ==> r[i] == if IsDirection(attrs[i]) then to else attrs[i]
        invariant forall i :: pos <= i < |r| ==> r[i] == attrs[i]
        invariant had <==> exists i :: 0 <= i < pos && IsDirection(attrs[i])
      {
        if r[pos] == to {
          had := true;
        } else if IsDirection(r[pos]) {
          had := true;
          r := r[pos := to];
        }
        pos := pos + 1;
      }
    }

    method TurnAll(to: string) returns (had: bool)
      requires IsDirection(to)
      modifies this
      ensures attrs == Turned(old(attrs), to) && medias == TurnedMedias(old(medias), to)
      ensures had == AnyDirection(old(View()))
    {
      attrs, had := Turn(attrs, to);
      var i := 0;
      while i < |medias|
        invariant 0 <= i <= |medias| == |old(medias)|
        invariant attrs == Turned(old(attrs), to)
        invariant forall k :: 0 <= k < i ==> medias[k] == old(medias)[k].(attrs := Turned(old(medias)[k].attrs, to))
        invariant forall k :: i <= k < |medias| ==> medias[k] == old(medias)[k]
        invariant had <==> HasDirection(old(attrs)) || exists k :: 0 <= k < i && HasDirection(old(medias)[k].attrs)
      {
        var turned, has := Turn(medias[i].attrs, to);
        medias := medias[i := medias[i].(attrs := turned)];
        had := had || has;
        i := i + 1;
      }
    }

    method HoldCall()
      modifies this
      ensures View() == Hold(old(View()))
    {
      var had := TurnAll("sendonly");
      if !had { attrs := attrs + ["sendonly"]; }
      else { assert attrs + [] == attrs; }
    }

    method OffHoldCall()
      modifies this
      ensures View() == OffHold(old(View()))
    {
      var _ := TurnAll("sendrecv");
    }

    static method ScanDirection(attrs: seq<string>) returns (d: Option<Direction>)
      ensures d == FirstDirection(attrs)
    {
      var pos := 0;
      while pos < |attrs|
        invariant 0 <= pos <= |attrs|
        invariant FirstDirection(attrs) == FirstDirection(attrs[pos..])
      {
        if IsDirection(attrs[pos]) { return Some(DirectionOf(attrs[pos])); }
        pos := pos + 1;
      }
      return None;
    }

    /** _sdp_analyse_attribute */
    method AnalyseAttribute(i: nat) returns (d: Direction)
      requires i < |medias|
      ensures d == Analyse(View(), i)
    {
      var own := ScanDirection(medias[i].attrs);
      if own.Some? { return own.value; }
      var global := ScanDirection(attrs);
      if global.Some? { return global.value; }
      return SENDRECV;
    }
  }
}
