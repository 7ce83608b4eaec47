/** Publications: what eXosip_publish does to them, and that no run keeps two for one address. */
module ContextPublications {
  import opened Wrappers
  import opened Sequences
  import opened Text
  import opened Sip
  import opened ContextStore
  import opened ContextHistory
  import opened ContextTheorems
  import opened ContextFates
  import opened ContextOutcomes

  // ---------------------------------------------------------------- eXosip_publish

  /** No two publications are for the same address. */
  predicate Apart(ps: seq<Publication>) {
    forall x, y :: 0 <= x < y < |ps| ==> !EqualNoCase(ps[x].aor, ps[y].aor)
  }

  predicate Stale(now: int, p: Publication) {
    now > p.expires + 60
  }

  /** The publications that are kept, in their order. */
  function Kept(now: int, ps: seq<Publication>): seq<Publication> {
    if ps == [] then [] else if Stale(now, ps[0]) then Kept(now, ps[1..]) else [ps[0]] + Kept(now, ps[1..])
  }

  lemma SweptAreStale(s: State, ps: seq<Publication>)
    ensures Sweep(s, ps).pubs == Kept(s.now, ps)
    ensures Sweep(s, ps) == s.(pubs := Sweep(s, ps).pubs, garbage := Sweep(s, ps).garbage)
    decreases |ps|
  {
    if ps != [] {
      if Stale(s.now, ps[0]) { SweptAreStale(if ps[0].last.Some? then Discard(s, ps[0].last.value) else s, ps[1..]); }
      else { SweptAreStale(s, ps[1..]); }
    }
  }

  lemma {:induction false} KeptApart(now: int, ps: seq<Publication>)
    requires Apart(ps)
    ensures Apart(Kept(now, ps))
  {
    hide EqualNoCase;
    if ps != [] {
      KeptApart(now, ps[1..]);
      KeptIs(now, ps[1..]);
      var r := Kept(now, ps[1..]);
      forall x | 0 <= x < |r| ensures !EqualNoCase(ps[0].aor, r[x].aor) {
        assert r[x] in ps[1..];
      }
    }
  }

  /** The publication of an address after eXosip_publish: the one that is kept, whose last
      transaction goes to the garbage list, or a new one when none is. */
  predicate PublishedAt(s: State, s': State, aor: string, period: int, p: nat) {
    && p < |s'.pubs|
    && (if exists q :: q in s.pubs && !Stale(s.now, q) && EqualNoCase(aor, q.aor)
        then exists q :: q in s.pubs && !Stale(s.now, q) && EqualNoCase(aor, q.aor) && s'.pubs[p] == q.(last := Some(s.nextTid))
                         && (q.last.Some? ==> q.last.value in s'.garbage)
        else s'.pubs[p] == Publication(aor, s.now + period, Some(s.nextTid)))
  }

  /** eXosip_publish forgets what expired more than a minute ago, and gives the address one
      publication, whose last transaction is the new one; the others do not change, and there are
      no two for one address. */
  lemma PublishFate(s: State, aor: string, period: int)
    ensures var s' := Next(s, DoPublish(aor, period));
            && (Apart(s.pubs) ==> Apart(s'.pubs)) && (exists p :: 0 <= p < |s'.pubs| && PublishedAt(s, s', aor, period, p))
            && (forall p :: 0 <= p < |s'.pubs| && !EqualNoCase(aor, s'.pubs[p].aor) ==> s'.pubs[p] in s.pubs && !Stale(s.now, s'.pubs[p]))
            && (forall q :: q in s.pubs && !Stale(s.now, q) && !EqualNoCase(aor, q.aor) ==> q in s'.pubs)
            && s'.trs == s.trs[s.nextTid := Transaction(PUBLISH, false, Pending, 0, s.now, None)]
  {
    hide Sweep, FindAor, EqualNoCase, PublishedAt;
    SweptAreStale(s, s.pubs);
    if Apart(s.pubs) { KeptApart(s.now, s.pubs); }
    var s1 := Sweep(s, s.pubs);
    KeptIs(s.now, s.pubs);
    FoundAor(s1.pubs, aor);
    match FindAor(s1.pubs, aor)
    case Some(p) =>
      RepublishFate(s, s1, aor, period, p);
      assert Next(s, DoPublish(aor, period)) == ReplacePub(s1, p);
    case None =>
      FirstPublishFate(s, s1, aor, period);
      assert Next(s, DoPublish(aor, period)) == ReplacePub(s1.(pubs := [Publication(aor, s.now + period, None)] + s1.pubs), 0);
  }

  lemma RepublishFate(s: State, s1: State, aor: string, period: int, p: nat)
    requires s1.pubs == Kept(s.now, s.pubs) && s1 == s.(pubs := s1.pubs, garbage := s1.garbage)
    requires p < |s1.pubs| && EqualNoCase(aor, s1.pubs[p].aor)
    ensures var s' := ReplacePub(s1, p);
            && (Apart(s1.pubs) ==> Apart(s'.pubs)) && PublishedAt(s, s', aor, period, p) && |s'.pubs| == |s1.pubs|
            && (forall x :: 0 <= x < |s'.pubs| && x != p ==> s'.pubs[x] == s1.pubs[x])
            && (forall q :: q in s1.pubs && q != s1.pubs[p] ==> q in s'.pubs)
            && EqualNoCase(aor, s'.pubs[p].aor)
  {
    hide EqualNoCase;
    KeptIs(s.now, s.pubs);
    var s' := ReplacePub(s1, p);
    assert s1.pubs[p] in s.pubs && !Stale(s.now, s1.pubs[p]);
    assert s'.pubs[p] == s1.pubs[p].(last := Some(s.nextTid));
    forall q | q in s1.pubs && q != s1.pubs[p] ensures q in s'.pubs {
      var x :| 0 <= x < |s1.pubs| && s1.pubs[x] == q;
      assert s'.pubs[x] == q;
    }
  }

  lemma FirstPublishFate(s: State, s1: State, aor: string, period: int)
    requires s1.pubs == Kept(s.now, s.pubs) && s1 == s.(pubs := s1.pubs, garbage := s1.garbage)
    requires forall x :: 0 <= x < |s1.pubs| ==> !EqualNoCase(aor, s1.pubs[x].aor)
    ensures var s' := ReplacePub(s1.(pubs := [Publication(aor, s.now + period, None)] + s1.pubs), 0);
            && (Apart(s1.pubs) ==> Apart(s'.pubs)) && PublishedAt(s, s', aor, period, 0)
            && s'.pubs == [s'.pubs[0]] + s1.pubs && EqualNoCase(aor, s'.pubs[0].aor)
  {
    KeptIs(s.now, s.pubs);
    var s' := ReplacePub(s1.(pubs := [Publication(aor, s.now + period, None)] + s1.pubs), 0);
    assert s'.pubs == [s'.pubs[0]] + s1.pubs;
    assert forall q :: q in s.pubs && !Stale(s.now, q) ==> !EqualNoCase(aor, q.aor) by {
      forall q | q in s.pubs && !Stale(s.now, q) ensures !EqualNoCase(aor, q.aor) {
        var x :| 0 <= x < |s1.pubs| && s1.pubs[x] == q;
      }
    }
  }

  lemma KeptIs(now: int, ps: seq<Publication>)
    ensures forall q :: q in Kept(now, ps) <==> q in ps && !Stale(now, q)
  {
  }

  lemma FoundAor(ps: seq<Publication>, aor: string)
    ensures FindAor(ps, aor).None? ==> forall x :: 0 <= x < |ps| ==> !EqualNoCase(aor, ps[x].aor)
  {
    hide EqualNoCase;
    if ps != [] { FoundAor(ps[1..], aor); }
  }

  // ---------------------------------------------------------------- every step

  lemma PubsUpdate()
    ensures forall s: State :: Update(s).pubs == s.pubs
  {
    hide Update;
    forall s: State ensures Update(s).pubs == s.pubs { UpdateKeepsShape(s); }
  }

  lemma PubsFreeDialogs(s: State, ds: seq<Dialog>)
    ensures FreeDialogs(s, ds).pubs == s.pubs
    decreases |ds|
  {
    hide Update;
    PubsUpdate();
    if ds != [] { PubsFreeDialogs(FreeDialog(s, ds[0]), ds[1..]); }
  }

  lemma PubsFreeContext()
    ensures forall s: State, k, i: nat :: i < |List(s, k)| ==> FreeContext(s, k, i).pubs == s.pubs
  {
    hide FreeDialogs;
    forall s: State, k, i: nat | i < |List(s, k)| ensures FreeContext(s, k, i).pubs == s.pubs {
      PubsFreeDialogs(RemoveContext(s, k, i), List(s, k)[i].dialogs);
    }
  }

  lemma PubsApi(s: State, e: Step)
    requires e.DoSendInitialInvite? || e.DoCallSendRequest? || e.DoTerminate? || e.DoSendInitialSubscribe? || e.DoSendRefresh?
             || e.DoNotifySendRequest? || e.DoAnswer?
    ensures Next(s, e).pubs == s.pubs
  {
    hide Update, FindDialog, FindContext, FindSubscription, FindTransaction, Latest, LastOutInvite, LastIncInvite, MaySend, Provisional;
    PubsUpdate();
  }

  lemma PubsReleases(s: State, e: Step)
    requires e.DoRefreshSubscription? || e.DoNewIncoming? || e.DoReleaseDialog? || e.DoReleaseCall? || e.DoDropTransaction?
    ensures Next(s, e).pubs == s.pubs
  {
    hide Update, FreeContext, HolderOf, Removed;
    PubsUpdate();
    PubsFreeContext();
  }

  lemma PubsRetry(s: State, owner: Owner, t: nat)
    requires owner != OfPublication
    ensures DefaultAction(s, owner, t).pubs == s.pubs
  {
    hide Update, FindTransaction, CallResend, SubscribeResend, RetryCall, RetrySubscribe;
    PubsUpdate();
    if t in s.trs {
      PubsRetryCall(s, t);
      PubsRetrySubscribe(s, t);
    }
  }

  lemma PubsCallResend(s: State, i: nat, jd: Option<nat>, t: nat)
    requires i < |s.calls| && (jd.Some? ==> jd.value < |s.calls[i].dialogs|) && t in s.trs
    ensures CallResend(s, i, jd, t).pubs == s.pubs
  {
    hide Alike;
    CallResendFate(s, i, jd, t);
    assert Alike(SetContext(s, Call, i, Again(s.calls[i], jd, t, s.nextTid)), CallResend(s, i, jd, t));
    AlikePubs(SetContext(s, Call, i, Again(s.calls[i], jd, t, s.nextTid)), CallResend(s, i, jd, t));
  }

  lemma AlikePubs(s: State, s': State)
    requires Alike(s, s')
    ensures s'.pubs == s.pubs
  {
  }

  lemma PubsRetryCall(s: State, t: nat)
    requires t in s.trs
    ensures RetryCall(s, t).pubs == s.pubs && Redirect(s, t).pubs == s.pubs
  {
    hide CallResend, FindTransaction;
    match FindTransaction(s.calls, t)
    case None =>
    case Some((i, jd)) =>
      var c := s.calls[i];
      var live := jd.Some? && c.dialogs[jd.value].leg != NoLeg;
      var s1 := if live then SetDialog(s, Call, i, jd.value, c.dialogs[jd.value].(retry := c.dialogs[jd.value].retry + 1))
                else SetContext(s, Call, i, c.(retry := c.retry + 1));
      CountedShape(s1, i, jd, c.out == Some(t));
      PubsCallResend(CountResend(s1, i, c.out == Some(t)), i, jd, t);
      PubsCallResend(s, i, jd, t);
  }

  lemma PubsRetrySubscribe(s: State, t: nat)
    requires t in s.trs
    ensures RetrySubscribe(s, t).pubs == s.pubs
  {
    hide Update, FindTransaction;
    PubsUpdate();
  }

  lemma PubsRequest(s: State, e: Step)
    requires e.DoRequestInDialog? || e.DoCancel?
    ensures Next(s, e).pubs == s.pubs
  {
    hide Update, FreeContext, Latest, LastOutInvite, LastIncInvite, Cancelled;
    PubsUpdate();
    PubsFreeContext();
  }

  lemma PubsResponse(s: State, e: Step)
    requires e.DoRespond?
    ensures Next(s, e).pubs == s.pubs
  {
    hide Update, FreeContext, FindRef, FindDialogRef, ResponseDialog;
    PubsUpdate();
    PubsFreeContext();
  }

  lemma PubsEnd(s: State, e: Step)
    requires e.DoAnswerSent? || e.DoKill?
    ensures Next(s, e).pubs == s.pubs
  {
    hide Update, FreeContext, FindRef, FindDialogRef;
    PubsUpdate();
    PubsFreeContext();
  }

  lemma PubsFirstNotify(s: State, i: nat, leg: Leg, valid: bool, over: bool)
    ensures Next(s, DoFirstNotify(i, leg, valid, over)).pubs == s.pubs
  {
    hide Update, NotifyForSubscription;
    assert i >= |s.subs| || leg == NoLeg ==> FirstNotify(s, i, leg, valid, over).pubs == s.pubs;
    if i < |s.subs| && leg != NoLeg { FirstNotifyFate(s, i, leg, valid, over); }
  }

  lemma ApartReplaced(s: State, p: nat)
    requires p < |s.pubs| && Apart(s.pubs)
    ensures Apart(ReplacePub(s, p).pubs) && Apart(Update(ReplacePub(s, p)).pubs)
  {
    hide Update, EqualNoCase;
    PubsUpdate();
    var ps := ReplacePub(s, p).pubs;
    assert |ps| == |s.pubs| && forall x :: 0 <= x < |ps| ==> ps[x].aor == s.pubs[x].aor;
  }

  lemma ApartStep(s: State, e: Step)
    requires Apart(s.pubs)
    ensures Apart(Next(s, e).pubs)
  {
    hide Apart, Publish, DefaultAction, Update, ReplacePub;
    match e
    case DoPublish(aor, period) => PublishFate(s, aor, period);
    case DoDefaultAction(owner, t) =>
      if owner != OfPublication { PubsRetry(s, owner, t); }
      else { ApartRetried(s, t); }
    case Tick(_) =>
    case DoSendOutside(_) =>
    case DoReject(_) =>
    case DoAckReceived(_) =>
    case DoReleaseTransaction(_) =>
    case _ => PubsOthers(s, e);
  }

  lemma ApartRetried(s: State, t: nat)
    requires Apart(s.pubs)
    ensures Apart(DefaultAction(s, OfPublication, t).pubs)
  {
    hide Apart, Update, ReplacePub;
    if FindPub(s.pubs, t).Some? { ApartReplaced(s, FindPub(s.pubs, t).value); }
  }

  lemma PubsOthers(s: State, e: Step)
    requires !e.DoPublish? && !e.DoDefaultAction? && !e.Tick? && !e.DoSendOutside? && !e.DoReject? && !e.DoAckReceived? && !e.DoReleaseTransaction?
    ensures Next(s, e).pubs == s.pubs
  {
    hide Next;
    if e.DoFirstNotify? { PubsFirstNotify(s, e.i, e.leg, e.valid, e.over); }
    else if e.DoRequestInDialog? || e.DoCancel? { PubsRequest(s, e); }
    else if e.DoRespond? { PubsResponse(s, e); }
    else if e.DoAnswerSent? || e.DoKill? { PubsEnd(s, e); }
    else if e.DoRefreshSubscription? || e.DoNewIncoming? || e.DoReleaseDialog? || e.DoReleaseCall? || e.DoDropTransaction? { PubsReleases(s, e); }
    else { PubsApi(s, e); }
  }

  /** After any run there is at most one publication for an address, compared without regard to case. */
  lemma {:induction false} OnePublication(now: int, es: seq<Step>)
    ensures Apart(Run(Init(now), es).pubs)
    decreases |es|
  {
    hide Next, Apart;
    if es == [] { assert Apart(Init(now).pubs) by { NonePublished(now); } }
    else {
      var n := |es| - 1;
      OnePublication(now, es[..n]);
      assert es == es[..n] + [es[n]];
      RunSnoc(Init(now), es[..n], es[n]);
      ApartStep(Run(Init(now), es[..n]), es[n]);
    }
  }

  lemma NonePublished(now: int)
    ensures Apart(Init(now).pubs)
  {
  }
}
