/** What a single step does to the records it is about, said from the state before it: which
    dialog or context changes and how, where the new transaction sits, and that every other
    record keeps its contents.  Ids are the business of ContextRetirement and ContextTheorems. */
module ContextFates {
  import opened Wrappers
  import opened Sequences
  import opened Text
  import opened Sip
  import opened ContextStore
  import opened ContextAccounting
  import opened ContextRuns
  import opened ContextInvariants
  import opened ContextSafety
  import opened ContextHistory
  import opened ContextRetirement
  import opened ContextTheorems
  import opened ContextCreation

  /** The records of `s'` are those of `s` but for ids. */
  ghost predicate Alike(s: State, s': State) {
    (forall k: Kind :: SameContexts(List(s, k), List(s', k))) && s'.pubs == s.pubs
  }

  /** One transaction was created; it sits in the garbage list exactly when `stray`. */
  predicate Created(s: State, s': State, tr: Transaction, stray: bool) {
    && s'.trs == s.trs[s.nextTid := tr] && s'.nextTid == s.nextTid + 1
    && s'.garbage == if stray then [s.nextTid] + s.garbage else s.garbage
  }

  /** The only change is that dialog `j` of record `i` becomes `d`, which has no leg and no id. */
  ghost predicate Ended(s: State, s': State, k: Kind, i: nat, j: nat, d: Dialog)
    requires HasDialog(s, k, i, j)
  {
    && d.leg == NoLeg && Alike(SetDialog(s, k, i, j, d), s')
    && HasDialog(s', k, i, j) && DialogAt(s', k, i, j) == d.(id := -1)
  }

  lemma AlikeUpdate(s: State)
    ensures Alike(s, Update(s)) && Update(s).trs == s.trs && Update(s).nextTid == s.nextTid && Update(s).garbage == s.garbage
  {
    hide Update;
    UpdateKeepsShape(s);
  }

  lemma AlikeSelf(s: State)
    ensures Alike(s, s)
  {
    forall k: Kind ensures SameContexts(List(s, k), List(s, k)) {
    }
  }

  /** Records that are equal are alike. */
  lemma AlikeEqual(s: State, t: State, s': State)
    requires Alike(t, s') && s.calls == t.calls && s.subs == t.subs && s.notifies == t.notifies && s.pubs == t.pubs
    ensures Alike(s, s')
  {
    forall k: Kind ensures List(s, k) == List(t, k) { match k case Call => case Subscription => case Notification => }
  }

  lemma DeadDialogs(ds: seq<Dialog>, id: int, j: nat)
    requires j < |ds| && ds[j].leg == NoLeg
    ensures |UpdateDialogs(ds, id).0| == |ds| && UpdateDialogs(ds, id).0[j].id == -1
  {
    UpdateDialogsShape(ds, id);
    var isNew := ds[0].leg != NoLeg && ds[0].id < 1;
    if j > 0 { DeadDialogs(ds[1..], if isNew then id + 1 else id, j - 1); }
  }

  lemma DeadContexts(cs: seq<Context>, id: int, i: nat, j: nat)
    requires i < |cs| && j < |cs[i].dialogs| && cs[i].dialogs[j].leg == NoLeg
    ensures var us := UpdateContexts(cs, id).0;
            |us| == |cs| && |us[i].dialogs| == |cs[i].dialogs| && us[i].dialogs[j].id == -1
  {
    UpdateContextsShape(cs, id);
    var id0 := if cs[0].id < 1 then id + 1 else id;
    if i == 0 { DeadDialogs(cs[0].dialogs, id0, j); }
    else { DeadContexts(cs[1..], UpdateDialogs(cs[0].dialogs, id0).1, i - 1, j); }
  }

  /** An update takes the id from a dialog without a leg. */
  lemma DeadLosesId(s: State, k: Kind, i: nat, j: nat)
    requires HasDialog(s, k, i, j) && DialogAt(s, k, i, j).leg == NoLeg
    ensures HasDialog(Update(s), k, i, j) && DialogAt(Update(s), k, i, j) == DialogAt(s, k, i, j).(id := -1)
  {
    AlikeUpdate(s);
    var id0 := if s.staticId > MAX_STATIC_ID then 1 else s.staticId;
    var id1 := UpdateContexts(s.calls, id0).1;
    var id2 := UpdateContexts(s.subs, id1).1;
    DeadContexts(List(s, k), match k case Call => id0 case Subscription => id1 case Notification => id2, i, j);
    assert SameContext(List(s, k)[i], List(Update(s), k)[i]);
    assert SameButIds(DialogAt(s, k, i, j), DialogAt(Update(s), k, i, j));
  }

  // ---------------------------------------------------------------- eXosip_call_terminate

  /** Nothing happens unless the last INVITE rings or the dialog is live.  While the last
      outgoing INVITE rings, one CANCEL goes out, outside of every dialog, and the dialog, when one
      was named, is dead.  Otherwise one BYE goes out in the dialog, which is dead. */
  lemma TerminateFate(s: State, cid: int, did: int)
    ensures var s' := Next(s, DoTerminate(cid, did));
            match EndingOf(s, cid, did)
            case Nothing => s' == s
            case Cancelling =>
              var (i, jd) := Addressed(s, cid, did).value;
              && Created(s, s', Transaction(CANCEL, false, Pending, 0, s.now, None), true)
              && s'.byes == s.byes && s'.hangups == s.hangups
              && (jd.None? ==> s'.calls == s.calls && Alike(s, s'))
              && (jd.Some? ==>
                    Ended(s, s', Call, i, jd.value, s.calls[i].dialogs[jd.value].(leg := NoLeg)))
            case Hanging =>
              var (i, jd) := Addressed(s, cid, did).value;
              jd.Some? &&
              var c, d := s.calls[i], s.calls[i].dialogs[jd.value];
              var d' := d.(leg := NoLeg, out := [s.nextTid] + d.out);
              && Created(s, s', Transaction(BYE, false, Pending, 0, s.now, Some(Jinfo(Call, c.ref, Some(d.ref)))), false)
              && s'.byes == [d.ref] + s.byes && s'.hangups == [d.ref] + s.hangups
              && Ended(s, s', Call, i, jd.value, d')
  {
    hide Update, UpdateDialogs, UpdateContexts, Alike, LastOutInvite, LastIncInvite, EndingOf, Provisional;
    EndingIs(s, cid, did);
    var at := Addressed(s, cid, did);
    if at.Some? {
      var (i, jd) := at.value;
      CancelFate(s, i, jd);
      if jd.Some? { ByeFate(s, i, jd.value); }
    }
  }

  lemma CancelFate(s: State, i: nat, jd: Option<nat>)
    requires i < |s.calls| && (jd.Some? ==> jd.value < |s.calls[i].dialogs|)
    ensures var s' := CancelCall(s, i, jd);
            && Created(s, s', Transaction(CANCEL, false, Pending, 0, s.now, None), true)
            && s'.byes == s.byes && s'.hangups == s.hangups
            && (jd.None? ==> s'.calls == s.calls && Alike(s, s'))
            && (jd.Some? ==>
                  Ended(s, s', Call, i, jd.value, s.calls[i].dialogs[jd.value].(leg := NoLeg)))
  {
    hide Update, UpdateDialogs, UpdateContexts, Alike;
    var s1 := Discard(Launch(s, Outgoing(s, CANCEL, None)), s.nextTid);
    AlikeSelf(s1);
    AlikeEqual(s, s1, s1);
    if jd.Some? {
      var s2 := ClearLeg(s1, Call, i, jd.value);
      AlikeUpdate(s2);
      UpdateKeepsShape(s2);
      DeadLosesId(s2, Call, i, jd.value);
      AlikeEqual(SetDialog(s, Call, i, jd.value, s.calls[i].dialogs[jd.value].(leg := NoLeg)), s2, Update(s2));
    }
  }

  lemma ByeFate(s: State, i: nat, j: nat)
    requires HasDialog(s, Call, i, j)
    ensures var s' := SendBye(s, i, j);
            var c, d := s.calls[i], s.calls[i].dialogs[j];
            var d' := d.(leg := NoLeg, out := [s.nextTid] + d.out);
            && Created(s, s', Transaction(BYE, false, Pending, 0, s.now, Some(Jinfo(Call, c.ref, Some(d.ref)))), false)
            && s'.byes == [d.ref] + s.byes && s'.hangups == [d.ref] + s.hangups
            && Ended(s, s', Call, i, j, d')
  {
    hide Update, UpdateDialogs, UpdateContexts, Alike;
    var d := s.calls[i].dialogs[j];
    var s2 := ClearLeg(SendInDialog(s, Call, i, j, BYE), Call, i, j).(hangups := [d.ref] + s.hangups);
    var d' := d.(leg := NoLeg, out := [s.nextTid] + d.out);
    SetTwice(s, i, j, d.(out := [s.nextTid] + d.out), d');
    AlikeUpdate(s2);
    UpdateKeepsShape(s2);
    DeadLosesId(s2, Call, i, j);
    AlikeEqual(SetDialog(s, Call, i, j, d'), s2, Update(s2));
  }

  lemma SetTwice(s: State, i: nat, j: nat, d: Dialog, d': Dialog)
    requires HasDialog(s, Call, i, j)
    ensures SetDialog(SetDialog(s, Call, i, j, d), Call, i, j, d') == SetDialog(s, Call, i, j, d')
  {
    var ds := s.calls[i].dialogs;
    assert ds[j := d][j := d'] == ds[j := d'];
    var c, c' := s.calls[i].(dialogs := ds[j := d]), s.calls[i].(dialogs := ds[j := d']);
    assert s.calls[i := c][i := c'] == s.calls[i := c'];
  }

  // ---------------------------------------------------------------- requests within a call

  /** No INVITE of the call is open, in either direction. */
  ghost predicate InvitesOver(trs: map<nat, Transaction>, c: Context, j: nat)
    requires j < |c.dialogs|
  {
    forall t: nat, incoming: bool :: LastInvite(trs, c, Some(j), incoming, t) && t in trs ==> trs[t].phase == Terminated
  }

  lemma InvitesOverIs(trs: map<nat, Transaction>, c: Context, j: nat)
    requires j < |c.dialogs|
    ensures InvitesOver(trs, c, j) <==>
              PhaseOf(trs, LastIncInvite(trs, c, Some(j))) == Terminated && PhaseOf(trs, LastOutInvite(trs, c, Some(j))) == Terminated
  {
    hide LastInvite, LastIncInvite, LastOutInvite;
    LastInviteIs(trs, c, Some(j));
    var i, o := LastIncInvite(trs, c, Some(j)), LastOutInvite(trs, c, Some(j));
    if i.Some? { assert LastInvite(trs, c, Some(j), true, i.value); }
    if o.Some? { assert LastInvite(trs, c, Some(j), false, o.value); }
  }

  /** The dialog of a call takes a request: no BYE went either way, the request is well formed
      and no SUBSCRIBE, and an INVITE finds none open. */
  ghost predicate Welcome(s: State, i: nat, j: nat, verb: Method, valid: bool)
    requires HasDialog(s, Call, i, j)
  {
    var d := s.calls[i].dialogs[j];
    && verb != BYE && verb != SUBSCRIBE && valid
    && NoneOf(s.trs, d.inc, BYE) && NoneOf(s.trs, d.out, BYE)
    && (verb == INVITE ==> InvitesOver(s.trs, s.calls[i], j))
  }

  /** Nothing but one dialog of one record changes, ids included. */
  predicate OnlyDialog(s: State, s': State, k: Kind, i: nat, j: nat, d: Dialog)
    requires HasDialog(s, k, i, j)
  {
    var t := SetDialog(s, k, i, j, d);
    s'.calls == t.calls && s'.subs == t.subs && s'.notifies == t.notifies && s'.pubs == s.pubs
  }

  lemma AcceptFate(s: State, k: Kind, i: nat, j: nat, verb: Method, withDialog: bool)
    requires HasDialog(s, k, i, j)
    ensures var s' := AcceptInDialog(s, k, i, j, verb, withDialog);
            var c, d := List(s, k)[i], DialogAt(s, k, i, j);
            && Created(s, s', Transaction(verb, true, Pending, 0, s.now, Some(Jinfo(k, c.ref, if withDialog then Some(d.ref) else None))), false)
            && OnlyDialog(s, s', k, i, j, d.(inc := [s.nextTid] + d.inc))
  {
  }

  lemma RejectFate(s: State, verb: Method)
    ensures var s' := Reject(s, verb);
            && Created(s, s', Transaction(verb, true, Pending, 0, s.now, None), true)
            && s'.calls == s.calls && s'.subs == s.subs && s'.notifies == s.notifies
  {
  }

  lemma RemoteByeFate(s: State, i: nat, j: nat)
    requires HasDialog(s, Call, i, j)
    ensures var s1 := AcceptInDialog(s, Call, i, j, BYE, false);
            HasDialog(s1, Call, i, j) &&
            var s' := Update(ClearLeg(s1, Call, i, j));
            var c, d := s.calls[i], s.calls[i].dialogs[j];
            && Created(s, s', Transaction(BYE, true, Pending, 0, s.now, Some(Jinfo(Call, c.ref, None))), false)
            && Ended(s, s', Call, i, j, d.(leg := NoLeg, inc := [s.nextTid] + d.inc))
  {
    hide Update, UpdateDialogs, UpdateContexts, Alike;
    var d := s.calls[i].dialogs[j];
    var s2 := ClearLeg(AcceptInDialog(s, Call, i, j, BYE, false), Call, i, j);
    var d' := d.(leg := NoLeg, inc := [s.nextTid] + d.inc);
    SetTwice(s, i, j, d.(inc := [s.nextTid] + d.inc), d');
    AlikeUpdate(s2);
    DeadLosesId(s2, Call, i, j);
    AlikeEqual(SetDialog(s, Call, i, j, d'), s2, Update(s2));
  }

  /** A request in a live dialog of a call creates one incoming transaction.  The first BYE ends
      the dialog, which keeps the transaction; a welcome request is kept by the dialog; any other
      is only kept until it ends. */
  lemma RequestFate(s: State, i: nat, j: nat, verb: Method, valid: bool, over: bool)
    requires HasDialog(s, Call, i, j) && s.calls[i].dialogs[j].leg != NoLeg
    ensures var s' := Next(s, DoRequestInDialog(Call, i, j, verb, valid, over));
            var c, d := s.calls[i], s.calls[i].dialogs[j];
            if verb == BYE && valid && NoneOf(s.trs, d.inc, BYE) then
              var d' := d.(leg := NoLeg, inc := [s.nextTid] + d.inc);
              && Created(s, s', Transaction(BYE, true, Pending, 0, s.now, Some(Jinfo(Call, c.ref, None))), false)
              && Ended(s, s', Call, i, j, d')
            else if Welcome(s, i, j, verb, valid) then
              && Created(s, s', Transaction(verb, true, Pending, 0, s.now, Some(Jinfo(Call, c.ref, Some(d.ref)))), false)
              && OnlyDialog(s, s', Call, i, j, d.(inc := [s.nextTid] + d.inc))
            else
              && Created(s, s', Transaction(verb, true, Pending, 0, s.now, None), true)
              && s'.calls == s.calls && s'.subs == s.subs && s'.notifies == s.notifies
  {
    hide Update, Ended, Latest, LastIncInvite, LastOutInvite, InvitesOver, NoneOf, AcceptInDialog, Reject, Created, OnlyDialog;
    AcceptFate(s, Call, i, j, verb, true);
    RejectFate(s, verb);
    var d := s.calls[i].dialogs[j];
    LatestIsNewest(s.trs, d.inc, BYE);
    LatestIsNewest(s.trs, d.out, BYE);
    InvitesOverIs(s.trs, s.calls[i], j);
    RemoteByeFate(s, i, j);
  }

  // ---------------------------------------------------------------- the id of an ended dialog

  lemma SameDialogsWeigh(as': seq<Dialog>, bs: seq<Dialog>, r: nat)
    requires SameDialogs(as', bs)
    ensures WeighDialogs(Alive(r), as') == WeighDialogs(Alive(r), bs)
  {
    if as' != [] {
      assert SameButIds(as'[0], bs[0]);
      SameDialogsWeigh(as'[1..], bs[1..], r);
    }
  }

  lemma SameContextsWeigh(as': seq<Context>, bs: seq<Context>, r: nat)
    requires SameContexts(as', bs)
    ensures WeighAll(Alive(r), as') == WeighAll(Alive(r), bs)
  {
    hide WeighDialogs;
    if as' != [] {
      assert SameContext(as'[0], bs[0]);
      SameDialogsWeigh(as'[0].dialogs, bs[0].dialogs, r);
      SameContextsWeigh(as'[1..], bs[1..], r);
    }
  }

  lemma AlikeWeighs(s: State, s': State, r: nat)
    requires Alike(s, s')
    ensures Total(Alive(r), s') == Total(Alive(r), s)
  {
    hide WeighAll, WeighPubs, WeighDialogs, SameContexts;
    assert SameContexts(List(s, Call), List(s', Call)) && SameContexts(List(s, Subscription), List(s', Subscription))
           && SameContexts(List(s, Notification), List(s', Notification));
    SameContextsWeigh(s.calls, s'.calls, r);
    SameContextsWeigh(s.subs, s'.subs, r);
    SameContextsWeigh(s.notifies, s'.notifies, r);
  }

  /** A live dialog that is ended is live nowhere. */
  lemma EndedIsDead(s: State, s': State, k: Kind, i: nat, j: nat, d: Dialog)
    requires Distinct(s) && HasDialog(s, k, i, j) && Ended(s, s', k, i, j, d)
    requires DialogAt(s, k, i, j).leg != NoLeg && d.ref == DialogAt(s, k, i, j).ref
    ensures Total(Alive(d.ref), s') == 0
  {
    hide Total, Alike;
    var m := Alive(d.ref);
    assert Total(m, s) <= 1;
    TotalSetDialog(m, s, k, i, j, d);
    AlikeWeighs(SetDialog(s, k, i, j, d), s', d.ref);
  }

  /** The id of a live dialog that eXosip_call_terminate ends, by CANCEL or by BYE, is found by no
      lookup in any continuation in which the counter does not start over. */
  lemma TerminatedIdUnknown(now: int, es: seq<Step>, cid: int, did: int, later: seq<Step>, k: Kind)
    requires var s := Run(Init(now), es);
             var s' := Next(s, DoTerminate(cid, did));
             && did > 0 && EndingOf(s, cid, did) != Nothing && !Run(s', later).wrapped
             && var (i, jd) := Addressed(s, cid, did).value; s.calls[i].dialogs[jd.value].leg != NoLeg
    ensures Unknown(Run(Next(Run(Init(now), es), DoTerminate(cid, did)), later), k, did)
  {
    hide Run, Next, Total, Distinct, EndingOf, Ended, Unknown, Created;
    var s, e := Run(Init(now), es), DoTerminate(cid, did);
    var (i, jd) := Addressed(s, cid, did).value;
    var d := s.calls[i].dialogs[jd.value];
    TerminateFate(s, cid, did);
    Reachable(now, es);
    EndedIsDead(s, Next(s, e), Call, i, jd.value,
      if EndingOf(s, cid, did) == Cancelling then d.(leg := NoLeg) else d.(leg := NoLeg, out := [s.nextTid] + d.out));
    LaterWrapped(now, es, e, later);
    DeathRetiresId(now, es, e, Call, i, jd.value, did);
  }

  lemma LaterWrapped(now: int, es: seq<Step>, e: Step, later: seq<Step>)
    requires !Run(Next(Run(Init(now), es), e), later).wrapped
    ensures !Next(Run(Init(now), es), e).wrapped
  {
    hide Total, Run, Next;
    RunSnoc(Init(now), es, e);
    Reachable(now, es + [e]);
    RunAccounts(Held(0), Next(Run(Init(now), es), e), later);
  }

  /** And so is the id of a live dialog whose remote party sends a first, well formed BYE. */
  lemma RemoteByeIdUnknown(now: int, es: seq<Step>, i: nat, j: nat, over: bool, later: seq<Step>, k: Kind)
    requires var s := Run(Init(now), es);
             && HasDialog(s, Call, i, j) && s.calls[i].dialogs[j].leg != NoLeg && s.calls[i].dialogs[j].id >= 1
             && NoneOf(s.trs, s.calls[i].dialogs[j].inc, BYE)
             && !Run(Next(s, DoRequestInDialog(Call, i, j, BYE, true, over)), later).wrapped
    ensures var s := Run(Init(now), es);
            Unknown(Run(Next(s, DoRequestInDialog(Call, i, j, BYE, true, over)), later), k, s.calls[i].dialogs[j].id)
  {
    hide Run, Next, Total, Distinct, Ended, Unknown, Created, NoneOf;
    var s, e := Run(Init(now), es), DoRequestInDialog(Call, i, j, BYE, true, over);
    var d := s.calls[i].dialogs[j];
    RequestFate(s, i, j, BYE, true, over);
    Reachable(now, es);
    EndedIsDead(s, Next(s, e), Call, i, j, d.(leg := NoLeg, inc := [s.nextTid] + d.inc));
    LaterWrapped(now, es, e, later);
    DeathRetiresId(now, es, e, Call, i, j, d.id);
  }
}
