/** Which steps leave the id of a dead dialog in use: only a 2xx that should replace a dialog
    and cannot. */
module ContextRetirement {
  import opened Wrappers
  import opened Sequences
  import opened Sip
  import opened ContextStore
  import opened ContextSafety

  // ---------------------------------------------------------------- ids after an update

  /** eXosip_update gives every context an id, and a dialog has one exactly when it is live. */
  predicate Identified(c: Context) {
    c.id >= 1 && forall j :: 0 <= j < |c.dialogs| ==> (c.dialogs[j].id >= 1 <==> c.dialogs[j].leg != NoLeg)
  }

  lemma UpdateIdentifiesDialogs(ds: seq<Dialog>, id: int)
    requires id >= 1
    ensures var r := UpdateDialogs(ds, id).0;
            forall j :: 0 <= j < |r| ==> (r[j].id >= 1 <==> r[j].leg != NoLeg) && (r[j].leg == NoLeg ==> r[j].id == -1)
  {
    if ds != [] {
      UpdateIdentifiesDialogs(ds[1..], if ds[0].leg != NoLeg && ds[0].id < 1 then id + 1 else id);
    }
  }

  lemma UpdateIdentifiesContexts(cs: seq<Context>, id: int)
    requires id >= 1
    ensures forall i :: 0 <= i < |UpdateContexts(cs, id).0| ==> Identified(UpdateContexts(cs, id).0[i])
  {
    if cs != [] {
      var id0 := if cs[0].id < 1 then id + 1 else id;
      UpdateIdentifiesDialogs(cs[0].dialogs, id0);
      UpdateDialogsShape(cs[0].dialogs, id0);
      UpdateIdentifiesContexts(cs[1..], UpdateDialogs(cs[0].dialogs, id0).1);
    }
  }

  lemma UpdateIdentifies(s: State, k: Kind, i: nat)
    requires s.staticId >= 1 && i < |List(s, k)|
    ensures |List(Update(s), k)| == |List(s, k)| && Identified(List(Update(s), k)[i])
  {
    UpdateKeepsShape(s);
    var id0 := if s.staticId > MAX_STATIC_ID then 1 else s.staticId;
    UpdateContextsShape(s.calls, id0);
    UpdateIdentifiesContexts(s.calls, id0);
    var id1 := UpdateContexts(s.calls, id0).1;
    UpdateContextsShape(s.subs, id1);
    UpdateIdentifiesContexts(s.subs, id1);
    var id2 := UpdateContexts(s.subs, id1).1;
    UpdateIdentifiesContexts(s.notifies, id2);
    assert SameContexts(List(s, k), List(Update(s), k));
  }

  // ---------------------------------------------------------------- no dead dialog has the id

  predicate TidyList(cs: seq<Context>, n: int) {
    forall i, j :: 0 <= i < |cs| && 0 <= j < |cs[i].dialogs| && cs[i].dialogs[j].id == n ==> cs[i].dialogs[j].leg != NoLeg
  }

  predicate Tidy(s: State, n: int) {
    TidyList(s.calls, n) && TidyList(s.subs, n) && TidyList(s.notifies, n)
  }

  lemma TidyUpdate(s: State, n: int)
    requires s.staticId >= 1 && n >= 1
    ensures Tidy(Update(s), n) && Update(s).staticId >= 1
  {
    hide Update;
    var u := Update(s);
    UpdateKeepsShape(s);
    forall k: Kind ensures TidyList(List(u, k), n) {
      assert SameContexts(List(s, k), List(u, k));
      forall i, j | 0 <= i < |List(u, k)| && 0 <= j < |List(u, k)[i].dialogs| && List(u, k)[i].dialogs[j].id == n
        ensures List(u, k)[i].dialogs[j].leg != NoLeg
      {
        UpdateIdentifies(s, k, i);
      }
    }
    assert TidyList(List(u, Call), n) && TidyList(List(u, Subscription), n) && TidyList(List(u, Notification), n);
    CounterAfterUpdate(s);
  }

  lemma CounterAfterUpdate(s: State)
    requires s.staticId >= 1
    ensures Update(s).staticId >= 1
  {
    var id0 := if s.staticId > MAX_STATIC_ID then 1 else s.staticId;
    UpdateContextsShape(s.calls, id0);
    var id1 := UpdateContexts(s.calls, id0).1;
    UpdateContextsShape(s.subs, id1);
    UpdateContextsShape(s.notifies, UpdateContexts(s.subs, id1).1);
  }

  /** Nothing but transactions and lists of numbers changes. */
  lemma TidySame(s: State, s': State, n: int)
    requires Tidy(s, n) && s'.calls == s.calls && s'.subs == s.subs && s'.notifies == s.notifies
    ensures Tidy(s', n)
  {
  }

  lemma TidySetContext(s: State, k: Kind, i: nat, c: Context, n: int)
    requires Tidy(s, n) && i < |List(s, k)| && TidyList([c], n)
    ensures Tidy(SetContext(s, k, i, c), n)
  {
    var cs := List(s, k)[i := c];
    forall x, j | 0 <= x < |cs| && 0 <= j < |cs[x].dialogs| && cs[x].dialogs[j].id == n ensures cs[x].dialogs[j].leg != NoLeg {
      if x == i { assert [c][0].dialogs[j].id == n; }
    }
  }

  lemma TidyContext(s: State, k: Kind, i: nat, n: int)
    requires Tidy(s, n) && i < |List(s, k)|
    ensures TidyList([List(s, k)[i]], n)
  {
  }

  lemma TidySetDialog(s: State, k: Kind, i: nat, j: nat, d: Dialog, n: int)
    requires Tidy(s, n) && HasDialog(s, k, i, j) && (d.id == n ==> d.leg != NoLeg)
    ensures Tidy(SetDialog(s, k, i, j, d), n)
  {
    TidyContext(s, k, i, n);
    var c := List(s, k)[i];
    var ds := c.dialogs[j := d];
    assert TidyList([c.(dialogs := ds)], n) by {
      forall y | 0 <= y < |ds| && ds[y].id == n ensures ds[y].leg != NoLeg {
        if y != j { assert [c][0].dialogs[y].id == n; }
      }
    }
    TidySetContext(s, k, i, c.(dialogs := ds), n);
  }

  lemma TidyAddContext(s: State, k: Kind, c: Context, n: int)
    requires Tidy(s, n) && TidyList([c], n)
    ensures Tidy(AddContext(s, k, c), n)
  {
    var cs := [c] + List(s, k);
    forall x, j | 0 <= x < |cs| && 0 <= j < |cs[x].dialogs| && cs[x].dialogs[j].id == n ensures cs[x].dialogs[j].leg != NoLeg {
      if x == 0 { assert [c][0].dialogs[j].id == n; } else { assert cs[x] == List(s, k)[x - 1]; }
    }
  }

  lemma TidyRemoveContext(s: State, k: Kind, i: nat, n: int)
    requires Tidy(s, n) && i < |List(s, k)|
    ensures Tidy(RemoveContext(s, k, i), n)
  {
    var cs := Without(List(s, k), i);
    forall x, j | 0 <= x < |cs| && 0 <= j < |cs[x].dialogs| && cs[x].dialogs[j].id == n ensures cs[x].dialogs[j].leg != NoLeg {
      assert cs[x] == List(s, k)[if x < i then x else x + 1];
    }
  }

  lemma TidyFreeDialogs(s: State, ds: seq<Dialog>, n: int)
    requires s.staticId >= 1 && n >= 1 && Tidy(s, n)
    ensures Tidy(FreeDialogs(s, ds), n)
    decreases |ds|
  {
    hide Update, Tidy;
    if ds != [] {
      TidyUpdate(s.(garbage := Reversed(ds[0].out) + Reversed(ds[0].inc) + s.garbage,
                    trs := ForgetAll(s.trs, ds[0].inc + ds[0].out)), n);
      TidyFreeDialogs(FreeDialog(s, ds[0]), ds[1..], n);
    }
  }

  lemma TidyFreeContext(s: State, k: Kind, i: nat, n: int)
    requires s.staticId >= 1 && n >= 1 && Tidy(s, n) && i < |List(s, k)|
    ensures Tidy(FreeContext(s, k, i), n)
  {
    hide Tidy, FreeDialogs;
    var c := List(s, k)[i];
    TidyRemoveContext(s, k, i, n);
    var s1 := FreeDialogs(RemoveContext(s, k, i), c.dialogs);
    TidyFreeDialogs(RemoveContext(s, k, i), c.dialogs, n);
    TidySame(s1, DiscardSlot(s1, c.inc), n);
    TidySame(DiscardSlot(s1, c.inc), DiscardSlot(DiscardSlot(s1, c.inc), c.out), n);
  }

  lemma TidyInDialog(s: State, k: Kind, i: nat, j: nat, verb: Method, tr: Transaction, n: int)
    requires Tidy(s, n) && HasDialog(s, k, i, j)
    ensures Tidy(SendInDialog(s, k, i, j, verb), n) && Tidy(Receive(s, k, i, j, tr), n)
  {
    hide Tidy;
    var c, d := List(s, k)[i], DialogAt(s, k, i, j);
    var s1 := Launch(s, Outgoing(s, verb, Some(Jinfo(k, c.ref, Some(d.ref)))));
    TidySame(s, s1, n);
    TidySame(s, Launch(s, tr), n);
    assert d.id == n ==> d.leg != NoLeg by { TidyDialog(s, k, i, j, n); }
    TidySetDialog(s1, k, i, j, d.(out := [s.nextTid] + d.out), n);
    TidySame(SetDialog(s1, k, i, j, d.(out := [s.nextTid] + d.out)), SendInDialog(s, k, i, j, verb), n);
    TidySetDialog(Launch(s, tr), k, i, j, d.(inc := [s.nextTid] + d.inc), n);
  }

  lemma TidyDialog(s: State, k: Kind, i: nat, j: nat, n: int)
    requires Tidy(s, n) && HasDialog(s, k, i, j)
    ensures DialogAt(s, k, i, j).id == n ==> DialogAt(s, k, i, j).leg != NoLeg
  {
  }

  // ---------------------------------------------------------------- every step

  /** A 2xx to an INVITE that comes from another party than the dialog on record, and from which
      no dialog can be built: cb_rcv2xx_4invite frees d_dialog and returns without an update.
      `n` is the id of the dialog. */
  predicate FailedReplacement(s: State, e: Step, n: int) {
    && e.DoRespond? && 200 <= e.code < 300 && !e.facts.sameTag && !e.facts.dialogOk
    && e.tid in s.trs && !s.trs[e.tid].incoming && s.trs[e.tid].phase == Pending && s.trs[e.tid].verb == INVITE
    && s.trs[e.tid].jinfo.Some? && s.trs[e.tid].jinfo.value.dialog.Some?
    && var ji := s.trs[e.tid].jinfo.value;
       match FindRef(List(s, ji.kind), ji.ctx)
       case None => false
       case Some(i) =>
         var ds := List(s, ji.kind)[i].dialogs;
         match FindDialogRef(ds, ji.dialog.value)
         case None => false
         case Some(j) => ds[j].id == n && ds[j].leg != NoLeg
  }

  lemma TidyTerminate(s: State, cid: int, did: int, n: int)
    requires s.staticId >= 1 && n >= 1 && Tidy(s, n)
    ensures Tidy(Terminate(s, cid, did), n)
  {
    hide Update, Tidy, FindDialog, FindContext, LastOutInvite, LastIncInvite;
    var s1 := Discard(Launch(s, Outgoing(s, CANCEL, None)), s.nextTid);
    TidySame(s, s1, n);
    match if did > 0 then FindDialog(s.calls, did) else None
    case None =>
    case Some((i, j)) =>
      TidyUpdate(ClearLeg(s1, Call, i, j), n);
      var s2 := ClearLeg(SendInDialog(s, Call, i, j, BYE), Call, i, j);
      TidyUpdate(s2.(hangups := [s.calls[i].dialogs[j].ref] + s.hangups), n);
  }

  lemma TidyApiRequests(s: State, did: int, verb: Method, n: int)
    requires Tidy(s, n)
    ensures Tidy(CallSendRequest(s, did, verb), n) && Tidy(NotifySendRequest(s, did, verb), n) && Tidy(SendRefresh(s, did), n)
  {
    hide Tidy, FindDialog, FindSubscription, MaySend, Latest, SendInDialog;
    var tr := Incoming(s, verb, None);
    var p, q := FindDialog(s.calls, did), FindDialog(s.notifies, did);
    if p.Some? { TidyInDialog(s, Call, p.value.0, p.value.1, verb, tr, n); }
    if q.Some? { TidyInDialog(s, Notification, q.value.0, q.value.1, verb, tr, n); }
    match FindSubscription(s.subs, did)
    case Some((i, Some(j))) => TidyInDialog(s, Subscription, i, j, SUBSCRIBE, tr, n);
    case _ =>
  }

  /** A resend ends with an update, or does nothing. */
  lemma TidyCallResend(s: State, i: nat, jd: Option<nat>, t: nat, n: int)
    requires s.staticId >= 1 && n >= 1
    requires i < |s.calls| && (jd.Some? ==> jd.value < |s.calls[i].dialogs|) && t in s.trs
    ensures s.calls[i].out == Some(t) || jd.Some? ==> Tidy(CallResend(s, i, jd, t), n)
    ensures s.calls[i].out != Some(t) && jd.None? ==> CallResend(s, i, jd, t) == s
  {
    hide Update, Tidy, DropDialog, SendInDialog;
    var c := s.calls[i];
    if c.out == Some(t) {
      var s1 := Discard(Launch(s, Outgoing(s, s.trs[t].verb, Some(Jinfo(Call, c.ref, None)))), t);
      var s2 := SetContext(s1, Call, i, c.(out := Some(s.nextTid)));
      if jd.Some? {
        DropKeepsCounter(s2, i, jd.value);
        TidyUpdate(DropDialog(s2, Call, i, jd.value), n);
      } else {
        TidyUpdate(s2, n);
      }
    } else if jd.Some? {
      SendKeepsCounter(s, Call, i, jd.value, s.trs[t].verb);
      TidyUpdate(SendInDialog(s, Call, i, jd.value, s.trs[t].verb), n);
    }
  }

  lemma DropKeepsCounter(s: State, i: nat, j: nat)
    requires s.staticId >= 1 && HasDialog(s, Call, i, j)
    ensures DropDialog(s, Call, i, j).staticId >= 1
  {
    hide Update;
    var s1, d := RemoveDialog(s, Call, i, j), DialogAt(s, Call, i, j);
    CounterAfterUpdate(s1.(garbage := Reversed(d.out) + Reversed(d.inc) + s1.garbage, trs := ForgetAll(s1.trs, d.inc + d.out)));
  }

  lemma SendKeepsCounter(s: State, k: Kind, i: nat, j: nat, verb: Method)
    requires HasDialog(s, k, i, j)
    ensures SendInDialog(s, k, i, j, verb).staticId == s.staticId
  {
  }

  lemma TidySubscribeResend(s: State, i: nat, jd: Option<nat>, t: nat, n: int)
    requires s.staticId >= 1 && n >= 1
    requires i < |s.subs| && (jd.Some? ==> jd.value < |s.subs[i].dialogs|) && t in s.trs
    ensures s.subs[i].out == Some(t) || jd.Some? ==> Tidy(SubscribeResend(s, i, jd, t), n)
    ensures s.subs[i].out != Some(t) && jd.None? ==> SubscribeResend(s, i, jd, t) == s
  {
    hide Update, Tidy, SendInDialog;
    var c := s.subs[i];
    if c.out == Some(t) {
      var ref := if jd.Some? then Some(c.dialogs[jd.value].ref) else None;
      var tr := Outgoing(s, s.trs[t].verb, Some(Jinfo(Subscription, c.ref, ref)));
      TidyUpdate(SetContext(Discard(Launch(s, tr), t), Subscription, i, c.(out := Some(s.nextTid))), n);
    } else if jd.Some? {
      SendKeepsCounter(s, Subscription, i, jd.value, s.trs[t].verb);
      TidyUpdate(SendInDialog(s, Subscription, i, jd.value, s.trs[t].verb), n);
    }
  }

  /** Counters of the record at position `i` change, nothing else. */
  lemma TidyRecount(s: State, k: Kind, i: nat, retry: int, resent: int, success: bool, n: int)
    requires Tidy(s, n) && i < |List(s, k)|
    ensures Tidy(SetContext(s, k, i, List(s, k)[i].(retry := retry, resent := resent, success := success)), n)
  {
    hide Tidy;
    var c := List(s, k)[i];
    var c' := c.(retry := retry, resent := resent, success := success);
    TidyContext(s, k, i, n);
    assert TidyList([c'], n) by {
      forall j | 0 <= j < |c'.dialogs| && c'.dialogs[j].id == n ensures c'.dialogs[j].leg != NoLeg { assert [c][0].dialogs[j].id == n; }
    }
    TidySetContext(s, k, i, c', n);
  }

  lemma TidyRetryCall(s: State, t: nat, n: int)
    requires s.staticId >= 1 && n >= 1 && Tidy(s, n) && t in s.trs
    ensures Tidy(RetryCall(s, t), n)
  {
    hide Tidy, CallResend, FindTransaction;
    match FindTransaction(s.calls, t)
    case None =>
    case Some((i, jd)) =>
      var c := s.calls[i];
      if jd.Some? && c.dialogs[jd.value].leg != NoLeg {
        var s1 := SetDialog(s, Call, i, jd.value, c.dialogs[jd.value].(retry := c.dialogs[jd.value].retry + 1));
        TidyCallResend(CountResend(s1, i, c.out == Some(t)), i, jd, t, n);
      } else {
        var s1 := SetContext(s, Call, i, c.(retry := c.retry + 1));
        var s2 := CountResend(s1, i, c.out == Some(t));
        TidyRecount(s, Call, i, c.retry + 1, c.resent, c.success, n);
        TidyRecount(s1, Call, i, c.retry + 1, c.resent + 1, c.success, n);
        TidyCallResend(s2, i, jd, t, n);
      }
  }

  lemma TidyRetrySubscribe(s: State, t: nat, n: int)
    requires s.staticId >= 1 && n >= 1 && Tidy(s, n) && t in s.trs
    ensures Tidy(RetrySubscribe(s, t), n)
  {
    hide Tidy, SubscribeResend, FindTransaction;
    match FindTransaction(s.subs, t)
    case None =>
    case Some((i, jd)) =>
      var c := s.subs[i];
      if jd.Some? && c.dialogs[jd.value].leg != NoLeg {
        var d := c.dialogs[jd.value];
        TidySubscribeResend(SetDialog(s, Subscription, i, jd.value, d.(retry := d.retry + 1)), i, jd, t, n);
      } else {
        TidyRecount(s, Subscription, i, c.retry + 1, c.resent, c.success, n);
        TidySubscribeResend(SetContext(s, Subscription, i, c.(retry := c.retry + 1)), i, jd, t, n);
      }
  }

  lemma TidyRedirect(s: State, t: nat, n: int)
    requires s.staticId >= 1 && n >= 1 && Tidy(s, n) && t in s.trs
    ensures Tidy(Redirect(s, t), n)
  {
    hide Tidy, CallResend, FindTransaction;
    match FindTransaction(s.calls, t)
    case None =>
    case Some((i, jd)) => TidyCallResend(s, i, jd, t, n);
  }

  lemma TidyRetryNotify(s: State, t: nat, n: int)
    requires s.staticId >= 1 && n >= 1 && Tidy(s, n) && t in s.trs
    ensures Tidy(RetryNotify(s, t), n)
  {
    hide Tidy, Update, FindTransaction, SendInDialog;
    match FindTransaction(s.notifies, t)
    case Some((i, Some(j))) =>
      SendKeepsCounter(s, Notification, i, j, s.trs[t].verb);
      TidyUpdate(SendInDialog(s, Notification, i, j, s.trs[t].verb), n);
    case _ =>
  }

  lemma TidyRetryOthers(s: State, t: nat, n: int)
    requires s.staticId >= 1 && n >= 1 && Tidy(s, n) && t in s.trs
    ensures Tidy(RetryPublish(s, t), n) && Tidy(RetryOutside(s, t), n)
  {
    hide Tidy, Update, FindPub;
    TidyUpdate(Discard(Launch(s, Outgoing(s, s.trs[t].verb, None)), s.nextTid), n);
    if FindPub(s.pubs, t).Some? { TidyUpdate(ReplacePub(s, FindPub(s.pubs, t).value), n); }
  }

  lemma TidyDefaultAction(s: State, owner: Owner, t: nat, n: int)
    requires s.staticId >= 1 && n >= 1 && Tidy(s, n)
    ensures Tidy(DefaultAction(s, owner, t), n)
  {
    hide Tidy, RetryCall, RetrySubscribe, RetryNotify, RetryPublish, RetryOutside, Redirect;
    if t in s.trs {
      TidyRetryCall(s, t, n);
      TidyRetrySubscribe(s, t, n);
      TidyRetryNotify(s, t, n);
      TidyRetryOthers(s, t, n);
      TidyRedirect(s, t, n);
    }
  }

  lemma TidyRefreshSubscription(s: State, i: nat, j: nat, n: int)
    requires s.staticId >= 1 && n >= 1 && Tidy(s, n)
    ensures Tidy(RefreshSubscription(s, i, j), n)
  {
    hide Tidy, SubscribeResend;
    if HasDialog(s, Subscription, i, j) {
      var t := if s.subs[i].dialogs[j].out != [] then Some(s.subs[i].dialogs[j].out[0]) else s.subs[i].out;
      if t.Some? && t.value in s.trs { TidySubscribeResend(s, i, Some(j), t.value, n); }
    }
  }

  lemma SweepKeepsLists(s: State, ps: seq<Publication>)
    ensures var r := Sweep(s, ps); r.calls == s.calls && r.subs == s.subs && r.notifies == s.notifies
    decreases |ps|
  {
    if ps != [] {
      if s.now - ps[0].expires > 60 {
        SweepKeepsLists(if ps[0].last.Some? then Discard(s, ps[0].last.value) else s, ps[1..]);
      } else {
        SweepKeepsLists(s, ps[1..]);
      }
    }
  }

  lemma TidyPublish(s: State, aor: string, period: int, n: int)
    requires Tidy(s, n)
    ensures Tidy(Publish(s, aor, period), n)
  {
    hide Tidy, Sweep, FindAor;
    SweepKeepsLists(s, s.pubs);
    TidySame(s, Publish(s, aor, period), n);
  }

  lemma TidyNewIncoming(s: State, k: Kind, ok: bool, n: int)
    requires s.staticId >= 1 && n >= 1 && Tidy(s, n)
    ensures Tidy(NewIncoming(s, k, ok), n)
  {
    hide Tidy, Update;
    forall s1: State | s1.staticId >= 1 ensures Tidy(Update(s1), n) { TidyUpdate(s1, n); }
    var s1 := Discard(Launch(s, Incoming(s, if k == Call then INVITE else SUBSCRIBE, None)), s.nextTid);
    TidySame(s, s1, n);
    var c := Context(s.nextRef, -1, [], None, None, 0, 0, false);
    TidyAddContext(s1, Call, c, n);
    TidySame(AddContext(s1, Call, c), AddContext(s1, Call, c).(nextRef := s.nextRef + 1), n);
  }

  lemma TidyAnswer(s: State, k: Kind, t: nat, code: nat, n: int)
    requires s.staticId >= 1 && n >= 1 && Tidy(s, n)
    ensures Tidy(Answer(s, k, t, code), n)
  {
    hide Tidy, Update, FindTransaction;
    forall s1: State | s1.staticId >= 1 ensures Tidy(Update(s1), n) { TidyUpdate(s1, n); }
  }

  lemma TidyRequestInCall(s: State, i: nat, j: nat, verb: Method, valid: bool, n: int)
    requires s.staticId >= 1 && n >= 1 && Tidy(s, n) && HasDialog(s, Call, i, j)
    ensures Tidy(RequestInCall(s, i, j, verb, valid), n)
  {
    hide Tidy, Update, Latest, LastIncInvite, LastOutInvite;
    var c, d := s.calls[i], s.calls[i].dialogs[j];
    TidySame(s, Reject(s, verb), n);
    TidyInDialog(s, Call, i, j, verb, Incoming(s, verb, Some(Jinfo(Call, c.ref, Some(d.ref)))), n);
    TidyUpdate(ClearLeg(AcceptInDialog(s, Call, i, j, BYE, false), Call, i, j), n);
  }

  lemma TidyNotifyForSubscription(s: State, i: nat, j: nat, valid: bool, over: bool, n: int)
    requires s.staticId >= 1 && n >= 1 && Tidy(s, n) && HasDialog(s, Subscription, i, j)
    ensures Tidy(NotifyForSubscription(s, i, j, valid, over), n)
  {
    hide Tidy, FreeContext;
    var c, d := s.subs[i], s.subs[i].dialogs[j];
    TidySame(s, Reject(s, NOTIFY), n);
    TidyFreeContext(Reject(s, NOTIFY), Subscription, i, n);
    TidyInDialog(s, Subscription, i, j, NOTIFY, Incoming(s, NOTIFY, Some(Jinfo(Subscription, c.ref, Some(d.ref)))), n);
  }

  lemma TidyRequestInDialog(s: State, k: Kind, i: nat, j: nat, verb: Method, valid: bool, over: bool, n: int)
    requires s.staticId >= 1 && n >= 1 && Tidy(s, n)
    ensures Tidy(RequestInDialog(s, k, i, j, verb, valid, over), n)
  {
    hide Tidy, RequestInCall, NotifyForSubscription, Receive, Latest;
    TidySame(s, Reject(s, verb), n);
    if HasDialog(s, k, i, j) {
      var c, d := List(s, k)[i], DialogAt(s, k, i, j);
      match k
      case Call => TidyRequestInCall(s, i, j, verb, valid, n);
      case Subscription => TidyNotifyForSubscription(s, i, j, valid, over, n);
      case Notification =>
        TidyInDialog(s, k, i, j, verb, Incoming(s, SUBSCRIBE, Some(Jinfo(k, c.ref, Some(d.ref)))), n);
    }
  }

  lemma TidyFirstNotify(s: State, i: nat, leg: Leg, valid: bool, over: bool, n: int)
    requires s.staticId >= 1 && n >= 1 && Tidy(s, n)
    ensures Tidy(FirstNotify(s, i, leg, valid, over), n)
  {
    hide Tidy, Update, NotifyForSubscription;
    TidySame(s, Lose(Launch(s, Incoming(s, NOTIFY, None)), s.nextTid), n);
    if i < |s.subs| && leg != NoLeg {
      var s1 := AddDialog(s, Subscription, i, leg);
      UpdateKeepsShape(s1);
      assert SameContexts(List(s1, Subscription), List(Update(s1), Subscription));
      assert SameContext(s1.subs[i], Update(s1).subs[i]);
      TidyUpdate(s1, n);
      TidyNotifyForSubscription(Update(s1), i, 0, valid, over, n);
    }
  }

  lemma TidyCancel(s: State, target: Target, ok: bool, ok487: bool, n: int)
    requires Tidy(s, n)
    ensures Tidy(ProcessCancel(s, target, ok, ok487), n)
  {
    hide Tidy, Receive, Cancelled;
    var tr := Incoming(s, CANCEL, None);
    var lost := Lose(Launch(s, tr), s.nextTid);
    TidySame(s, lost, n);
    TidySame(s, Reject(s, CANCEL), n);
    match Cancelled(s, target)
    case None =>
    case Some((i, t, jd)) =>
      if jd.Some? { TidyInDialog(s, Call, i, jd.value, BYE, tr, n); }
      var kept := KeepCancel(s, i, jd);
      TidySame(kept, Double(kept, t), n);
      TidySame(lost, Double(lost, t), n);
  }

  lemma TidyOnFailure(s: State, t: nat, i: nat, ji: Jinfo, n: int)
    requires s.staticId >= 1 && n >= 1 && Tidy(s, n) && t in s.trs && i < |List(s, ji.kind)|
    ensures Tidy(OnFailure(s, t, i, ji), n)
  {
    hide Tidy, Update, FindDialogRef;
    forall s1: State | s1.staticId >= 1 ensures Tidy(Update(s1), n) { TidyUpdate(s1, n); }
  }

  lemma TidyOnProvisional(s: State, t: nat, i: nat, ji: Jinfo, code: nat, f: Facts, n: int)
    requires s.staticId >= 1 && n >= 1 && Tidy(s, n) && t in s.trs && i < |List(s, ji.kind)|
    ensures Tidy(OnProvisional(s, t, i, ji, code, f), n)
  {
    hide Tidy, Update, ResponseDialog;
    forall s1: State | s1.staticId >= 1 ensures Tidy(Update(s1), n) { TidyUpdate(s1, n); }
    var j := ResponseDialog(List(s, ji.kind)[i], ji, s.trs[t].verb, f);
    if j.Some? { TidySame(s, SetJinfo(s, t, Some(ji.(dialog := Some(DialogAt(s, ji.kind, i, j.value).ref)))), n); }
  }

  lemma TidyResetRetries(s: State, i: nat, ji: Jinfo, n: int)
    requires Tidy(s, n) && i < |List(s, ji.kind)|
    ensures Tidy(ResetRetries(s, i, ji), n)
  {
    hide Tidy, FindDialogRef;
    var c, c' := List(s, ji.kind)[i], List(ResetRetries(s, i, ji), ji.kind)[i];
    TidyContext(s, ji.kind, i, n);
    assert TidyList([c'], n) by {
      forall j | 0 <= j < |c'.dialogs| && c'.dialogs[j].id == n ensures c'.dialogs[j].leg != NoLeg { assert [c][0].dialogs[j].id == n; }
    }
    TidySetContext(s, ji.kind, i, c', n);
  }

  /** `bad` is the case of FailedReplacement, seen from cb_rcv2xx. */
  lemma TidyOnSuccess(s: State, t: nat, i: nat, ji: Jinfo, f: Facts, n: int)
    requires s.staticId >= 1 && n >= 1 && Tidy(s, n) && t in s.trs && i < |List(s, ji.kind)|
    requires s.trs[t].verb == INVITE && !f.sameTag && !f.dialogOk && ji.dialog.Some? ==>
               var ds := List(s, ji.kind)[i].dialogs;
               match FindDialogRef(ds, ji.dialog.value)
               case None => true
               case Some(j) => ds[j].id != n || ds[j].leg == NoLeg
    ensures Tidy(OnSuccess(s, t, i, ji, f), n)
  {
    hide Tidy, Update, FreeContext, FindDialogRef;
    var verb, s1 := s.trs[t].verb, ResetRetries(s, i, ji);
    TidyResetRetries(s, i, ji, n);
    forall s2: State | s2.staticId >= 1 ensures Tidy(Update(s2), n) { TidyUpdate(s2, n); }
    TidyFreeContext(s1, ji.kind, i, n);
    FindRecounted(List(s, ji.kind)[i].dialogs, List(s1, ji.kind)[i].dialogs, ji);
    var jd := ResponseDialog(List(s1, ji.kind)[i], ji, verb, f);
    if OpensDialog(verb) && jd.Some? {
      var d := DialogAt(s1, ji.kind, i, jd.value);
      var leg := ConfirmedBy(d.leg, verb, f);
      TidyDialog(s1, ji.kind, i, jd.value, n);
      TidySetDialog(s1, ji.kind, i, jd.value, d.(leg := leg), n);
      var s2 := SetDialog(s1, ji.kind, i, jd.value, d.(leg := leg));
      TidySame(s2, SetJinfo(s2, t, Some(ji.(dialog := Some(d.ref)))), n);
    }
  }

  lemma TidyRespond(s: State, t: nat, code: nat, f: Facts, n: int)
    requires s.staticId >= 1 && n >= 1 && Tidy(s, n) && !FailedReplacement(s, DoRespond(t, code, f), n)
    ensures Tidy(Respond(s, t, code, f), n)
  {
    hide Tidy, OnProvisional, OnSuccess, OnFailure, FindRef, FindDialogRef;
    if t in s.trs && !s.trs[t].incoming && s.trs[t].phase == Pending && 100 <= code < 700 {
      var s1 := SetProgress(s, t, ClientPhase(s.trs[t].verb, code), code);
      TidySame(s, s1, n);
      if s.trs[t].jinfo.Some? {
        var ji := s.trs[t].jinfo.value;
        match FindRef(List(s1, ji.kind), ji.ctx)
        case None =>
        case Some(i) =>
          if code < 200 { TidyOnProvisional(s1, t, i, ji, code, f, n); }
          else if code < 300 { TidyOnSuccess(s1, t, i, ji, f, n); }
          else { TidyOnFailure(s1, t, i, ji, n); }
      }
    }
  }

  lemma TidyAnswerSent(s: State, t: nat, code: nat, n: int)
    requires s.staticId >= 1 && n >= 1 && Tidy(s, n)
    ensures Tidy(AnswerSent(s, t, code), n)
  {
    hide Tidy, OnFailure, FindRef;
    if t in s.trs && 100 <= code < 700 {
      var s1 := SetProgress(s, t, ClientPhase(s.trs[t].verb, code), code);
      TidySame(s, s1, n);
      if s.trs[t].jinfo.Some? {
        var ji := s.trs[t].jinfo.value;
        var i := FindRef(List(s1, ji.kind), ji.ctx);
        if i.Some? { TidyOnFailure(s1, t, i.value, ji, n); }
      }
    }
  }

  lemma TidyKill(s: State, t: nat, f: Facts, n: int)
    requires s.staticId >= 1 && n >= 1 && Tidy(s, n)
    ensures Tidy(Kill(s, t, f), n)
  {
    hide Tidy, FreeContext, FindRef;
    if t in s.trs {
      var s1 := SetProgress(s, t, Terminated, s.trs[t].response);
      TidySame(s, s1, n);
      if s.trs[t].jinfo.Some? {
        var ji := s.trs[t].jinfo.value;
        var i := FindRef(List(s1, ji.kind), ji.ctx);
        if i.Some? { TidyFreeContext(s1, ji.kind, i.value, n); }
      }
    }
  }

  lemma TidyReleaseDialog(s: State, i: nat, j: nat, n: int)
    requires s.staticId >= 1 && n >= 1 && Tidy(s, n)
    ensures Tidy(ReleaseDialog(s, i, j), n)
  {
    hide Tidy, Update;
    forall s1: State | s1.staticId >= 1 ensures Tidy(Update(s1), n) { TidyUpdate(s1, n); }
  }

  lemma TidyDropTransaction(s: State, i: nat, t: nat, n: int)
    requires Tidy(s, n)
    ensures Tidy(DropTransaction(s, i, t), n)
  {
    hide Tidy, HolderOf, Removed;
    if i < |s.calls| {
      match HolderOf(s.calls[i].dialogs, t)
      case None =>
      case Some(j) =>
        var d := s.calls[i].dialogs[j];
        var d1 := if t in d.inc then d.(inc := Removed(d.inc, t)) else d.(out := Removed(d.out, t));
        TidyDialog(s, Call, i, j, n);
        TidySetDialog(s, Call, i, j, d1, n);
        TidySame(SetDialog(s, Call, i, j, d1), Discard(SetDialog(s, Call, i, j, d1), t), n);
    }
  }

  /** Only a failed replacement leaves a dead dialog with its id. */
  lemma TidyStep(s: State, e: Step, n: int)
    requires s.staticId >= 1 && n >= 1 && Tidy(s, n) && !FailedReplacement(s, e, n)
    ensures Tidy(Next(s, e), n)
  {
    hide Tidy, Update, CallSendRequest, NotifySendRequest, SendRefresh, Terminate,
         DefaultAction, RefreshSubscription, Publish, Answer, NewIncoming, ProcessCancel, RequestInDialog, FirstNotify,
         Respond, AnswerSent, Kill, ReleaseDialog, FreeContext, DropTransaction, FailedReplacement;
    match e
    case Tick(_) => TidySame(s, Next(s, e), n);
    case DoSendInitialInvite =>
      TidyUpdate(AddContext(Launch(s, Outgoing(s, INVITE, Some(Jinfo(Call, s.nextRef, None)))), Call,
                            Context(s.nextRef, -1, [], None, Some(s.nextTid), 0, 0, false)).(nextRef := s.nextRef + 1), n);
    case DoCallSendRequest(did, verb) => TidyApiRequests(s, did, verb, n);
    case DoTerminate(cid, did) => TidyTerminate(s, cid, did, n);
    case DoDefaultAction(owner, t) => TidyDefaultAction(s, owner, t, n);
    case DoSendInitialSubscribe =>
      TidyUpdate(AddContext(Launch(s, Outgoing(s, SUBSCRIBE, Some(Jinfo(Subscription, s.nextRef, None)))), Subscription,
                            Context(s.nextRef, 0, [], None, Some(s.nextTid), 0, 0, false)).(nextRef := s.nextRef + 1), n);
    case DoSendRefresh(did) => TidyApiRequests(s, did, SUBSCRIBE, n);
    case DoRefreshSubscription(i, j) => TidyRefreshSubscription(s, i, j, n);
    case DoNotifySendRequest(did, verb) => TidyApiRequests(s, did, verb, n);
    case DoPublish(aor, period) => TidyPublish(s, aor, period, n);
    case DoSendOutside(_) => TidySame(s, Next(s, e), n);
    case DoAnswer(k, t, code) => TidyAnswer(s, k, t, code, n);
    case DoNewIncoming(k, ok) => TidyNewIncoming(s, k, ok, n);
    case DoReject(_) => TidySame(s, Next(s, e), n);
    case DoCancel(target, ok, ok487) => TidyCancel(s, target, ok, ok487, n);
    case DoRequestInDialog(k, i, j, verb, valid, over) => TidyRequestInDialog(s, k, i, j, verb, valid, over, n);
    case DoFirstNotify(i, leg, valid, over) => TidyFirstNotify(s, i, leg, valid, over, n);
    case DoRespond(t, code, f) => TidyRespond(s, t, code, f, n);
    case DoAnswerSent(t, code) => TidyAnswerSent(s, t, code, n);
    case DoAckReceived(_) => TidySame(s, Next(s, e), n);
    case DoKill(t, f) => TidyKill(s, t, f, n);
    case DoReleaseDialog(i, j) => TidyReleaseDialog(s, i, j, n);
    case DoReleaseCall(i) => if i < |s.calls| { TidyFreeContext(s, Call, i, n); }
    case DoDropTransaction(i, t) => TidyDropTransaction(s, i, t, n);
    case DoReleaseTransaction(_) => TidySame(s, Next(s, e), n);
  }
}
