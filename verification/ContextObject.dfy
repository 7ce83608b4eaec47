/** The context store as the library runs it: one object whose lists are searched and changed
    in place.  `Handle` takes any step of ContextStore, and `RunAll` promises of the object what
    ContextTheorems proves of runs. */
module ContextObject {
  import opened Wrappers
  import opened Sequences
  import opened Text
  import opened Sip
  import opened ContextStore
  import opened ContextAccounting
  import opened ContextInvariants
  import opened ContextHistory
  import opened ContextTheorems
  import opened ContextCreation
  import opened ContextPublications

  // ---------------------------------------------------------------- searches

  /** eXosip_call_find */
  method FindById(cs: seq<Context>, id: int) returns (r: Option<nat>)
    ensures r == FindContext(cs, id)
  {
    var i := 0;
    while i < |cs|
      invariant 0 <= i <= |cs|
      invariant FindContext(cs, id) == match FindContext(cs[i..], id) case None => None case Some(n) => Some(i + n)
    {
      if cs[i].id == id { return Some(i); }
      i := i + 1;
    }
    return None;
  }

  method FindInDialogs(ds: seq<Dialog>, id: int) returns (r: Option<nat>)
    ensures r == FindDialogId(ds, id)
  {
    var j := 0;
    while j < |ds|
      invariant 0 <= j <= |ds|
      invariant FindDialogId(ds, id) == match FindDialogId(ds[j..], id) case None => None case Some(n) => Some(j + n)
    {
      if ds[j].id == id { return Some(j); }
      j := j + 1;
    }
    return None;
  }

  /** eXosip_call_dialog_find, eXosip_notify_dialog_find */
  method FindDialogById(cs: seq<Context>, id: int) returns (r: Option<(nat, nat)>)
    ensures r == FindDialog(cs, id)
  {
    hide FindDialogId;
    var i := 0;
    while i < |cs|
      invariant 0 <= i <= |cs|
      invariant FindDialog(cs, id) == match FindDialog(cs[i..], id) case None => None case Some(p) => Some((i + p.0, p.1))
    {
      assert cs[i..][0] == cs[i] && cs[i..][1..] == cs[i + 1..];
      var j := FindInDialogs(cs[i].dialogs, id);
      if j.Some? { return Some((i, j.value)); }
      i := i + 1;
    }
    return None;
  }

  /** eXosip_subscribe_dialog_find */
  method FindSubscriptionById(cs: seq<Context>, id: int) returns (r: Option<(nat, Option<nat>)>)
    ensures r == FindSubscription(cs, id)
  {
    hide FindDialogId;
    var i := 0;
    while i < |cs|
      invariant 0 <= i <= |cs|
      invariant FindSubscription(cs, id)
                == match FindSubscription(cs[i..], id) case None => None case Some(p) => Some((i + p.0, p.1))
    {
      assert cs[i..][0] == cs[i] && cs[i..][1..] == cs[i + 1..];
      if cs[i].id == id { return Some((i, None)); }
      var j := FindInDialogs(cs[i].dialogs, id);
      if j.Some? { return Some((i, j)); }
      i := i + 1;
    }
    return None;
  }

  method FindHolder(ds: seq<Dialog>, t: nat) returns (r: Option<nat>)
    ensures r == HolderOf(ds, t)
  {
    var j := 0;
    while j < |ds|
      invariant 0 <= j <= |ds|
      invariant HolderOf(ds, t) == match HolderOf(ds[j..], t) case None => None case Some(n) => Some(j + n)
    {
      if t in ds[j].inc || t in ds[j].out { return Some(j); }
      j := j + 1;
    }
    return None;
  }

  /** _eXosip_call_transaction_find, _eXosip_subscribe_transaction_find, _eXosip_insubscription_transaction_find */
  method TransactionFind(cs: seq<Context>, t: nat) returns (r: Option<(nat, Option<nat>)>)
    ensures r == FindTransaction(cs, t)
  {
    hide HolderOf;
    var i := 0;
    while i < |cs|
      invariant 0 <= i <= |cs|
      invariant FindTransaction(cs, t)
                == match FindTransaction(cs[i..], t) case None => None case Some(p) => Some((i + p.0, p.1))
    {
      assert cs[i..][0] == cs[i] && cs[i..][1..] == cs[i + 1..];
      if cs[i].inc == Some(t) || cs[i].out == Some(t) {
        return Some((i, if cs[i].dialogs == [] then None else Some(0)));
      }
      var j := FindHolder(cs[i].dialogs, t);
      if j.Some? { return Some((i, j)); }
      i := i + 1;
    }
    return None;
  }

  /** eXosip_find_last_out_transaction and its neighbours */
  method FindLast(trs: map<nat, Transaction>, ts: seq<nat>, verb: Method) returns (r: Option<nat>)
    ensures r == Latest(trs, ts, verb)
  {
    var pos := 0;
    while pos < |ts|
      invariant 0 <= pos <= |ts|
      invariant Latest(trs, ts, verb) == Latest(trs, ts[pos..], verb)
    {
      if ts[pos] in trs && trs[ts[pos]].verb == verb { return Some(ts[pos]); }
      pos := pos + 1;
    }
    return None;
  }

  // ---------------------------------------------------------------- ids

  /** The dialog as eXosip_update leaves it, when `id` is the next free one. */
  function Numbered(d: Dialog, id: int): Dialog {
    d.(id := if d.leg == NoLeg then -1 else if d.id < 1 then id else d.id)
  }

  lemma UpdateDialogsFrom(done: seq<Dialog>, ds: seq<Dialog>, j: nat, id: int)
    requires j < |ds|
    ensures var id' := if ds[j].leg != NoLeg && ds[j].id < 1 then id + 1 else id;
            && done + UpdateDialogs(ds[j..], id).0 == (done + [Numbered(ds[j], id)]) + UpdateDialogs(ds[j + 1..], id').0
            && UpdateDialogs(ds[j..], id).1 == UpdateDialogs(ds[j + 1..], id').1
  {
    assert ds[j..][0] == ds[j] && ds[j..][1..] == ds[j + 1..];
  }

  lemma NoDialogs(done: seq<Dialog>, id: int)
    ensures done + UpdateDialogs([], id).0 == done && UpdateDialogs([], id).1 == id
  {
  }

  /** One list of dialogs in eXosip_update. */
  method NumberDialogs(ds: seq<Dialog>, id: int) returns (r: seq<Dialog>, next: int)
    ensures (r, next) == UpdateDialogs(ds, id)
  {
    hide UpdateDialogs;
    r, next := ds, id;
    ghost var u := UpdateDialogs(ds, id);
    var j := 0;
    assert ds[0..] == ds && r[..0] + u.0 == u.0;
    while j < |r|
      invariant 0 <= j <= |r| == |ds| && forall k :: j <= k < |r| ==> r[k] == ds[k]
      invariant u.0 == r[..j] + UpdateDialogs(ds[j..], next).0 && u.1 == UpdateDialogs(ds[j..], next).1
    {
      ghost var before := r[..j];
      UpdateDialogsFrom(before, ds, j, next);
      if r[j].leg != NoLeg {
        if r[j].id < 1 {
          r := r[j := r[j].(id := next)];
          next := next + 1;
        }
      } else {
        r := r[j := r[j].(id := -1)];
      }
      assert r[..j + 1] == before + [r[j]];
      j := j + 1;
    }
    assert ds[j..] == [] && r[..j] == r;
    NoDialogs(r, next);
  }

  lemma UpdateContextsFrom(done: seq<Context>, cs: seq<Context>, i: nat, id: int)
    requires i < |cs|
    ensures var isNew := cs[i].id < 1;
            var (ds, id') := UpdateDialogs(cs[i].dialogs, if isNew then id + 1 else id);
            var c := cs[i].(id := if isNew then id else cs[i].id, dialogs := ds);
            && done + UpdateContexts(cs[i..], id).0 == (done + [c]) + UpdateContexts(cs[i + 1..], id').0
            && UpdateContexts(cs[i..], id).1 == UpdateContexts(cs[i + 1..], id').1
  {
    hide UpdateDialogs;
    assert cs[i..][0] == cs[i] && cs[i..][1..] == cs[i + 1..];
  }

  lemma NoContexts(done: seq<Context>, id: int)
    ensures done + UpdateContexts([], id).0 == done && UpdateContexts([], id).1 == id
  {
  }

  /** One list of contexts in eXosip_update. */
  method NumberContexts(cs: seq<Context>, id: int) returns (r: seq<Context>, next: int)
    ensures (r, next) == UpdateContexts(cs, id)
  {
    hide UpdateContexts, UpdateDialogs;
    r, next := cs, id;
    ghost var u := UpdateContexts(cs, id);
    var i := 0;
    assert cs[0..] == cs && r[..0] + u.0 == u.0;
    while i < |r|
      invariant 0 <= i <= |r| == |cs| && forall k :: i <= k < |r| ==> r[k] == cs[k]
      invariant u.0 == r[..i] + UpdateContexts(cs[i..], next).0 && u.1 == UpdateContexts(cs[i..], next).1
    {
      ghost var before := r[..i];
      UpdateContextsFrom(before, cs, i, next);
      if r[i].id < 1 {
        r := r[i := r[i].(id := next)];
        next := next + 1;
      }
      var ds;
      ds, next := NumberDialogs(r[i].dialogs, next);
      r := r[i := r[i].(dialogs := ds)];
      assert r[..i + 1] == before + [r[i]];
      i := i + 1;
    }
    assert cs[i..] == [] && r[..i] == r;
    NoContexts(r, next);
  }

  lemma ReversedSnoc(ts: seq<nat>, t: nat)
    ensures Reversed(ts + [t]) == [t] + Reversed(ts)
  {
    if ts == [] { assert ts + [t] == [t] && [t][1..] == []; }
    else {
      assert (ts + [t])[1..] == ts[1..] + [t];
      ReversedSnoc(ts[1..], t);
    }
  }

  lemma UpdateInTurn(s: State, calls: seq<Context>, id1: int, subs: seq<Context>, id2: int, notifies: seq<Context>, id3: int)
    requires (calls, id1) == UpdateContexts(s.calls, if s.staticId > MAX_STATIC_ID then 1 else s.staticId)
    requires (subs, id2) == UpdateContexts(s.subs, id1) && (notifies, id3) == UpdateContexts(s.notifies, id2)
    ensures Update(s) == s.(calls := calls, subs := subs, notifies := notifies, staticId := id3,
                            wrapped := s.wrapped || s.staticId > MAX_STATIC_ID)
  {
    hide UpdateContexts;
  }

  predicate ByApplication(e: Step) {
    || e.DoSendInitialInvite? || e.DoCallSendRequest? || e.DoTerminate? || e.DoDefaultAction? || e.DoSendInitialSubscribe?
    || e.DoSendRefresh? || e.DoRefreshSubscription? || e.DoNotifySendRequest? || e.DoPublish? || e.DoSendOutside? || e.DoAnswer?
  }

  predicate ByNetwork(e: Step) {
    e.DoNewIncoming? || e.DoReject? || e.DoCancel? || e.DoRequestInDialog? || e.DoFirstNotify?
  }

  class Store {
    var calls: seq<Context>
    var subs: seq<Context>
    var notifies: seq<Context>
    var pubs: seq<Publication>
    var garbage: seq<nat>
    var released: seq<nat>
    var trs: map<nat, Transaction>
    var nextTid: nat
    var nextRef: nat
    var staticId: int
    var wrapped: bool
    var hangups: seq<nat>
    var byes: seq<nat>
    var doubles: seq<nat>
    var lost: seq<nat>
    var now: int

    function View(): State
      reads this
    {
      State(calls, subs, notifies, pubs, garbage, released, trs, nextTid, nextRef, staticId, wrapped,
            hangups, byes, doubles, lost, now)
    }

    constructor (now: int)
      ensures View() == Init(now)
    {
      calls, subs, notifies, pubs, garbage, released := [], [], [], [], [], [];
      trs, nextTid, nextRef, staticId, wrapped := map[], 1, 0, 1, false;
      hangups, byes, doubles, lost := [], [], [], [];
      this.now := now;
    }

    method SetList(k: Kind, cs: seq<Context>)
      modifies this`calls, this`subs, this`notifies
      ensures View() == WithList(old(View()), k, cs)
    {
      match k
      case Call => calls := cs;
      case Subscription => subs := cs;
      case Notification => notifies := cs;
    }

    /** eXosip_update */
    method UpdateIds()
      modifies this`calls, this`subs, this`notifies, this`staticId, this`wrapped
      ensures View() == Update(old(View()))
    {
      hide Update, UpdateContexts;
      ghost var s := View();
      if staticId > MAX_STATIC_ID {
        staticId := 1;
        wrapped := true;
      }
      calls, staticId := NumberContexts(calls, staticId);
      ghost var id1 := staticId;
      subs, staticId := NumberContexts(subs, staticId);
      ghost var id2 := staticId;
      notifies, staticId := NumberContexts(notifies, staticId);
      UpdateInTurn(s, calls, id1, subs, id2, notifies, staticId);
    }

    /** Empties one list of transactions into j_transactions. */
    method Drain(list: seq<nat>)
      modifies this`garbage, this`trs
      ensures garbage == Reversed(list) + old(garbage)
      ensures trs == ForgetAll(old(trs), list)
    {
      var ts := list;
      ghost var n := 0;
      while ts != []
        invariant 0 <= n <= |list| && ts == list[n..]
        invariant garbage == Reversed(list[..n]) + old(garbage)
        invariant trs == ForgetAll(old(trs), list[..n])
        decreases |ts|
      {
        var t := ts[0];
        ts := ts[1..];
        assert list[..n + 1] == list[..n] + [t];
        ReversedSnoc(list[..n], t);
        if t in trs { trs := trs[t := trs[t].(jinfo := None)]; }
        garbage := [t] + garbage;
        n := n + 1;
      }
      assert list[..n] == list;
    }

    /** eXosip_dialog_free */
    method DialogFree(d: Dialog)
      modifies this
      ensures View() == FreeDialog(old(View()), d)
    {
      Drain(d.inc);
      Drain(d.out);
      assert trs == ForgetAll(old(trs), d.inc + d.out);
      assert garbage == Reversed(d.out) + Reversed(d.inc) + old(garbage);
      UpdateIds();
    }

    method DiscardIn(slot: Option<nat>)
      modifies this
      ensures View() == DiscardSlot(old(View()), slot)
    {
      if slot.Some? {
        if slot.value in trs { trs := trs[slot.value := trs[slot.value].(jinfo := None)]; }
        garbage := [slot.value] + garbage;
      }
    }

    /** REMOVE_ELEMENT, then eXosip_call_free, eXosip_subscribe_free or eXosip_notify_free */
    method ContextFree(k: Kind, i: nat)
      requires i < |List(View(), k)|
      modifies this
      ensures View() == FreeContext(old(View()), k, i)
    {
      hide FreeDialog, DiscardSlot;
      var c := List(View(), k)[i];
      SetList(k, Without(List(View(), k), i));
      ghost var s := View();
      var ds := c.dialogs;
      while ds != []
        invariant FreeDialogs(s, c.dialogs) == FreeDialogs(View(), ds)
        decreases |ds|
      {
        var d := ds[0];
        ds := ds[1..];
        DialogFree(d);
      }
      DiscardIn(c.inc);
      DiscardIn(c.out);
    }

    method PutDialog(k: Kind, i: nat, j: nat, d: Dialog)
      requires HasDialog(View(), k, i, j)
      modifies this`calls, this`subs, this`notifies
      ensures View() == SetDialog(old(View()), k, i, j, d)
    {
      var cs := List(View(), k);
      SetList(k, cs[i := cs[i].(dialogs := cs[i].dialogs[j := d])]);
    }

    /** osip_transaction_init */
    method NewTransaction(tr: Transaction) returns (t: nat)
      modifies this`trs, this`nextTid
      ensures View() == Launch(old(View()), tr) && t == old(nextTid)
    {
      t := nextTid;
      trs := trs[t := tr];
      nextTid := nextTid + 1;
    }

    // ---------------------------------------------------------------- calls

    /** eXosip_call_send_initial_invite */
    method CallSendInitialInvite()
      modifies this
      ensures View() == SendInitialInvite(old(View()))
    {
      hide Update, AddContext, Launch;
      var c := Context(nextRef, -1, [], None, Some(nextTid), 0, 0, false);
      NewWith(Call, c, Outgoing(View(), INVITE, Some(Jinfo(Call, nextRef, None))), 1);
      UpdateIds();
    }

    /** Prepends a new request to the list of a dialog. */
    method SendIn(k: Kind, i: nat, j: nat, verb: Method)
      requires HasDialog(View(), k, i, j)
      modifies this
      ensures View() == SendInDialog(old(View()), k, i, j, verb)
    {
      var c := List(View(), k)[i];
      var d := c.dialogs[j];
      var t := NewTransaction(Outgoing(View(), verb, Some(Jinfo(k, c.ref, Some(d.ref)))));
      PutDialog(k, i, j, d.(out := [t] + d.out));
      if verb == BYE { byes := [d.ref] + byes; }
    }

    /** eXosip_call_send_request */
    method CallSend(did: int, verb: Method)
      modifies this
      ensures View() == CallSendRequest(old(View()), did, verb)
    {
      if did <= 0 { return; }
      var p := FindDialogById(calls, did);
      if p.None? { return; }
      var (i, j) := p.value;
      var c, d := calls[i], calls[i].dialogs[j];
      var inc := FindLast(trs, d.inc, verb);
      var out := FindLast(trs, d.out, verb);
      var last;
      if verb == INVITE {
        last := Younger(trs, OrElse(inc, c.inc), OrElse(out, c.out));
        var phase := PhaseOf(trs, last);
        if phase != Terminated && phase != Confirmed
           && !(phase == Completed && last.Some? && last.value in trs && !trs[last.value].incoming) { return; }
      } else {
        last := Younger(trs, inc, out);
        var phase := PhaseOf(trs, last);
        if phase != Terminated && phase != Completed { return; }
      }
      SendIn(Call, i, j, verb);
    }

    /** eXosip_create_cancel_transaction, then the dialog is dropped */
    method Cancel(i: nat, jd: Option<nat>)
      requires i < |calls| && (jd.Some? ==> jd.value < |calls[i].dialogs|)
      modifies this
      ensures View() == CancelCall(old(View()), i, jd)
    {
      hide Update;
      var t := NewTransaction(Outgoing(View(), CANCEL, None));
      garbage := [t] + garbage;
      if jd.Some? {
        PutDialog(Call, i, jd.value, calls[i].dialogs[jd.value].(leg := NoLeg));
        UpdateIds();
      }
    }

    method HangUp(i: nat, j: nat)
      requires HasDialog(View(), Call, i, j)
      modifies this
      ensures View() == SendBye(old(View()), i, j)
    {
      hide Update;
      var ref := calls[i].dialogs[j].ref;
      SendIn(Call, i, j, BYE);
      PutDialog(Call, i, j, calls[i].dialogs[j].(leg := NoLeg));
      hangups := [ref] + hangups;
      UpdateIds();
    }

    /** eXosip_call_terminate, once the call and the dialog are known */
    method TerminateCall(i: nat, jd: Option<nat>)
      requires i < |calls| && (jd.Some? ==> jd.value < |calls[i].dialogs|)
      modifies this
      ensures View() == TerminateAt(old(View()), i, jd)
    {
      hide CancelCall, SendBye;
      var c := calls[i];
      var out, inc := None, None;
      if jd.Some? {
        out := FindLast(trs, c.dialogs[jd.value].out, INVITE);
        inc := FindLast(trs, c.dialogs[jd.value].inc, INVITE);
      }
      out, inc := OrElse(out, c.out), OrElse(inc, c.inc);
      if Provisional(trs, out) {
        Cancel(i, jd);
      } else if jd.Some? && c.dialogs[jd.value].leg != NoLeg {
        if out.None? && Provisional(trs, inc) { return; }
        HangUp(i, jd.value);
      }
    }

    /** eXosip_call_terminate */
    method CallTerminate(cid: int, did: int)
      modifies this
      ensures View() == Terminate(old(View()), cid, did)
    {
      hide TerminateAt;
      if did > 0 {
        var p := FindDialogById(calls, did);
        if p.Some? { TerminateCall(p.value.0, Some(p.value.1)); }
      } else {
        var i := FindById(calls, cid);
        if i.Some? { TerminateCall(i.value, None); }
      }
    }

    /** _eXosip_call_send_request_with_credential, _eXosip_call_redirect_request */
    method Resend(i: nat, jd: Option<nat>, t: nat)
      requires i < |calls| && (jd.Some? ==> jd.value < |calls[i].dialogs|) && t in trs
      modifies this
      ensures View() == CallResend(old(View()), i, jd, t)
    {
      hide Update, FreeDialog, SendInDialog;
      var c := calls[i];
      var verb := trs[t].verb;
      if c.out == Some(t) {
        var t1 := NewTransaction(Outgoing(View(), verb, Some(Jinfo(Call, c.ref, None))));
        garbage := [t] + garbage;
        calls := calls[i := c.(out := Some(t1))];
        if jd.Some? {
          var d := c.dialogs[jd.value];
          calls := calls[i := calls[i].(dialogs := Without(calls[i].dialogs, jd.value))];
          DialogFree(d);
        }
        UpdateIds();
      } else if jd.Some? {
        SendIn(Call, i, jd.value, verb);
        UpdateIds();
      }
    }

    /** _eXosip_retry_invite_with_auth */
    method RetryInvite(t: nat)
      requires t in trs
      modifies this
      ensures View() == RetryCall(old(View()), t)
    {
      hide CallResend;
      var p := TransactionFind(calls, t);
      if p.None? { return; }
      var (i, jd) := p.value;
      var initial := calls[i].out == Some(t);
      if jd.Some? && calls[i].dialogs[jd.value].leg != NoLeg {
        var d := calls[i].dialogs[jd.value];
        if d.retry >= MAX_RETRY { return; }
        PutDialog(Call, i, jd.value, d.(retry := d.retry + 1));
      } else {
        if calls[i].retry >= MAX_RETRY { return; }
        calls := calls[i := calls[i].(retry := calls[i].retry + 1)];
      }
      if initial { calls := calls[i := calls[i].(resent := calls[i].resent + 1)]; }
      Resend(i, jd, t);
    }

    /** eXosip_delete_early_dialog */
    method DeleteEarlyDialog(k: Kind, i: nat, jd: Option<nat>)
      requires i < |List(View(), k)| && (jd.Some? ==> jd.value < |List(View(), k)[i].dialogs|)
      modifies this
      ensures View() == DeleteEarly(old(View()), k, i, jd)
    {
      hide Update;
      if jd.Some? {
        var d := List(View(), k)[i].dialogs[jd.value];
        if d.leg == EarlyLeg {
          PutDialog(k, i, jd.value, d.(leg := NoLeg));
          UpdateIds();
        }
      }
    }

    // ---------------------------------------------------------------- subscriptions and publications

    /** _eXosip_subscribe_send_request_with_credential */
    method ResendSubscribe(i: nat, jd: Option<nat>, t: nat)
      requires i < |subs| && (jd.Some? ==> jd.value < |subs[i].dialogs|) && t in trs
      modifies this
      ensures View() == SubscribeResend(old(View()), i, jd, t)
    {
      hide Update, SendInDialog;
      var c := subs[i];
      if c.out == Some(t) {
        var ref := if jd.Some? then Some(c.dialogs[jd.value].ref) else None;
        var t1 := NewTransaction(Outgoing(View(), trs[t].verb, Some(Jinfo(Subscription, c.ref, ref))));
        garbage := [t] + garbage;
        subs := subs[i := c.(out := Some(t1))];
        UpdateIds();
      } else if jd.Some? {
        SendIn(Subscription, i, jd.value, trs[t].verb);
        UpdateIds();
      }
    }

    /** The sweep of _eXosip_pub_find_by_aor. */
    method SweepPublications()
      modifies this`pubs, this`garbage
      ensures View() == Sweep(old(View()), old(pubs))
    {
      hide Sweep;
      SweepIsSwept(View(), pubs);
      pubs, garbage := SweepLists(now, pubs, garbage);
    }

    /** eXosip_publish, for a message with an Expires header */
    method SendPublish(aor: string, period: int)
      modifies this
      ensures View() == Publish(old(View()), aor, period)
    {
      SweepPublications();
      var p := FindByAor(pubs, aor);
      if p.None? {
        pubs := [Publication(aor, now + period, None)] + pubs;
        p := Some(0);
      }
      ReplaceLast(p.value);
    }

    /** The new transaction of a publication takes the place of the last one. */
    method ReplaceLast(p: nat)
      requires p < |pubs|
      modifies this
      ensures View() == ReplacePub(old(View()), p)
    {
      var last := pubs[p].last;
      var t := NewTransaction(Outgoing(View(), PUBLISH, None));
      if last.Some? { garbage := [last.value] + garbage; }
      pubs := pubs[p := pubs[p].(last := Some(t))];
    }

    // ---------------------------------------------------------------- callbacks

    /** eXosip_dialog_init_as_uac for the response to `t` */
    method NewDialog(t: nat, i: nat, ji: Jinfo, leg: Leg)
      requires i < |List(View(), ji.kind)|
      modifies this
      ensures View() == StartDialog(old(View()), t, i, ji, leg)
    {
      hide Update;
      var cs, ref := List(View(), ji.kind), nextRef;
      SetList(ji.kind, cs[i := cs[i].(dialogs := [Dialog(ref, -1, leg, [], [], 0)] + cs[i].dialogs)]);
      nextRef := nextRef + 1;
      if t in trs { trs := trs[t := trs[t].(jinfo := Some(ji.(dialog := Some(ref))))]; }
      UpdateIds();
    }

    /** cb_rcv1xx */
    method Rcv1xx(t: nat, i: nat, ji: Jinfo, code: nat, f: Facts)
      requires t in trs && i < |List(View(), ji.kind)|
      modifies this
      ensures View() == OnProvisional(old(View()), t, i, ji, code, f)
    {
      hide StartDialog;
      if !OpensDialog(trs[t].verb) || code == 100 { return; }
      var c := List(View(), ji.kind)[i];
      var j := ResponseDialog(c, ji, trs[t].verb, f);
      if j.Some? {
        trs := trs[t := trs[t].(jinfo := Some(ji.(dialog := Some(c.dialogs[j.value].ref))))];
      } else if f.dialogOk && ji.dialog.None? {
        NewDialog(t, i, ji, EarlyLeg);
      }
    }

    /** The counters that cb_rcv2xx resets. */
    method ClearRetries(i: nat, ji: Jinfo)
      requires i < |List(View(), ji.kind)|
      modifies this`calls, this`subs, this`notifies
      ensures View() == ResetRetries(old(View()), i, ji)
    {
      var cs := List(View(), ji.kind);
      var c := cs[i];
      var jd := if ji.dialog.Some? then FindDialogRef(c.dialogs, ji.dialog.value) else None;
      if jd.Some? { c := c.(dialogs := c.dialogs[jd.value := c.dialogs[jd.value].(retry := 0)]); }
      if ji.kind != Notification { c := c.(retry := 0, resent := 0, success := true); }
      SetList(ji.kind, cs[i := c]);
    }

    /** cb_rcv2xx */
    method Rcv2xx(t: nat, i: nat, ji: Jinfo, f: Facts)
      requires t in trs && i < |List(View(), ji.kind)|
      modifies this
      ensures View() == OnSuccess(old(View()), t, i, ji, f)
    {
      hide StartDialog, FreeContext, ResponseDialog;
      var verb := trs[t].verb;
      ClearRetries(i, ji);
      if OpensDialog(verb) {
        var c := List(View(), ji.kind)[i];
        var j := ResponseDialog(c, ji, verb, f);
        if j.Some? {
          var d := c.dialogs[j.value];
          PutDialog(ji.kind, i, j.value, d.(leg := ConfirmedBy(d.leg, verb, f)));
          trs := trs[t := trs[t].(jinfo := Some(ji.(dialog := Some(d.ref))))];
        } else if f.dialogOk && ji.dialog.None? {
          NewDialog(t, i, ji, ConfirmedLeg);
        }
      } else if verb == NOTIFY && ji.kind == Notification && f.over {
        ContextFree(Notification, i);
      }
    }

    /** cb_rcv3xx to cb_rcv6xx */
    method RcvFailure(t: nat, i: nat, ji: Jinfo)
      requires t in trs && i < |List(View(), ji.kind)|
      modifies this
      ensures View() == OnFailure(old(View()), t, i, ji)
    {
      hide DeleteEarly;
      if OpensDialog(trs[t].verb) && ji.dialog.Some? {
        DeleteEarlyDialog(ji.kind, i, FindDialogRef(List(View(), ji.kind)[i].dialogs, ji.dialog.value));
      }
    }

    /** The oSIP stack hands over a response. */
    method ReceiveResponse(t: nat, code: nat, f: Facts)
      modifies this
      ensures View() == Respond(old(View()), t, code, f)
    {
      hide OnProvisional, OnSuccess, OnFailure;
      if t !in trs || trs[t].incoming || trs[t].phase != Pending || !(100 <= code < 700) { return; }
      var jinfo := trs[t].jinfo;
      trs := trs[t := trs[t].(phase := ClientPhase(trs[t].verb, code), response := code)];
      if jinfo.None? { return; }
      var ji := jinfo.value;
      var i := FindRef(List(View(), ji.kind), ji.ctx);
      if i.None? { return; }
      if code < 200 { Rcv1xx(t, i.value, ji, code, f); }
      else if code < 300 { Rcv2xx(t, i.value, ji, f); }
      else { RcvFailure(t, i.value, ji); }
    }

    /** cb_snd1xx to cb_snd6xx */
    method AnswerLeaves(t: nat, code: nat)
      modifies this
      ensures View() == AnswerSent(old(View()), t, code)
    {
      hide OnFailure;
      if t !in trs || !trs[t].incoming || trs[t].phase != Pending || !(100 <= code < 700) { return; }
      var jinfo := trs[t].jinfo;
      trs := trs[t := trs[t].(phase := ClientPhase(trs[t].verb, code), response := code)];
      if code < 300 || jinfo.None? { return; }
      var i := FindRef(List(View(), jinfo.value.kind), jinfo.value.ctx);
      if i.Some? { RcvFailure(t, i.value, jinfo.value); }
    }

    /** cb_ict_kill_transaction to cb_nist_kill_transaction */
    method TransactionEnds(t: nat, f: Facts)
      modifies this
      ensures View() == Kill(old(View()), t, f)
    {
      hide FreeContext;
      if t !in trs || trs[t].phase == Terminated { return; }
      var tr := trs[t];
      trs := trs[t := tr.(phase := Terminated)];
      if tr.incoming || tr.jinfo.None? || !EndsContext(tr, tr.jinfo.value.kind, f) { return; }
      var i := FindRef(List(View(), tr.jinfo.value.kind), tr.jinfo.value.ctx);
      if i.Some? { ContextFree(tr.jinfo.value.kind, i.value); }
    }

    // ---------------------------------------------------------------- the other API calls

    /** A new transaction that goes straight to j_transactions. */
    method Stray(tr: Transaction)
      modifies this
      ensures View() == Discard(Launch(old(View()), tr), old(nextTid))
    {
      var t := NewTransaction(tr);
      garbage := [t] + garbage;
    }

    /** A request outside of any context, or one that is answered with an error. */
    method SendStray(verb: Method, incoming: bool)
      modifies this
      ensures View() == if incoming then Reject(old(View()), verb) else SendOutside(old(View()), verb)
    {
      Stray(if incoming then Incoming(View(), verb, None) else Outgoing(View(), verb, None));
    }

    /** eXosip_subscribe_send_initial_request */
    method SubscribeSendInitial()
      modifies this
      ensures View() == SendInitialSubscribe(old(View()))
    {
      hide Update, AddContext, Launch;
      var c := Context(nextRef, 0, [], None, Some(nextTid), 0, 0, false);
      NewWith(Subscription, c, Outgoing(View(), SUBSCRIBE, Some(Jinfo(Subscription, nextRef, None))), 1);
      UpdateIds();
    }

    /** eXosip_subscribe_send_refresh_request */
    method SubscribeSendRefresh(did: int)
      modifies this
      ensures View() == SendRefresh(old(View()), did)
    {
      if did <= 0 { return; }
      var p := FindSubscriptionById(subs, did);
      if p.None? || p.value.1.None? { return; }
      var (i, j) := (p.value.0, p.value.1.value);
      var last := FindLast(trs, subs[i].dialogs[j].out, SUBSCRIBE);
      var phase := PhaseOf(trs, OrElse(last, subs[i].out));
      if phase == Terminated || phase == Completed { SendIn(Subscription, i, j, SUBSCRIBE); }
    }

    /** One dialog of the subscription loop of eXosip_automatic_refresh */
    method RefreshDialog(i: nat, j: nat)
      modifies this
      ensures View() == RefreshSubscription(old(View()), i, j)
    {
      hide SubscribeResend;
      if i >= |subs| || j >= |subs[i].dialogs| { return; }
      var d := subs[i].dialogs[j];
      var t := if d.out != [] then Some(d.out[0]) else subs[i].out;
      if d.leg != NoLeg && d.id >= 1 && t.Some? && t.value in trs && trs[t.value].response != 0 {
        ResendSubscribe(i, Some(j), t.value);
      }
    }

    /** eXosip_insubscription_send_request */
    method NotifySend(did: int, verb: Method)
      modifies this
      ensures View() == NotifySendRequest(old(View()), did, verb)
    {
      if did <= 0 { return; }
      var p := FindDialogById(notifies, did);
      if p.None? { return; }
      var (i, j) := p.value;
      var last := FindLast(trs, notifies[i].dialogs[j].out, NOTIFY);
      var phase := PhaseOf(trs, last);
      if phase == Terminated || phase == Completed { SendIn(Notification, i, j, verb); }
    }

    /** _eXosip_retry_subscribe_with_auth */
    method RetrySubscription(t: nat)
      requires t in trs
      modifies this
      ensures View() == RetrySubscribe(old(View()), t)
    {
      hide SubscribeResend;
      var p := TransactionFind(subs, t);
      if p.None? { return; }
      var (i, jd) := p.value;
      if jd.Some? && subs[i].dialogs[jd.value].leg != NoLeg {
        var d := subs[i].dialogs[jd.value];
        if d.retry >= MAX_RETRY { return; }
        PutDialog(Subscription, i, jd.value, d.(retry := d.retry + 1));
      } else {
        if subs[i].retry >= MAX_RETRY { return; }
        subs := subs[i := subs[i].(retry := subs[i].retry + 1)];
      }
      ResendSubscribe(i, jd, t);
    }

    /** _eXosip_retry_notify_with_auth, _eXosip_retry_publish_with_auth, _eXosip_retry_with_auth */
    method RetryElsewhere(owner: Owner, t: nat)
      requires t in trs && owner != Of(Call) && owner != Of(Subscription)
      modifies this
      ensures View() == match owner
                        case OfPublication => RetryPublish(old(View()), t)
                        case OfNone => RetryOutside(old(View()), t)
                        case Of(_) => RetryNotify(old(View()), t)
    {
      hide Update, SendInDialog;
      match owner
      case OfPublication =>
        var p := FindPub(pubs, t);
        if p.Some? {
          ReplaceLast(p.value);
          UpdateIds();
        }
      case OfNone =>
        if (t in garbage || t in doubles) && trs[t].jinfo.None? {
          Stray(Outgoing(View(), trs[t].verb, None));
          UpdateIds();
        }
      case Of(k) =>
        assert k == Notification;
        var p := TransactionFind(notifies, t);
        if p.Some? && p.value.1.Some? {
          SendIn(Notification, p.value.0, p.value.1.value, trs[t].verb);
          UpdateIds();
        }
    }

    /** eXosip_default_action */
    method TakeDefaultAction(owner: Owner, t: nat)
      modifies this
      ensures View() == DefaultAction(old(View()), owner, t)
    {
      hide RetryCall, RetrySubscribe, RetryNotify, RetryPublish, RetryOutside, CallResend;
      if t !in trs { return; }
      if Challenge(trs[t].response) {
        if owner == Of(Call) { RetryInvite(t); }
        else if owner == Of(Subscription) { RetrySubscription(t); }
        else {
          assert owner.Of? ==> owner.kind == Notification;
          RetryElsewhere(owner, t);
        }
      } else if 300 <= trs[t].response <= 399 && owner == Of(Call) && trs[t].verb == INVITE {
        var p := TransactionFind(calls, t);
        if p.Some? { Resend(p.value.0, p.value.1, t); }
      }
    }

    /** eXosip_call_send_answer, eXosip_insubscription_send_answer */
    method SendAnswer(k: Kind, t: nat, code: nat)
      modifies this
      ensures View() == Answer(old(View()), k, t, code)
    {
      hide Update;
      if k == Subscription || t !in trs || !trs[t].incoming || trs[t].phase != Pending || !(100 <= code < 700) { return; }
      var p := TransactionFind(List(View(), k), t);
      if p.None? || p.value.1.None? { return; }
      var (i, j) := (p.value.0, p.value.1.value);
      var d := List(View(), k)[i].dialogs[j];
      if trs[t].verb == (if k == Call then INVITE else SUBSCRIBE) && 200 <= code < 300 && d.leg != NoLeg {
        PutDialog(k, i, j, d.(leg := ConfirmedLeg));
      }
      UpdateIds();
    }

    // ---------------------------------------------------------------- requests from the network

    /** eXosip_process_new_invite, eXosip_process_new_subscribe */
    method NewContext(k: Kind, ok: bool)
      modifies this
      ensures View() == NewIncoming(old(View()), k, ok)
    {
      hide Update;
      if k == Subscription { return; }
      var verb, ref := if k == Call then INVITE else SUBSCRIBE, nextRef;
      if ok {
        var d := Dialog(ref + 1, -1, EarlyLeg, [], [], 0);
        var c := Context(ref, if k == Call then -1 else 0, [d], Some(nextTid), None, 0, 0, false);
        NewWith(k, c, Incoming(View(), verb, Some(Jinfo(k, ref, Some(ref + 1)))), 2);
        UpdateIds();
      } else {
        Stray(Incoming(View(), verb, None));
        if k == Call {
          calls := [Context(ref, -1, [], None, None, 0, 0, false)] + calls;
          nextRef := nextRef + 1;
        }
      }
    }

    /** A new context with its first transaction. */
    method NewWith(k: Kind, c: Context, tr: Transaction, refs: nat)
      modifies this
      ensures View() == AddContext(Launch(old(View()), tr), k, c).(nextRef := old(nextRef) + refs)
    {
      var t := NewTransaction(tr);
      SetList(k, [c] + List(View(), k));
      nextRef := nextRef + refs;
    }

    method ReceiveIn(k: Kind, i: nat, j: nat, tr: Transaction)
      requires HasDialog(View(), k, i, j)
      modifies this
      ensures View() == Receive(old(View()), k, i, j, tr)
    {
      var d := List(View(), k)[i].dialogs[j];
      var t := NewTransaction(tr);
      PutDialog(k, i, j, d.(inc := [t] + d.inc));
    }

    /** eXosip_process_newrequest, within the dialog of a call */
    method RequestForCall(i: nat, j: nat, verb: Method, valid: bool)
      requires HasDialog(View(), Call, i, j)
      modifies this
      ensures View() == RequestInCall(old(View()), i, j, verb, valid)
    {
      hide Update, Receive;
      var c, d := calls[i], calls[i].dialogs[j];
      var byeIn := FindLast(trs, d.inc, BYE);
      var byeOut := FindLast(trs, d.out, BYE);
      if verb == BYE {
        if byeIn.Some? || !valid { Stray(Incoming(View(), BYE, None)); return; }
        ReceiveIn(Call, i, j, Incoming(View(), BYE, Some(Jinfo(Call, c.ref, None))));
        ReceivedStays(old(View()), i, j, Incoming(old(View()), BYE, Some(Jinfo(Call, c.ref, None))));
        PutDialog(Call, i, j, calls[i].dialogs[j].(leg := NoLeg));
        UpdateIds();
        return;
      }
      var inc := FindLast(trs, d.inc, INVITE);
      var out := FindLast(trs, d.out, INVITE);
      if byeIn.Some? || byeOut.Some? || verb == SUBSCRIBE || !valid
         || (verb == INVITE && (PhaseOf(trs, OrElse(inc, c.inc)) != Terminated || PhaseOf(trs, OrElse(out, c.out)) != Terminated)) {
        Stray(Incoming(View(), verb, None));
        return;
      }
      ReceiveIn(Call, i, j, Incoming(View(), verb, Some(Jinfo(Call, c.ref, Some(d.ref)))));
    }

    /** eXosip_process_notify_within_dialog */
    method NotifyReceived(i: nat, j: nat, valid: bool, over: bool)
      requires HasDialog(View(), Subscription, i, j)
      modifies this
      ensures View() == NotifyForSubscription(old(View()), i, j, valid, over)
    {
      hide FreeContext, Receive;
      var c := subs[i];
      if !valid || over {
        Stray(Incoming(View(), NOTIFY, None));
        if valid { ContextFree(Subscription, i); }
        return;
      }
      ReceiveIn(Subscription, i, j, Incoming(View(), NOTIFY, Some(Jinfo(Subscription, c.ref, Some(c.dialogs[j].ref)))));
    }

    /** eXosip_process_newrequest, within a dialog */
    method RequestReceived(k: Kind, i: nat, j: nat, verb: Method, valid: bool, over: bool)
      modifies this
      ensures View() == RequestInDialog(old(View()), k, i, j, verb, valid, over)
    {
      hide RequestInCall, NotifyForSubscription, Receive;
      if !HasDialog(View(), k, i, j) || List(View(), k)[i].dialogs[j].leg == NoLeg { return; }
      match k
      case Call => RequestForCall(i, j, verb, valid);
      case Subscription =>
        var last := FindLast(trs, subs[i].dialogs[j].out, NOTIFY);
        if verb == NOTIFY && PhaseOf(trs, last) == Terminated { NotifyReceived(i, j, valid, over); }
        else { Stray(Incoming(View(), verb, None)); }
      case Notification =>
        var c := notifies[i];
        var last := FindLast(trs, c.dialogs[j].inc, SUBSCRIBE);
        var phase := PhaseOf(trs, OrElse(last, c.inc));
        if verb == SUBSCRIBE && (phase == Terminated || phase == Completed) {
          ReceiveIn(Notification, i, j, Incoming(View(), SUBSCRIBE, Some(Jinfo(Notification, c.ref, Some(c.dialogs[j].ref)))));
        } else {
          Stray(Incoming(View(), verb, None));
        }
    }

    /** eXosip_process_newrequest, for a NOTIFY without a dialog */
    method FirstNotifyReceived(i: nat, leg: Leg, valid: bool, over: bool)
      modifies this
      ensures View() == FirstNotify(old(View()), i, leg, valid, over)
    {
      hide Update, NotifyForSubscription;
      if i >= |subs| { return; }
      if leg == NoLeg {
        Forget(Incoming(View(), NOTIFY, None));
        return;
      }
      var d := Dialog(nextRef, -1, leg, [], [], 0);
      subs := subs[i := subs[i].(dialogs := [d] + subs[i].dialogs)];
      nextRef := nextRef + 1;
      ghost var s1 := View();
      UpdateKeepsShape(s1);
      assert SameContexts(List(s1, Subscription), List(Update(s1), Subscription));
      assert SameContext(s1.subs[i], Update(s1).subs[i]);
      UpdateIds();
      NotifyReceived(i, 0, valid, over);
    }

    /** A transaction that is put nowhere. */
    method Forget(tr: Transaction)
      modifies this
      ensures View() == Lose(Launch(old(View()), tr), old(nextTid))
    {
      var t := NewTransaction(tr);
      lost := [t] + lost;
    }

    /** A second entry for a transaction that a context keeps. */
    method EnterTwice(t: nat)
      modifies this
      ensures View() == Double(old(View()), t)
    {
      if t in trs { trs := trs[t := trs[t].(jinfo := None)]; }
      doubles := [t] + doubles;
    }

    /** eXosip_process_cancel */
    method CancelReceived(target: Target, ok: bool, ok487: bool)
      modifies this
      ensures View() == ProcessCancel(old(View()), target, ok, ok487)
    {
      hide Cancelled, Receive, Lose, Double, Discard, Launch;
      var p := Cancelled(View(), target);
      var tr := Incoming(View(), CANCEL, None);
      var over := p.Some? && trs[p.value.1].verb == INVITE && trs[p.value.1].phase != Pending;
      if !ok { Forget(tr); }
      else if p.Some? && p.value.2.Some? { ReceiveIn(Call, p.value.0, p.value.2.value, tr); }
      else { Stray(tr); }
      if p.Some? && (!ok || (!over && !ok487)) { EnterTwice(p.value.1); }
    }

    // ---------------------------------------------------------------- release

    /** A dialog is taken off a call. */
    method ReleaseOneDialog(i: nat, j: nat)
      modifies this
      ensures View() == ReleaseDialog(old(View()), i, j)
    {
      hide FreeDialog;
      if i >= |calls| || j >= |calls[i].dialogs| { return; }
      var c, d := calls[i], calls[i].dialogs[j];
      UnlinkFrom(c.inc, d.ref);
      UnlinkFrom(c.out, d.ref);
      calls := calls[i := c.(dialogs := Without(c.dialogs, j))];
      DialogFree(d);
    }

    /** __eXosip_call_remove_dialog_reference_in_call, for one slot */
    method UnlinkFrom(slot: Option<nat>, ref: nat)
      modifies this`trs
      ensures View() == Unlink(old(View()), slot, ref)
    {
      if slot.Some? && slot.value in trs && trs[slot.value].jinfo.Some? && trs[slot.value].jinfo.value.dialog == Some(ref) {
        trs := trs[slot.value := trs[slot.value].(jinfo := Some(trs[slot.value].jinfo.value.(dialog := None)))];
      }
    }

    /** eXosip_remove_transaction_from_call */
    method RemoveTransaction(i: nat, t: nat)
      modifies this
      ensures View() == DropTransaction(old(View()), i, t)
    {
      hide Position;
      if i >= |calls| || t !in trs || (trs[t].verb != BYE && trs[t].verb != OTHER("REFER"))
         || calls[i].inc == Some(t) || calls[i].out == Some(t) { return; }
      var j := FindHolder(calls[i].dialogs, t);
      if j.None? { return; }
      var d := calls[i].dialogs[j.value];
      if t in d.inc {
        var ts := RemoveFrom(d.inc, t);
        PutDialog(Call, i, j.value, d.(inc := ts));
      } else {
        var ts := RemoveFrom(d.out, t);
        PutDialog(Call, i, j.value, d.(out := ts));
      }
      garbage := [t] + garbage;
    }

    /** The last loop of eXosip_release_terminated_calls, for one transaction */
    method ReleaseOne(p: nat)
      modifies this
      ensures View() == ReleaseTransaction(old(View()), p)
    {
      if p < |garbage| && garbage[p] in trs && (trs[garbage[p]].phase == Terminated || trs[garbage[p]].birth + 180 < now) {
        released := [garbage[p]] + released;
        garbage := Without(garbage, p);
      }
    }

    // ---------------------------------------------------------------- every step

    /** A call of the application. */
    method HandleApi(e: Step)
      requires ByApplication(e)
      modifies this
      ensures View() == Next(old(View()), e)
    {
      hide SendInitialInvite, SendInitialSubscribe, CallSendRequest, NotifySendRequest, SendRefresh, Terminate,
           DefaultAction, RefreshSubscription, Publish, Answer, NewIncoming, ProcessCancel, RequestInDialog, FirstNotify,
           Respond, AnswerSent, Kill, ReleaseDialog, FreeContext, DropTransaction, ReleaseTransaction,
           Reject, SendOutside;
      match e
      case DoSendInitialInvite => CallSendInitialInvite();
      case DoCallSendRequest(did, verb) => CallSend(did, verb);
      case DoTerminate(cid, did) => CallTerminate(cid, did);
      case DoDefaultAction(owner, t) => TakeDefaultAction(owner, t);
      case DoSendInitialSubscribe => SubscribeSendInitial();
      case DoSendRefresh(did) => SubscribeSendRefresh(did);
      case DoRefreshSubscription(i, j) => RefreshDialog(i, j);
      case DoNotifySendRequest(did, verb) => NotifySend(did, verb);
      case DoPublish(aor, period) => SendPublish(aor, period);
      case DoSendOutside(verb) => SendStray(verb, false);
      case DoAnswer(k, t, code) => SendAnswer(k, t, code);
    }

    /** A request from the network. */
    method HandleRequest(e: Step)
      requires ByNetwork(e)
      modifies this
      ensures View() == Next(old(View()), e)
    {
      hide SendInitialInvite, SendInitialSubscribe, CallSendRequest, NotifySendRequest, SendRefresh, Terminate,
           DefaultAction, RefreshSubscription, Publish, Answer, NewIncoming, ProcessCancel, RequestInDialog, FirstNotify,
           Respond, AnswerSent, Kill, ReleaseDialog, FreeContext, DropTransaction, ReleaseTransaction,
           Reject, SendOutside;
      match e
      case DoNewIncoming(k, ok) => NewContext(k, ok);
      case DoReject(verb) => SendStray(verb, true);
      case DoCancel(target, ok, ok487) => CancelReceived(target, ok, ok487);
      case DoRequestInDialog(k, i, j, verb, valid, over) => RequestReceived(k, i, j, verb, valid, over);
      case DoFirstNotify(i, leg, valid, over) => FirstNotifyReceived(i, leg, valid, over);
    }

    method Handle(e: Step)
      modifies this
      ensures View() == Next(old(View()), e)
    {
      hide Next;
      if ByApplication(e) { HandleApi(e); }
      else if ByNetwork(e) { HandleRequest(e); }
      else { HandleProgress(e); }
    }

    /** Time, the progress of transactions and the release of what is finished. */
    method HandleProgress(e: Step)
      requires !ByApplication(e) && !ByNetwork(e)
      modifies this
      ensures View() == Next(old(View()), e)
    {
      hide SendInitialInvite, SendInitialSubscribe, CallSendRequest, NotifySendRequest, SendRefresh, Terminate,
           DefaultAction, RefreshSubscription, Publish, Answer, NewIncoming, ProcessCancel, RequestInDialog, FirstNotify,
           Respond, AnswerSent, Kill, ReleaseDialog, FreeContext, DropTransaction, ReleaseTransaction,
           Reject, SendOutside;
      match e
      case Tick(n) => now := now + n;
      case DoAckReceived(t) =>
        if t in trs && trs[t].incoming && trs[t].verb == INVITE && trs[t].phase == Completed {
          trs := trs[t := trs[t].(phase := Confirmed)];
        }
      case DoRespond(t, code, f) => ReceiveResponse(t, code, f);
      case DoAnswerSent(t, code) => AnswerLeaves(t, code);
      case DoKill(t, f) => TransactionEnds(t, f);
      case DoReleaseDialog(i, j) => ReleaseOneDialog(i, j);
      case DoReleaseCall(i) => if i < |calls| { ContextFree(Call, i); }
      case DoDropTransaction(i, t) => RemoveTransaction(i, t);
      case DoReleaseTransaction(p) => ReleaseOne(p);
    }
  }

  /** The search of _eXosip_pub_find_by_aor. */
  method FindByAor(pubs: seq<Publication>, aor: string) returns (r: Option<nat>)
    ensures r == FindAor(pubs, aor)
  {
    var i := 0;
    while i < |pubs|
      invariant 0 <= i <= |pubs|
      invariant FindAor(pubs, aor) == match FindAor(pubs[i..], aor) case None => None case Some(n) => Some(i + n)
    {
      if EqualNoCase(aor, pubs[i].aor) { return Some(i); }
      i := i + 1;
    }
    return None;
  }

  /** The two lists after a sweep. */
  function Swept(now: int, ps: seq<Publication>, gs: seq<nat>): (seq<Publication>, seq<nat>)
    decreases |ps|
  {
    if ps == [] then ([], gs)
    else if now - ps[0].expires > 60 then Swept(now, ps[1..], if ps[0].last.Some? then [ps[0].last.value] + gs else gs)
    else var r := Swept(now, ps[1..], gs); ([ps[0]] + r.0, r.1)
  }

  lemma SweepIsSwept(s: State, ps: seq<Publication>)
    ensures var (pubs, garbage) := Swept(s.now, ps, s.garbage); Sweep(s, ps) == s.(pubs := pubs, garbage := garbage)
    decreases |ps|
  {
    if ps != [] {
      if s.now - ps[0].expires > 60 {
        SweepIsSwept(if ps[0].last.Some? then Discard(s, ps[0].last.value) else s, ps[1..]);
      } else {
        SweepIsSwept(s, ps[1..]);
      }
    }
  }

  lemma SweptFrom(now: int, kept: seq<Publication>, ps: seq<Publication>, i: nat, gs: seq<nat>)
    requires i < |ps|
    ensures var u := Swept(now, ps[i..], gs);
            if now - ps[i].expires > 60
            then u == Swept(now, ps[i + 1..], if ps[i].last.Some? then [ps[i].last.value] + gs else gs)
            else var r := Swept(now, ps[i + 1..], gs); kept + u.0 == (kept + [ps[i]]) + r.0 && u.1 == r.1
  {
    assert ps[i..][0] == ps[i] && ps[i..][1..] == ps[i + 1..];
  }

  method SweepLists(now: int, all: seq<Publication>, garbage: seq<nat>) returns (ps: seq<Publication>, gs: seq<nat>)
    ensures (ps, gs) == Swept(now, all, garbage)
  {
    hide Swept;
    ps, gs := all, garbage;
    ghost var n, u := 0, Swept(now, all, garbage);
    var i := 0;
    assert all[0..] == all && ps[..0] + u.0 == u.0;
    while i < |ps|
      invariant 0 <= i <= |ps| && n <= |all| && ps[i..] == all[n..]
      invariant u.0 == ps[..i] + Swept(now, all[n..], gs).0 && u.1 == Swept(now, all[n..], gs).1
      decreases |ps| - i
    {
      ghost var kept := ps[..i];
      HeadAndTail(ps, i, all, n);
      SweptFrom(now, kept, all, n, gs);
      if now - ps[i].expires > 60 {
        if ps[i].last.Some? { gs := [ps[i].last.value] + gs; }
        ps := Without(ps, i);
      } else {
        i := i + 1;
      }
      n := n + 1;
    }
    assert all[n..] == [] && ps[..i] == ps;
    SweptNothing(now, ps, gs);
  }

  /** The entry both lists are at, and what is behind it, left out or passed. */
  lemma HeadAndTail(ps: seq<Publication>, i: nat, all: seq<Publication>, n: nat)
    requires i < |ps| && n <= |all| && ps[i..] == all[n..]
    ensures n < |all| && ps[i] == all[n] && ps[i + 1..] == all[n + 1..] && ps[..i + 1] == ps[..i] + [ps[i]]
    ensures Without(ps, i)[..i] == ps[..i] && Without(ps, i)[i..] == all[n + 1..]
  {
    assert |ps[i..]| == |all[n..]| && ps[i..][0] == all[n..][0];
    assert ps[i..][1..] == all[n..][1..];
  }

  lemma SweptNothing(now: int, kept: seq<Publication>, gs: seq<nat>)
    ensures kept + Swept(now, [], gs).0 == kept && Swept(now, [], gs).1 == gs
  {
  }

  lemma ReceivedStays(s: State, i: nat, j: nat, tr: Transaction)
    requires HasDialog(s, Call, i, j)
    ensures HasDialog(Receive(s, Call, i, j, tr), Call, i, j)
  {
  }

  /** The loops of eXosip_remove_transaction_from_call: the first entry `t` leaves the list. */
  method RemoveFrom(ts: seq<nat>, t: nat) returns (r: seq<nat>)
    ensures r == Removed(ts, t)
  {
    var pos := 0;
    while pos < |ts|
      invariant 0 <= pos <= |ts|
      invariant Position(ts, t) == match Position(ts[pos..], t) case None => None case Some(n) => Some(pos + n)
    {
      if ts[pos] == t { return Without(ts, pos); }
      pos := pos + 1;
    }
    return ts;
  }

  /** Any run of the library: the object ends in the state of the run, and its fields keep what
      the library promises.  Transactions sit in one place each, up to the recorded losses and
      second entries; ids are unique and below the counter until it starts over; the retry
      counters stay in 0..3; an initial INVITE is resent at most four times between two 2xx, three
      before the first; a dialog is hung up at most once; the transactions of a method and direction
      are as many as the steps that create one; no two publications are for one address. */
  method RunAll(now: int, es: seq<Step>) returns (store: Store)
    ensures fresh(store) && store.View() == Run(Init(now), es)
    ensures forall t: nat ::
              multiset(Holdings(store.View()))[t] + Count(store.lost, t) == Bit(1 <= t < store.nextTid) + Count(store.doubles, t)
    ensures !store.wrapped ==> forall n: int :: n >= 1 ==> Total(Named(n), store.View()) <= Bit(n < store.staticId)
    ensures forall k: Kind, i :: 0 <= i < |List(store.View(), k)| ==> RetryOk(List(store.View(), k)[i])
    ensures forall i :: 0 <= i < |store.calls| ==> store.calls[i].resent <= if store.calls[i].success then 4 else 3
    ensures forall r: nat :: Count(store.hangups, r) + Total(Alive(r), store.View()) <= 1
    ensures forall x :: Census(Sorts(store.trs), x) == Makers(Init(now), es, x)
    ensures Apart(store.pubs)
  {
    hide Sorts, Makers, Census, Apart;
    hide Next, Total, Holdings, Count, RetryOk;
    store := new Store(now);
    var n := 0;
    assert es[..0] == [];
    RunNothing(Init(now));
    while n < |es|
      invariant 0 <= n <= |es| && fresh(store)
      invariant store.View() == Run(Init(now), es[..n])
    {
      assert es[..n + 1] == es[..n] + [es[n]];
      RunSnoc(Init(now), es[..n], es[n]);
      store.Handle(es[n]);
      n := n + 1;
    }
    assert es[..n] == es;
    RunKeepsPromises(now, es);
    OnePublication(now, es);
    forall x ensures Census(Sorts(store.trs), x) == Makers(Init(now), es, x) { TransactionsExplained(now, es, x); }
  }

  lemma RunKeepsPromises(now: int, es: seq<Step>)
    ensures var s := Run(Init(now), es);
            && (forall t: nat :: multiset(Holdings(s))[t] + Count(s.lost, t) == Bit(1 <= t < s.nextTid) + Count(s.doubles, t))
            && (!s.wrapped ==> forall n: int :: n >= 1 ==> Total(Named(n), s) <= Bit(n < s.staticId))
            && (forall k: Kind, i :: 0 <= i < |List(s, k)| ==> RetryOk(List(s, k)[i]))
            && (forall i :: 0 <= i < |s.calls| ==> s.calls[i].resent <= if s.calls[i].success then 4 else 3)
            && (forall r: nat :: Count(s.hangups, r) + Total(Alive(r), s) <= 1)
  {
    hide Run, Total, Holdings, Count, RetryOk;
    var s := Run(Init(now), es);
    forall t: nat ensures multiset(Holdings(s))[t] + Count(s.lost, t) == Bit(1 <= t < s.nextTid) + Count(s.doubles, t) {
      TransactionsAccounted(now, es, t);
    }
    forall n: int | !s.wrapped && n >= 1 ensures Total(Named(n), s) <= Bit(n < s.staticId) { IdsUnique(now, es, n); }
    forall k: Kind, i | 0 <= i < |List(s, k)| ensures RetryOk(List(s, k)[i]) { RetriesBounded(now, es, k, i); }
    forall i | 0 <= i < |s.calls| ensures s.calls[i].resent <= if s.calls[i].success then 4 else 3 {
      ResendsBounded(now, es, i);
      if !s.calls[i].success { ResendsBoundedBeforeSuccess(now, es, i); }
    }
    forall r: nat ensures Count(s.hangups, r) + Total(Alive(r), s) <= 1 { HungUpOnce(now, es, r); }
  }
}
