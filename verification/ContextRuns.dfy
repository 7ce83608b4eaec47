/** Every step of the context store accounts for every measure, and so does every run. */
module ContextRuns {
  import opened Wrappers
  import opened Sequences
  import opened Sip
  import opened ContextStore
  import opened ContextAccounting

  // ---------------------------------------------------------------- building blocks

  lemma AccountsTouch(m: Measure, s: State, s': State)
    requires s.staticId >= 1 && s' == s.(trs := s'.trs, now := s'.now)
    ensures Accounts(m, s, s')
  {
  }

  lemma AccountsSetDialog(m: Measure, s: State, k: Kind, i: nat, j: nat, d: Dialog)
    requires s.staticId >= 1 && HasDialog(s, k, i, j)
    requires WeighDialog(m, d) <= WeighDialog(m, DialogAt(s, k, i, j))
    requires m.Held? ==> WeighDialog(m, d) == WeighDialog(m, DialogAt(s, k, i, j))
    ensures Accounts(m, s, SetDialog(s, k, i, j, d))
  {
    TotalSetDialog(m, s, k, i, j, d);
  }

  lemma AccountsSetContext(m: Measure, s: State, k: Kind, i: nat, c: Context)
    requires s.staticId >= 1 && i < |List(s, k)| && Weigh(m, c) == Weigh(m, List(s, k)[i])
    ensures Accounts(m, s, SetContext(s, k, i, c))
  {
    TotalSetContext(m, s, k, i, c);
  }

  lemma AccountsClearLeg(m: Measure, s: State, k: Kind, i: nat, j: nat)
    requires s.staticId >= 1 && HasDialog(s, k, i, j)
    ensures Accounts(m, s, ClearLeg(s, k, i, j))
  {
    AccountsSetDialog(m, s, k, i, j, DialogAt(s, k, i, j).(leg := NoLeg));
  }

  lemma CountCons(t: nat, ts: seq<nat>, x: nat)
    ensures Count([t] + ts, x) == Bit(t == x) + Count(ts, x)
  {
    assert ([t] + ts)[1..] == ts;
  }

  /** Only the record of BYEs changes. */
  lemma AccountsByes(m: Measure, s: State, byes: seq<nat>)
    requires s.staticId >= 1
    ensures Accounts(m, s, s.(byes := byes))
  {
    hide WeighAll, WeighPubs, Count;
  }

  lemma AccountsSendInDialog(m: Measure, s: State, k: Kind, i: nat, j: nat, verb: Method)
    requires s.staticId >= 1 && HasDialog(s, k, i, j)
    ensures Accounts(m, s, SendInDialog(s, k, i, j, verb))
  {
    hide Accounts, Total;
    var c, d := List(s, k)[i], DialogAt(s, k, i, j);
    var tr := Outgoing(s, verb, Some(Jinfo(k, c.ref, Some(d.ref))));
    var s1 := SetDialog(Launch(s, tr), k, i, j, d.(out := [s.nextTid] + d.out));
    AccountsSent(m, s, k, i, j, tr);
    AccountsByes(m, s1, if verb == BYE then [d.ref] + s.byes else s.byes);
    AccountsTrans(m, s, s1, SendInDialog(s, k, i, j, verb));
  }

  lemma AccountsSent(m: Measure, s: State, k: Kind, i: nat, j: nat, tr: Transaction)
    requires s.staticId >= 1 && HasDialog(s, k, i, j)
    ensures var d := DialogAt(s, k, i, j);
            Accounts(m, s, SetDialog(Launch(s, tr), k, i, j, d.(out := [s.nextTid] + d.out)))
  {
    hide Count, WeighAll, WeighDialogs;
    var d := DialogAt(s, k, i, j);
    TotalSetDialog(m, Launch(s, tr), k, i, j, d.(out := [s.nextTid] + d.out));
    if m.Held? { CountCons(s.nextTid, d.out, m.t); }
  }

  lemma AccountsReceive(m: Measure, s: State, k: Kind, i: nat, j: nat, tr: Transaction)
    requires s.staticId >= 1 && HasDialog(s, k, i, j)
    ensures Accounts(m, s, Receive(s, k, i, j, tr))
  {
    hide Count, WeighAll, WeighDialogs;
    var d := DialogAt(s, k, i, j);
    TotalSetDialog(m, Launch(s, tr), k, i, j, d.(inc := [s.nextTid] + d.inc));
    if m.Held? { CountCons(s.nextTid, d.inc, m.t); }
  }

  lemma AccountsAcceptInDialog(m: Measure, s: State, k: Kind, i: nat, j: nat, verb: Method, withDialog: bool)
    requires s.staticId >= 1 && HasDialog(s, k, i, j)
    ensures Accounts(m, s, AcceptInDialog(s, k, i, j, verb, withDialog))
  {
    hide Accounts, Receive;
    var c, d := List(s, k)[i], DialogAt(s, k, i, j);
    AccountsReceive(m, s, k, i, j, Incoming(s, verb, Some(Jinfo(k, c.ref, if withDialog then Some(d.ref) else None))));
  }

  /** A transaction that goes straight to the garbage list. */
  lemma AccountsStray(m: Measure, s: State, tr: Transaction)
    requires s.staticId >= 1
    ensures Accounts(m, s, Discard(Launch(s, tr), s.nextTid))
  {
    TotalDiscard(m, Launch(s, tr), s.nextTid);
  }

  /** A transaction that is put nowhere is on the record of the lost ones. */
  lemma AccountsLose(m: Measure, s: State, tr: Transaction)
    requires s.staticId >= 1
    ensures Accounts(m, s, Lose(Launch(s, tr), s.nextTid))
  {
    hide Count, WeighAll;
    if m.Held? { CountCons(s.nextTid, s.lost, m.t); }
  }

  lemma AccountsDouble(m: Measure, s: State, t: nat)
    requires s.staticId >= 1
    ensures Accounts(m, s, Double(s, t))
  {
    hide Count, WeighAll, WeighPubs;
  }

  lemma AccountsProcessCancel(m: Measure, s: State, target: Target, ok: bool, ok487: bool)
    requires s.staticId >= 1
    ensures Accounts(m, s, ProcessCancel(s, target, ok, ok487))
  {
    hide Total, Accounts, Receive, Cancelled;
    var tr := Incoming(s, CANCEL, None);
    var lost := Lose(Launch(s, tr), s.nextTid);
    AccountsLose(m, s, tr);
    AccountsStray(m, s, tr);
    match Cancelled(s, target)
    case None =>
    case Some((i, t, jd)) =>
      var kept := KeepCancel(s, i, jd);
      if jd.Some? { AccountsReceive(m, s, Call, i, jd.value, tr); }
      AccountsGrow(m, s, kept);
      AccountsGrow(m, s, lost);
      AccountsDouble(m, kept, t);
      AccountsDouble(m, lost, t);
      AccountsTrans(m, s, kept, Double(kept, t));
      AccountsTrans(m, s, lost, Double(lost, t));
  }

  lemma AccountsGrow(m: Measure, s: State, s': State)
    requires Accounts(m, s, s')
    ensures s'.staticId >= 1
  {
  }

  lemma AccountsAddDialog(m: Measure, s: State, k: Kind, i: nat, leg: Leg)
    requires Proper(m) && s.staticId >= 1 && i < |List(s, k)|
    ensures Accounts(m, s, AddDialog(s, k, i, leg))
  {
    TotalAddDialog(m, s, k, i, leg);
  }

  lemma AccountsStartDialog(m: Measure, s: State, t: nat, i: nat, ji: Jinfo, leg: Leg)
    requires Proper(m) && s.staticId >= 1 && i < |List(s, ji.kind)|
    ensures Accounts(m, s, StartDialog(s, t, i, ji, leg))
  {
    var s1 := AddDialog(s, ji.kind, i, leg);
    var s2 := SetJinfo(s1, t, Some(ji.(dialog := Some(s.nextRef))));
    AccountsAddDialog(m, s, ji.kind, i, leg);
    AccountsTouch(m, s1, s2);
    AccountsUpdate(m, s2);
    AccountsTrans(m, s, s1, s2);
    AccountsTrans(m, s, s2, Update(s2));
  }

  /** A step of any of these forms followed by eXosip_update. */
  lemma ThenUpdate(m: Measure, s: State, s1: State)
    requires Proper(m) && Accounts(m, s, s1)
    ensures Accounts(m, s, Update(s1))
  {
    AccountsUpdate(m, s1);
    AccountsTrans(m, s, s1, Update(s1));
  }

  // ---------------------------------------------------------------- new contexts

  lemma WeighNewContext(m: Measure, c: Context, t: nat)
    requires Proper(m) && c.id < 1
    requires (c.inc == Some(t) && c.out.None?) || (c.out == Some(t) && c.inc.None?)
    requires c.dialogs == [] || c.dialogs == [Dialog(c.ref + 1, -1, EarlyLeg, [], [], 0)]
    ensures m.Held? ==> Weigh(m, c) == Bit(m.t == t)
    ensures m.Alive? || m.HungUp? ==> Weigh(m, c) == Bit(c.ref <= m.r < c.ref + 1 + |c.dialogs|)
    ensures m.Named? || m.Elsewhere? ==> Weigh(m, c) == 0
    ensures m.MayBe? && m.r < c.ref ==> Weigh(m, c) == 0
  {
    if c.dialogs != [] {
      assert c.dialogs[1..] == [];
      assert WeighDialogs(m, c.dialogs) == WeighDialog(m, c.dialogs[0]);
    }
  }

  lemma AccountsNewContext(m: Measure, s: State, k: Kind, c: Context, tr: Transaction)
    requires Proper(m) && s.staticId >= 1 && c.ref == s.nextRef && c.id < 1
    requires (c.inc == Some(s.nextTid) && c.out.None?) || (c.out == Some(s.nextTid) && c.inc.None?)
    requires c.dialogs == [] || c.dialogs == [Dialog(s.nextRef + 1, -1, EarlyLeg, [], [], 0)]
    ensures Accounts(m, s, Update(AddContext(Launch(s, tr), k, c).(nextRef := s.nextRef + 1 + |c.dialogs|)))
  {
    hide Update, Weigh, WeighAll;
    var s1 := AddContext(Launch(s, tr), k, c);
    var s2 := s1.(nextRef := s.nextRef + 1 + |c.dialogs|);
    WeighNewContext(m, c, s.nextTid);
    TotalAddContext(m, Launch(s, tr), k, c);
    ThenUpdate(m, s, s2);
  }

  /** A call that eXosip_process_new_invite leaves behind when it cannot go on. */
  lemma AccountsEmptyCall(m: Measure, s: State, tr: Transaction)
    requires Proper(m) && s.staticId >= 1
    ensures Accounts(m, s, AddContext(Discard(Launch(s, tr), s.nextTid), Call, Context(s.nextRef, -1, [], None, None, 0, 0, false))
                             .(nextRef := s.nextRef + 1))
  {
    hide WeighAll, Count;
    var s1 := Discard(Launch(s, tr), s.nextTid);
    TotalDiscard(m, Launch(s, tr), s.nextTid);
    TotalAddContext(m, s1, Call, Context(s.nextRef, -1, [], None, None, 0, 0, false));
  }

  lemma AccountsNewIncoming(m: Measure, s: State, k: Kind, ok: bool)
    requires Proper(m) && s.staticId >= 1
    ensures Accounts(m, s, NewIncoming(s, k, ok))
  {
    hide Update, Total, Accounts;
    AccountsTouch(m, s, s);
    if k != Subscription {
      if ok {
        var jinfo := Jinfo(k, s.nextRef, Some(s.nextRef + 1));
        var d := Dialog(s.nextRef + 1, -1, EarlyLeg, [], [], 0);
        var c := Context(s.nextRef, if k == Call then -1 else 0, [d], Some(s.nextTid), None, 0, 0, false);
        AccountsNewContext(m, s, k, c, Incoming(s, if k == Call then INVITE else SUBSCRIBE, Some(jinfo)));
      } else {
        var tr := Incoming(s, if k == Call then INVITE else SUBSCRIBE, None);
        AccountsStray(m, s, tr);
        AccountsEmptyCall(m, s, tr);
      }
    }
  }

  // ---------------------------------------------------------------- calls

  /** The leg that a hangup takes pays for its record. */
  lemma AccountsSendBye(m: Measure, s: State, i: nat, j: nat)
    requires Proper(m) && s.staticId >= 1 && HasDialog(s, Call, i, j) && s.calls[i].dialogs[j].leg != NoLeg
    ensures Accounts(m, s, SendBye(s, i, j))
  {
    hide Update, WeighDialogs, WeighAll;
    var ref := s.calls[i].dialogs[j].ref;
    var s1 := SendInDialog(s, Call, i, j, BYE);
    var s2 := ClearLeg(s1, Call, i, j);
    var s3 := s2.(hangups := [ref] + s.hangups);
    AccountsSendInDialog(m, s, Call, i, j, BYE);
    TotalSetDialog(m, s1, Call, i, j, DialogAt(s1, Call, i, j).(leg := NoLeg));
    assert ([ref] + s.hangups)[1..] == s.hangups;
    assert Total(m, s3) == Total(m, s2) + Bit(m == HungUp(ref));
    assert Accounts(m, s, s3);
    ThenUpdate(m, s, s3);
  }

  lemma AccountsTerminateAt(m: Measure, s: State, i: nat, jd: Option<nat>)
    requires Proper(m) && s.staticId >= 1
    requires i < |s.calls| && (jd.Some? ==> jd.value < |s.calls[i].dialogs|)
    ensures Accounts(m, s, TerminateAt(s, i, jd))
  {
    hide Total, Accounts, Update, SendBye, Provisional, LastOutInvite, LastIncInvite;
    var cancel := Discard(Launch(s, Outgoing(s, CANCEL, None)), s.nextTid);
    AccountsTouch(m, s, s);
    AccountsStray(m, s, Outgoing(s, CANCEL, None));
    if jd.Some? {
      AccountsClearLeg(m, cancel, Call, i, jd.value);
      AccountsTrans(m, s, cancel, ClearLeg(cancel, Call, i, jd.value));
      ThenUpdate(m, s, ClearLeg(cancel, Call, i, jd.value));
      if s.calls[i].dialogs[jd.value].leg != NoLeg { AccountsSendBye(m, s, i, jd.value); }
    }
  }

  /** A new transaction takes the slot of the initial one, which goes to the garbage list. */
  lemma AccountsReplaceOut(m: Measure, s: State, k: Kind, i: nat, t: nat, tr: Transaction)
    requires s.staticId >= 1 && i < |List(s, k)| && List(s, k)[i].out == Some(t)
    ensures Accounts(m, s, SetContext(Discard(Launch(s, tr), t), k, i, List(s, k)[i].(out := Some(s.nextTid))))
  {
    hide WeighAll, WeighDialogs, Count;
    var c := List(s, k)[i];
    TotalDiscard(m, Launch(s, tr), t);
    TotalSetContext(m, Discard(Launch(s, tr), t), k, i, c.(out := Some(s.nextTid)));
  }

  lemma AccountsCallResend(m: Measure, s: State, i: nat, jd: Option<nat>, t: nat)
    requires Proper(m) && s.staticId >= 1 && t in s.trs
    requires i < |s.calls| && (jd.Some? ==> jd.value < |s.calls[i].dialogs|)
    ensures Accounts(m, s, CallResend(s, i, jd, t))
  {
    hide Update, DropDialog, SendInDialog, Total, Accounts;
    var c := s.calls[i];
    if c.out == Some(t) {
      var tr := Outgoing(s, s.trs[t].verb, Some(Jinfo(Call, c.ref, None)));
      var s2 := SetContext(Discard(Launch(s, tr), t), Call, i, c.(out := Some(s.nextTid)));
      AccountsReplaceOut(m, s, Call, i, t, tr);
      if jd.Some? {
        AccountsDropDialog(m, s2, Call, i, jd.value);
        AccountsTrans(m, s, s2, DropDialog(s2, Call, i, jd.value));
        ThenUpdate(m, s, DropDialog(s2, Call, i, jd.value));
      } else {
        ThenUpdate(m, s, s2);
      }
    } else if jd.Some? {
      AccountsSendInDialog(m, s, Call, i, jd.value, s.trs[t].verb);
      ThenUpdate(m, s, SendInDialog(s, Call, i, jd.value, s.trs[t].verb));
    } else {
      AccountsTouch(m, s, s);
    }
  }

  /** Counters weigh nothing. */
  lemma WeighCounters(m: Measure, c: Context, retry: int, resent: int)
    ensures Weigh(m, c.(retry := retry, resent := resent)) == Weigh(m, c)
  {
  }

  lemma WeighRetry(m: Measure, d: Dialog, retry: int)
    ensures WeighDialog(m, d.(retry := retry)) == WeighDialog(m, d)
  {
  }

  lemma AccountsCount(m: Measure, s: State, i: nat, jd: Option<nat>, initial: bool)
    requires s.staticId >= 1 && i < |s.calls| && (jd.Some? ==> jd.value < |s.calls[i].dialogs|)
    ensures var c := s.calls[i];
            Accounts(m, s, CountResend(SetContext(s, Call, i, c.(retry := c.retry + 1)), i, initial))
    ensures jd.Some? ==>
              var d := s.calls[i].dialogs[jd.value];
              Accounts(m, s, CountResend(SetDialog(s, Call, i, jd.value, d.(retry := d.retry + 1)), i, initial))
  {
    hide Total, Weigh, WeighDialog, Accounts;
    var c := s.calls[i];
    var s1 := SetContext(s, Call, i, c.(retry := c.retry + 1));
    WeighCounters(m, c, c.retry + 1, c.resent);
    AccountsSetContext(m, s, Call, i, c.(retry := c.retry + 1));
    WeighCounters(m, s1.calls[i], s1.calls[i].retry, s1.calls[i].resent + 1);
    AccountsSetContext(m, s1, Call, i, s1.calls[i].(resent := s1.calls[i].resent + 1));
    AccountsTrans(m, s, s1, CountResend(s1, i, true));
    if jd.Some? {
      var d := c.dialogs[jd.value];
      var s2 := SetDialog(s, Call, i, jd.value, d.(retry := d.retry + 1));
      WeighRetry(m, d, d.retry + 1);
      AccountsSetDialog(m, s, Call, i, jd.value, d.(retry := d.retry + 1));
      WeighCounters(m, s2.calls[i], s2.calls[i].retry, s2.calls[i].resent + 1);
      AccountsSetContext(m, s2, Call, i, s2.calls[i].(resent := s2.calls[i].resent + 1));
      AccountsTrans(m, s, s2, CountResend(s2, i, true));
    }
  }

  lemma AccountsRetryCall(m: Measure, s: State, t: nat)
    requires Proper(m) && s.staticId >= 1 && t in s.trs
    ensures Accounts(m, s, RetryCall(s, t))
  {
    hide Total, Accounts, CallResend, FindTransaction, Weigh, WeighDialog;
    AccountsTouch(m, s, s);
    match FindTransaction(s.calls, t)
    case None =>
    case Some((i, jd)) =>
      var c := s.calls[i];
      var initial := c.out == Some(t);
      var live := jd.Some? && c.dialogs[jd.value].leg != NoLeg;
      AccountsCount(m, s, i, jd, initial);
      var s1 := if live then
                  var d := c.dialogs[jd.value];
                  CountResend(SetDialog(s, Call, i, jd.value, d.(retry := d.retry + 1)), i, initial)
                else CountResend(SetContext(s, Call, i, c.(retry := c.retry + 1)), i, initial);
      AccountsCallResend(m, s1, i, jd, t);
      AccountsTrans(m, s, s1, CallResend(s1, i, jd, t));
  }

  lemma AccountsRequestInCall(m: Measure, s: State, i: nat, j: nat, verb: Method, valid: bool)
    requires Proper(m) && s.staticId >= 1 && HasDialog(s, Call, i, j)
    ensures Accounts(m, s, RequestInCall(s, i, j, verb, valid))
  {
    AccountsStray(m, s, Incoming(s, verb, None));
    AccountsAcceptInDialog(m, s, Call, i, j, verb, true);
    var s1 := AcceptInDialog(s, Call, i, j, BYE, false);
    AccountsAcceptInDialog(m, s, Call, i, j, BYE, false);
    AccountsClearLeg(m, s1, Call, i, j);
    AccountsTrans(m, s, s1, ClearLeg(s1, Call, i, j));
    ThenUpdate(m, s, ClearLeg(s1, Call, i, j));
  }

  // ---------------------------------------------------------------- subscriptions, notifications, publications

  lemma AccountsSubscribeResend(m: Measure, s: State, i: nat, jd: Option<nat>, t: nat)
    requires Proper(m) && s.staticId >= 1 && t in s.trs
    requires i < |s.subs| && (jd.Some? ==> jd.value < |s.subs[i].dialogs|)
    ensures Accounts(m, s, SubscribeResend(s, i, jd, t))
  {
    hide Update, SendInDialog, Total, Accounts;
    var c := s.subs[i];
    AccountsTouch(m, s, s);
    if c.out == Some(t) {
      var ref := if jd.Some? then Some(c.dialogs[jd.value].ref) else None;
      var tr := Outgoing(s, s.trs[t].verb, Some(Jinfo(Subscription, c.ref, ref)));
      AccountsReplaceOut(m, s, Subscription, i, t, tr);
      ThenUpdate(m, s, SetContext(Discard(Launch(s, tr), t), Subscription, i, c.(out := Some(s.nextTid))));
    } else if jd.Some? {
      AccountsSendInDialog(m, s, Subscription, i, jd.value, s.trs[t].verb);
      ThenUpdate(m, s, SendInDialog(s, Subscription, i, jd.value, s.trs[t].verb));
    }
  }

  lemma AccountsRetrySubscribe(m: Measure, s: State, t: nat)
    requires Proper(m) && s.staticId >= 1 && t in s.trs
    ensures Accounts(m, s, RetrySubscribe(s, t))
  {
    hide Total, Accounts, SubscribeResend, FindTransaction, Weigh, WeighDialog;
    AccountsTouch(m, s, s);
    match FindTransaction(s.subs, t)
    case None =>
    case Some((i, jd)) =>
      var c := s.subs[i];
      var s1 := SetContext(s, Subscription, i, c.(retry := c.retry + 1));
      WeighCounters(m, c, c.retry + 1, c.resent);
      AccountsSetContext(m, s, Subscription, i, c.(retry := c.retry + 1));
      if jd.Some? && c.dialogs[jd.value].leg != NoLeg {
        var d := c.dialogs[jd.value];
        s1 := SetDialog(s, Subscription, i, jd.value, d.(retry := d.retry + 1));
        WeighRetry(m, d, d.retry + 1);
        AccountsSetDialog(m, s, Subscription, i, jd.value, d.(retry := d.retry + 1));
      }
      AccountsSubscribeResend(m, s1, i, jd, t);
      AccountsTrans(m, s, s1, SubscribeResend(s1, i, jd, t));
  }

  lemma AccountsNotifyForSubscription(m: Measure, s: State, i: nat, j: nat, valid: bool, terminated: bool)
    requires Proper(m) && s.staticId >= 1 && HasDialog(s, Subscription, i, j)
    ensures Accounts(m, s, NotifyForSubscription(s, i, j, valid, terminated))
  {
    AccountsStray(m, s, Incoming(s, NOTIFY, None));
    AccountsAcceptInDialog(m, s, Subscription, i, j, NOTIFY, true);
    AccountsFreeContext(m, Reject(s, NOTIFY), Subscription, i);
    AccountsTrans(m, s, Reject(s, NOTIFY), FreeContext(Reject(s, NOTIFY), Subscription, i));
  }

  lemma AccountsFirstNotify(m: Measure, s: State, i: nat, leg: Leg, valid: bool, terminated: bool)
    requires Proper(m) && s.staticId >= 1
    ensures Accounts(m, s, FirstNotify(s, i, leg, valid, terminated))
  {
    hide Total, Accounts, Update, NotifyForSubscription;
    AccountsLose(m, s, Incoming(s, NOTIFY, None));
    if i >= |s.subs| || leg == NoLeg {
      AccountsTouch(m, s, s);
    } else {
      var s1 := AddDialog(s, Subscription, i, leg);
      UpdateKeepsShape(s1);
      assert SameContexts(List(s1, Subscription), List(Update(s1), Subscription));
      assert SameContext(s1.subs[i], Update(s1).subs[i]);
      AccountsAddDialog(m, s, Subscription, i, leg);
      ThenUpdate(m, s, s1);
      AccountsGrow(m, s, Update(s1));
      AccountsNotifyForSubscription(m, Update(s1), i, 0, valid, terminated);
      AccountsTrans(m, s, Update(s1), NotifyForSubscription(Update(s1), i, 0, valid, terminated));
    }
  }

  lemma TotalPubs(m: Measure, s: State, ps: seq<Publication>)
    ensures Total(m, s.(pubs := ps)) + WeighPubs(m, s.pubs) == Total(m, s) + WeighPubs(m, ps)
  {
  }

  lemma TotalSweep(m: Measure, s: State, pubs: seq<Publication>)
    ensures Total(m, Sweep(s, pubs)) + WeighPubs(m, s.pubs) == Total(m, s) + WeighPubs(m, pubs)
    ensures var r := Sweep(s, pubs); r == s.(pubs := r.pubs, garbage := r.garbage)
    decreases |pubs|
  {
    hide Total;
    if pubs == [] {
      TotalPubs(m, s, []);
    } else if s.now - pubs[0].expires > 60 {
      var s1 := if pubs[0].last.Some? then Discard(s, pubs[0].last.value) else s;
      TotalSweep(m, s1, pubs[1..]);
      if pubs[0].last.Some? { TotalDiscard(m, s, pubs[0].last.value); }
    } else {
      TotalSweep(m, s, pubs[1..]);
      var r := Sweep(s, pubs[1..]);
      TotalPubs(m, r, [pubs[0]] + r.pubs);
      assert ([pubs[0]] + r.pubs)[1..] == r.pubs;
    }
  }

  lemma AccountsReplacePub(m: Measure, s: State, p: nat)
    requires s.staticId >= 1 && p < |s.pubs|
    ensures Accounts(m, s, ReplacePub(s, p))
  {
    hide WeighAll, Count;
    var prev := s.pubs[p].last;
    var s1 := Launch(s, Outgoing(s, PUBLISH, None));
    if prev.Some? { TotalDiscard(m, s1, prev.value); }
    WeighPubsSet(m, s.pubs, p, s.pubs[p].(last := Some(s.nextTid)));
  }

  lemma AccountsPublish(m: Measure, s: State, aor: string, period: int)
    requires s.staticId >= 1
    ensures Accounts(m, s, Publish(s, aor, period))
  {
    hide Update, ReplacePub, Sweep;
    var s1 := Sweep(s, s.pubs);
    TotalSweep(m, s, s.pubs);
    match FindAor(s1.pubs, aor)
    case Some(p) =>
      AccountsReplacePub(m, s1, p);
      AccountsTrans(m, s, s1, ReplacePub(s1, p));
    case None =>
      var pub := Publication(aor, s.now + period, None);
      var s2 := s1.(pubs := [pub] + s1.pubs);
      assert ([pub] + s1.pubs)[1..] == s1.pubs;
      AccountsReplacePub(m, s2, 0);
      AccountsTrans(m, s, s2, ReplacePub(s2, 0));
  }

  lemma AccountsDefaultAction(m: Measure, s: State, owner: Owner, t: nat)
    requires Proper(m) && s.staticId >= 1
    ensures Accounts(m, s, DefaultAction(s, owner, t))
  {
    hide Total, Accounts, Update, RetryCall, RetrySubscribe, CallResend, SendInDialog, ReplacePub;
    AccountsTouch(m, s, s);
    if t in s.trs {
      AccountsRetryCall(m, s, t);
      AccountsRetrySubscribe(m, s, t);
      match FindTransaction(s.notifies, t) {
        case Some((i, Some(j))) =>
          AccountsSendInDialog(m, s, Notification, i, j, s.trs[t].verb);
          ThenUpdate(m, s, SendInDialog(s, Notification, i, j, s.trs[t].verb));
        case _ =>
      }
      match FindPub(s.pubs, t) {
        case Some(p) => AccountsReplacePub(m, s, p); ThenUpdate(m, s, ReplacePub(s, p));
        case None =>
      }
      AccountsStray(m, s, Outgoing(s, s.trs[t].verb, None));
      ThenUpdate(m, s, Discard(Launch(s, Outgoing(s, s.trs[t].verb, None)), s.nextTid));
      match FindTransaction(s.calls, t) {
        case Some((i, jd)) => AccountsCallResend(m, s, i, jd, t);
        case None =>
      }
    }
  }

  // ---------------------------------------------------------------- callbacks

  lemma AccountsResetRetries(m: Measure, s: State, i: nat, ji: Jinfo)
    requires s.staticId >= 1 && i < |List(s, ji.kind)|
    ensures Accounts(m, s, ResetRetries(s, i, ji))
  {
    hide Total, Accounts, WeighDialogs, FindDialogRef;
    var c := List(s, ji.kind)[i];
    var jd := if ji.dialog.Some? then FindDialogRef(c.dialogs, ji.dialog.value) else None;
    if jd.Some? { WeighDialogsSet(m, c.dialogs, jd.value, c.dialogs[jd.value].(retry := 0)); }
    var c1 := if ji.kind == Notification then c else c.(retry := 0, resent := 0, success := true);
    AccountsSetContext(m, s, ji.kind, i,
      if jd.Some? then c1.(dialogs := c.dialogs[jd.value := c.dialogs[jd.value].(retry := 0)]) else c1);
  }

  lemma AccountsOnProvisional(m: Measure, s: State, t: nat, i: nat, ji: Jinfo, code: nat, f: Facts)
    requires Proper(m) && s.staticId >= 1 && t in s.trs && i < |List(s, ji.kind)|
    ensures Accounts(m, s, OnProvisional(s, t, i, ji, code, f))
  {
    var r := OnProvisional(s, t, i, ji, code, f);
    AccountsStartDialog(m, s, t, i, ji, EarlyLeg);
    if r == s.(trs := r.trs) { AccountsTouch(m, s, r); }
  }

  lemma AccountsOnSuccess(m: Measure, s: State, t: nat, i: nat, ji: Jinfo, f: Facts)
    requires Proper(m) && s.staticId >= 1 && t in s.trs && i < |List(s, ji.kind)|
    ensures Accounts(m, s, OnSuccess(s, t, i, ji, f))
  {
    hide Total, Update, FreeContext, ResponseDialog, StartDialog;
    var s1 := ResetRetries(s, i, ji);
    AccountsResetRetries(m, s, i, ji);
    var r := OnSuccess(s, t, i, ji, f);
    if OpensDialog(s.trs[t].verb) {
      match ResponseDialog(List(s1, ji.kind)[i], ji, s.trs[t].verb, f)
      case Some(j) =>
        var d := DialogAt(s1, ji.kind, i, j);
        var s2 := SetDialog(s1, ji.kind, i, j, d.(leg := ConfirmedBy(d.leg, s.trs[t].verb, f)));
        AccountsSetDialog(m, s1, ji.kind, i, j, d.(leg := ConfirmedBy(d.leg, s.trs[t].verb, f)));
        AccountsTouch(m, s2, r);
        AccountsTrans(m, s, s1, s2);
        AccountsTrans(m, s, s2, r);
      case None =>
        AccountsStartDialog(m, s1, t, i, ji, ConfirmedLeg);
        AccountsTouch(m, s1, s1);
        AccountsTrans(m, s, s1, r);
    } else if s.trs[t].verb == NOTIFY && ji.kind == Notification && f.over {
      AccountsFreeContext(m, s1, Notification, i);
      AccountsTrans(m, s, s1, r);
    }
  }

  lemma AccountsOnFailure(m: Measure, s: State, t: nat, i: nat, ji: Jinfo)
    requires Proper(m) && s.staticId >= 1 && t in s.trs && i < |List(s, ji.kind)|
    ensures Accounts(m, s, OnFailure(s, t, i, ji))
  {
    AccountsTouch(m, s, s);
    if ji.dialog.Some? {
      var jd := FindDialogRef(List(s, ji.kind)[i].dialogs, ji.dialog.value);
      if jd.Some? {
        AccountsClearLeg(m, s, ji.kind, i, jd.value);
        ThenUpdate(m, s, ClearLeg(s, ji.kind, i, jd.value));
      }
    }
  }

  lemma AccountsRespond(m: Measure, s: State, t: nat, code: nat, f: Facts)
    requires Proper(m) && s.staticId >= 1
    ensures Accounts(m, s, Respond(s, t, code, f))
  {
    hide Total;
    var r := Respond(s, t, code, f);
    AccountsTouch(m, s, s);
    if t in s.trs && !s.trs[t].incoming && s.trs[t].phase == Pending && 100 <= code < 700 {
      var s1 := SetProgress(s, t, ClientPhase(s.trs[t].verb, code), code);
      AccountsTouch(m, s, s1);
      if s.trs[t].jinfo.Some? {
        var ji := s.trs[t].jinfo.value;
        match FindRef(List(s1, ji.kind), ji.ctx)
        case None =>
        case Some(i) =>
          if code < 200 { AccountsOnProvisional(m, s1, t, i, ji, code, f); }
          else if code < 300 { AccountsOnSuccess(m, s1, t, i, ji, f); }
          else { AccountsOnFailure(m, s1, t, i, ji); }
          AccountsTrans(m, s, s1, r);
      }
    }
  }

  lemma AccountsAnswer(m: Measure, s: State, k: Kind, t: nat, code: nat)
    requires Proper(m) && s.staticId >= 1
    ensures Accounts(m, s, Answer(s, k, t, code))
  {
    hide Total, Accounts, Update;
    AccountsTouch(m, s, s);
    AccountsUpdate(m, s);
    match FindTransaction(List(s, k), t)
    case Some((i, Some(j))) =>
      var d := DialogAt(s, k, i, j);
      if d.leg != NoLeg {
        AccountsSetDialog(m, s, k, i, j, d.(leg := ConfirmedLeg));
        ThenUpdate(m, s, SetDialog(s, k, i, j, d.(leg := ConfirmedLeg)));
      }
    case _ =>
  }

  lemma AccountsAnswerSent(m: Measure, s: State, t: nat, code: nat)
    requires Proper(m) && s.staticId >= 1
    ensures Accounts(m, s, AnswerSent(s, t, code))
  {
    AccountsTouch(m, s, s);
    if t in s.trs {
      var s1 := SetProgress(s, t, ClientPhase(s.trs[t].verb, code), code);
      AccountsTouch(m, s, s1);
      if s.trs[t].jinfo.Some? {
        var ji := s.trs[t].jinfo.value;
        match FindRef(List(s1, ji.kind), ji.ctx)
        case None =>
        case Some(i) =>
          AccountsOnFailure(m, s1, t, i, ji);
          AccountsTrans(m, s, s1, OnFailure(s1, t, i, ji));
      }
    }
  }

  lemma AccountsKill(m: Measure, s: State, t: nat, f: Facts)
    requires Proper(m) && s.staticId >= 1
    ensures Accounts(m, s, Kill(s, t, f))
  {
    AccountsTouch(m, s, s);
    if t in s.trs {
      var s1 := SetProgress(s, t, Terminated, s.trs[t].response);
      AccountsTouch(m, s, s1);
      if s.trs[t].jinfo.Some? {
        var ji := s.trs[t].jinfo.value;
        match FindRef(List(s1, ji.kind), ji.ctx)
        case None =>
        case Some(i) =>
          AccountsFreeContext(m, s1, ji.kind, i);
          AccountsTrans(m, s, s1, FreeContext(s1, ji.kind, i));
      }
    }
  }

  // ---------------------------------------------------------------- release

  lemma AccountsReleaseDialog(m: Measure, s: State, i: nat, j: nat)
    requires Proper(m) && s.staticId >= 1
    ensures Accounts(m, s, ReleaseDialog(s, i, j))
  {
    AccountsTouch(m, s, s);
    if HasDialog(s, Call, i, j) {
      var c, ref := s.calls[i], s.calls[i].dialogs[j].ref;
      var s1 := Unlink(Unlink(s, c.inc, ref), c.out, ref);
      AccountsTouch(m, s, s1);
      AccountsDropDialog(m, s1, Call, i, j);
      AccountsTrans(m, s, s1, DropDialog(s1, Call, i, j));
    }
  }

  lemma CountRemoved(ts: seq<nat>, t: nat, x: nat)
    requires t in ts
    ensures Count(Removed(ts, t), x) + Bit(x == t) == Count(ts, x)
  {
    CountWithout(ts, Position(ts, t).value, x);
  }

  lemma AccountsDropTransaction(m: Measure, s: State, i: nat, t: nat)
    requires Proper(m) && s.staticId >= 1
    ensures Accounts(m, s, DropTransaction(s, i, t))
  {
    hide HolderOf, WeighAll, WeighDialogs, Count, Removed;
    AccountsTouch(m, s, s);
    if i < |s.calls| {
      match HolderOf(s.calls[i].dialogs, t)
      case None =>
      case Some(j) =>
        var d := s.calls[i].dialogs[j];
        var d1 := if t in d.inc then d.(inc := Removed(d.inc, t)) else d.(out := Removed(d.out, t));
        if m.Held? { if t in d.inc { CountRemoved(d.inc, t, m.t); } else { CountRemoved(d.out, t, m.t); } }
        TotalSetDialog(m, s, Call, i, j, d1);
        TotalDiscard(m, SetDialog(s, Call, i, j, d1), t);
    }
  }

  lemma AccountsReleaseTransaction(m: Measure, s: State, p: nat)
    requires s.staticId >= 1
    ensures Accounts(m, s, ReleaseTransaction(s, p))
  {
    if p < |s.garbage| {
      if m.Held? { CountWithout(s.garbage, p, m.t); }
      assert ([s.garbage[p]] + s.released)[1..] == s.released;
    }
  }

  // ---------------------------------------------------------------- every step, every run

  lemma AccountsTerminate(m: Measure, s: State, cid: int, did: int)
    requires Proper(m) && s.staticId >= 1
    ensures Accounts(m, s, Terminate(s, cid, did))
  {
    hide Total, Accounts, TerminateAt;
    AccountsTouch(m, s, s);
    var p, q := FindDialog(s.calls, did), FindContext(s.calls, cid);
    if p.Some? { AccountsTerminateAt(m, s, p.value.0, Some(p.value.1)); }
    if q.Some? { AccountsTerminateAt(m, s, q.value, None); }
  }

  lemma AccountsApiRequests(m: Measure, s: State, did: int, verb: Method)
    requires Proper(m) && s.staticId >= 1
    ensures Accounts(m, s, CallSendRequest(s, did, verb))
    ensures Accounts(m, s, NotifySendRequest(s, did, verb))
    ensures Accounts(m, s, SendRefresh(s, did))
  {
    hide Total, Accounts, SendInDialog, MaySend;
    AccountsTouch(m, s, s);
    var p, q := FindDialog(s.calls, did), FindDialog(s.notifies, did);
    if p.Some? { AccountsSendInDialog(m, s, Call, p.value.0, p.value.1, verb); }
    if q.Some? { AccountsSendInDialog(m, s, Notification, q.value.0, q.value.1, verb); }
    match FindSubscription(s.subs, did)
    case Some((i, Some(j))) => AccountsSendInDialog(m, s, Subscription, i, j, SUBSCRIBE);
    case _ =>
  }

  lemma AccountsRefreshSubscription(m: Measure, s: State, i: nat, j: nat)
    requires Proper(m) && s.staticId >= 1
    ensures Accounts(m, s, RefreshSubscription(s, i, j))
  {
    hide Total, Accounts, SubscribeResend;
    AccountsTouch(m, s, s);
    if HasDialog(s, Subscription, i, j) {
      var t := if s.subs[i].dialogs[j].out != [] then Some(s.subs[i].dialogs[j].out[0]) else s.subs[i].out;
      if t.Some? && t.value in s.trs { AccountsSubscribeResend(m, s, i, Some(j), t.value); }
    }
  }

  lemma AccountsRequestInDialog(m: Measure, s: State, k: Kind, i: nat, j: nat, verb: Method, valid: bool, over: bool)
    requires Proper(m) && s.staticId >= 1
    ensures Accounts(m, s, RequestInDialog(s, k, i, j, verb, valid, over))
  {
    hide Total, Accounts, RequestInCall, NotifyForSubscription, AcceptInDialog;
    AccountsTouch(m, s, s);
    AccountsStray(m, s, Incoming(s, verb, None));
    if HasDialog(s, k, i, j) {
      match k
      case Call => AccountsRequestInCall(m, s, i, j, verb, valid);
      case Subscription => AccountsNotifyForSubscription(m, s, i, j, valid, over);
      case Notification => AccountsAcceptInDialog(m, s, Notification, i, j, SUBSCRIBE, true);
    }
  }

  lemma AccountsInitial(m: Measure, s: State)
    requires Proper(m) && s.staticId >= 1
    ensures Accounts(m, s, SendInitialInvite(s)) && Accounts(m, s, SendInitialSubscribe(s))
  {
    hide Total, Accounts, Update;
    AccountsNewContext(m, s, Call, Context(s.nextRef, -1, [], None, Some(s.nextTid), 0, 0, false),
                       Outgoing(s, INVITE, Some(Jinfo(Call, s.nextRef, None))));
    AccountsNewContext(m, s, Subscription, Context(s.nextRef, 0, [], None, Some(s.nextTid), 0, 0, false),
                       Outgoing(s, SUBSCRIBE, Some(Jinfo(Subscription, s.nextRef, None))));
  }

  lemma StepAccounts(m: Measure, s: State, e: Step)
    requires Proper(m) && s.staticId >= 1
    ensures Accounts(m, s, Next(s, e))
  {
    hide Total, Accounts, SendInitialInvite, SendInitialSubscribe, CallSendRequest, NotifySendRequest, SendRefresh,
         Terminate, DefaultAction, RefreshSubscription, Publish, Answer, NewIncoming, ProcessCancel, RequestInDialog,
         FirstNotify, Respond, AnswerSent, Kill, ReleaseDialog, FreeContext, DropTransaction, ReleaseTransaction;
    AccountsTouch(m, s, s);
    match e
    case Tick(n) => AccountsTouch(m, s, Next(s, e));
    case DoSendInitialInvite => AccountsInitial(m, s);
    case DoCallSendRequest(did, verb) => AccountsApiRequests(m, s, did, verb);
    case DoTerminate(cid, did) => AccountsTerminate(m, s, cid, did);
    case DoDefaultAction(owner, t) => AccountsDefaultAction(m, s, owner, t);
    case DoSendInitialSubscribe => AccountsInitial(m, s);
    case DoSendRefresh(did) => AccountsApiRequests(m, s, did, SUBSCRIBE);
    case DoRefreshSubscription(i, j) => AccountsRefreshSubscription(m, s, i, j);
    case DoNotifySendRequest(did, verb) => AccountsApiRequests(m, s, did, verb);
    case DoPublish(aor, period) => AccountsPublish(m, s, aor, period);
    case DoSendOutside(verb) => AccountsStray(m, s, Outgoing(s, verb, None));
    case DoAnswer(k, t, code) => AccountsAnswer(m, s, k, t, code);
    case DoNewIncoming(k, ok) => AccountsNewIncoming(m, s, k, ok);
    case DoReject(verb) => AccountsStray(m, s, Incoming(s, verb, None));
    case DoCancel(target, ok, ok487) => AccountsProcessCancel(m, s, target, ok, ok487);
    case DoRequestInDialog(k, i, j, verb, valid, over) => AccountsRequestInDialog(m, s, k, i, j, verb, valid, over);
    case DoFirstNotify(i, leg, valid, over) => AccountsFirstNotify(m, s, i, leg, valid, over);
    case DoRespond(t, code, f) => AccountsRespond(m, s, t, code, f);
    case DoAnswerSent(t, code) => AccountsAnswerSent(m, s, t, code);
    case DoAckReceived(t) => AccountsTouch(m, s, Next(s, e));
    case DoKill(t, f) => AccountsKill(m, s, t, f);
    case DoReleaseDialog(i, j) => AccountsReleaseDialog(m, s, i, j);
    case DoReleaseCall(i) => if i < |s.calls| { AccountsFreeContext(m, s, Call, i); }
    case DoDropTransaction(i, t) => AccountsDropTransaction(m, s, i, t);
    case DoReleaseTransaction(p) => AccountsReleaseTransaction(m, s, p);
  }

  lemma RunAccounts(m: Measure, s: State, es: seq<Step>)
    requires Proper(m) && s.staticId >= 1
    ensures Accounts(m, s, Run(s, es))
    decreases |es|
  {
    hide Total, Next;
    if es == [] {
      AccountsTouch(m, s, s);
    } else {
      StepAccounts(m, s, es[0]);
      RunAccounts(m, Next(s, es[0]), es[1..]);
      AccountsTrans(m, s, Next(s, es[0]), Run(s, es));
    }
  }
}
