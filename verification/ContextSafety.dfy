/** Every step keeps the invariant of ContextInvariants, hence every run does. */
module ContextSafety {
  import opened Wrappers
  import opened Sip
  import opened ContextStore
  import opened ContextAccounting
  import opened ContextRuns
  import opened ContextInvariants

  // ---------------------------------------------------------------- contexts other than calls

  /** A context of another kind is replaced, transactions change only outside the calls. */
  lemma SolidOther(strict: bool, s: State, s': State, k: Kind, i: nat, c: Context)
    requires Solid(strict, s) && k != Call && i < |List(s, k)|
    requires s'.calls == s.calls && List(s', k) == List(s, k)[i := c] && RetryOk(c)
    requires forall k': Kind :: k' != k ==> List(s', k') == List(s, k')
    requires s.nextRef <= s'.nextRef && s'.nextTid == s.nextTid
    requires s'.trs.Keys == s.trs.Keys
    requires forall t :: t in s.trs ==>
               || s'.trs[t] == s.trs[t]
               || (s.trs[t].jinfo.Some? && s.trs[t].jinfo.value.kind != Call && s'.trs[t].jinfo.Some?
                   && s'.trs[t] == s.trs[t].(jinfo := Some(s.trs[t].jinfo.value.(dialog := s'.trs[t].jinfo.value.dialog))))
    ensures Solid(strict, s')
  {
    assert RetriesOk(List(s', k));
    assert k == Subscription ==> List(s', Notification) == List(s, Notification);
    assert k == Notification ==> List(s', Subscription) == List(s, Subscription);
    forall x | 0 <= x < |s.calls| ensures Untouched(s.trs, s'.trs, s.calls[x]) {
      if s.calls[x].out.Some? { SlotFacts(strict, s, x); }
    }
    SolidElsewhere(strict, s, s');
  }

  lemma SolidRespondOther(strict: bool, s: State, t: nat, i: nat, ji: Jinfo, code: nat, f: Facts)
    requires Solid(strict, s) && Distinct(s) && t in s.trs && s.trs[t].jinfo == Some(ji)
    requires ji.kind != Call && i < |List(s, ji.kind)|
    ensures Solid(strict, OnProvisional(s, t, i, ji, code, f))
    ensures Solid(strict, OnSuccess(s, t, i, ji, f))
    ensures Solid(strict, OnFailure(s, t, i, ji))
  {
    hide Distinct, Update, FreeContext, Total, Solid, RetryOk, StartDialog;
    var verb := s.trs[t].verb;
    SolidStartOther(strict, s, t, i, ji, EarlyLeg);
    var jd := ResponseDialog(List(s, ji.kind)[i], ji, verb, f);
    if jd.Some? {
      var d := DialogAt(s, ji.kind, i, jd.value);
      SolidSettle(strict, s, t, i, ji, jd.value, d.leg);
      SetDialogSame(s, ji.kind, i, jd.value);
      SolidClearLeg(strict, s, ji.kind, i, jd.value);
      SolidUpdate(strict, ClearLeg(s, ji.kind, i, jd.value));
    }
    var s1 := ResetRetries(s, i, ji);
    SolidResetRetries(strict, s, i, ji);
    SolidStartOther(strict, s1, t, i, ji, ConfirmedLeg);
    var jd1 := ResponseDialog(List(s1, ji.kind)[i], ji, verb, f);
    if jd1.Some? {
      SolidSettle(strict, s1, t, i, ji, jd1.value, ConfirmedBy(DialogAt(s1, ji.kind, i, jd1.value).leg, verb, f));
    }
    SolidFreeContext(strict, s1, ji.kind, i);
  }

  lemma SetDialogSame(s: State, k: Kind, i: nat, j: nat)
    requires HasDialog(s, k, i, j)
    ensures SetDialog(s, k, i, j, DialogAt(s, k, i, j)) == s
  {
    var c := List(s, k)[i];
    assert c.dialogs[j := c.dialogs[j]] == c.dialogs;
    assert List(s, k)[i := c] == List(s, k);
  }

  lemma SolidStartOther(strict: bool, s: State, t: nat, i: nat, ji: Jinfo, leg: Leg)
    requires Solid(strict, s) && t in s.trs && s.trs[t].jinfo == Some(ji) && ji.kind != Call && i < |List(s, ji.kind)|
    ensures Solid(strict, StartDialog(s, t, i, ji, leg))
  {
    hide Update, Solid;
    var c := List(s, ji.kind)[i];
    CounterOf(strict, s, ji.kind, i);
    var s1 := SetJinfo(AddDialog(s, ji.kind, i, leg), t, Some(ji.(dialog := Some(s.nextRef))));
    var c1 := c.(dialogs := [Dialog(s.nextRef, -1, leg, [], [], 0)] + c.dialogs);
    assert RetryOk(c1) by {
      forall x | 0 <= x < |c1.dialogs| ensures 0 <= c1.dialogs[x].retry <= MAX_RETRY { assert x > 0 ==> c1.dialogs[x] == c.dialogs[x - 1]; }
    }
    SolidOther(strict, s, s1, ji.kind, i, c1);
    SolidUpdate(strict, s1);
  }

  lemma SolidSettle(strict: bool, s: State, t: nat, i: nat, ji: Jinfo, j: nat, leg: Leg)
    requires Solid(strict, s) && t in s.trs && s.trs[t].jinfo == Some(ji) && ji.kind != Call && HasDialog(s, ji.kind, i, j)
    ensures var d := DialogAt(s, ji.kind, i, j);
            Solid(strict, SetJinfo(SetDialog(s, ji.kind, i, j, d.(leg := leg)), t, Some(ji.(dialog := Some(d.ref)))))
  {
    hide Solid;
    var c, d := List(s, ji.kind)[i], DialogAt(s, ji.kind, i, j);
    CounterOf(strict, s, ji.kind, i);
    var c1 := c.(dialogs := c.dialogs[j := d.(leg := leg)]);
    assert RetryOk(c1) by {
      forall x | 0 <= x < |c1.dialogs| ensures 0 <= c1.dialogs[x].retry <= MAX_RETRY { assert 0 <= c.dialogs[x].retry <= MAX_RETRY; }
    }
    SolidOther(strict, s, SetJinfo(SetDialog(s, ji.kind, i, j, d.(leg := leg)), t, Some(ji.(dialog := Some(d.ref)))), ji.kind, i, c1);
  }

  lemma CounterOf(strict: bool, s: State, k: Kind, i: nat)
    requires Solid(strict, s) && i < |List(s, k)|
    ensures RetryOk(List(s, k)[i])
  {
  }

  // ---------------------------------------------------------------- responses within a call

  /** A response, of a transaction that is no initial INVITE, to a request of call `i`. */
  lemma SolidRespondInCall(strict: bool, s: State, t: nat, i: nat, code: nat, f: Facts)
    requires Solid(strict, s) && Distinct(s) && t in s.trs && OutsAvoid(s, [t])
    requires !s.trs[t].incoming && s.trs[t].phase == Pending && 100 <= code < 700
    requires s.trs[t].jinfo.Some? && s.trs[t].jinfo.value.kind == Call
    requires i < |s.calls| && s.calls[i].ref == s.trs[t].jinfo.value.ctx
    ensures var s1 := SetProgress(s, t, ClientPhase(s.trs[t].verb, code), code);
            var ji := s.trs[t].jinfo.value;
            && (code < 200 ==> Solid(strict, OnProvisional(s1, t, i, ji, code, f)))
            && (200 <= code < 300 ==> Solid(strict, OnSuccess(s1, t, i, ji, f)))
            && (300 <= code ==> Solid(strict, OnFailure(s1, t, i, ji)))
  {
    hide Distinct, Solid, Update, CallOk, FreeContext;
    var tr, ji, c := s.trs[t], s.trs[t].jinfo.value, s.calls[i];
    var s1 := SetProgress(s, t, ClientPhase(tr.verb, code), code);
    SolidProgress(strict, s, t, ClientPhase(tr.verb, code), code);
    DistinctTouch(s, s1);
    assert c.out != Some(t) by { assert t in [t]; }
    LinkOf(strict, s, t, i);
    var jd := ResponseDialog(c, ji, tr.verb, f);
    if code < 200 {
      if OpensDialog(tr.verb) {
        if jd.Some? { assert SetJinfo(s1, t, Some(ji.(dialog := Some(c.dialogs[jd.value].ref)))) == s1; }
        else if ji.dialog.None? { SolidStartDialog(strict, s1, t, i, ji, EarlyLeg); }
      }
    } else if code < 300 {
      var s2 := ResetRetries(s1, i, ji);
      SolidResetRetries(strict, s1, i, ji);
      if OpensDialog(tr.verb) {
        FindRecounted(c.dialogs, s2.calls[i].dialogs, ji);
        if jd.Some? {
          var j := jd.value;
          var leg := ConfirmedBy(c.dialogs[j].leg, tr.verb, f);
          if c.out.Some? { SlotFacts(strict, s, i); }
          SolidConfirm(strict, s2, t, i, j, ji, leg);
        } else if ji.dialog.None? {
          SolidStartDialog(strict, s2, t, i, ji, ConfirmedLeg);
        }
      }
    } else if ji.dialog.Some? && jd.Some? {
      SolidClearLeg(strict, s1, Call, i, jd.value);
      SolidUpdate(strict, ClearLeg(s1, Call, i, jd.value));
    }
  }

  lemma LinkOf(strict: bool, s: State, t: nat, i: nat)
    requires Solid(strict, s) && t in s.trs && i < |s.calls| && s.trs[t].jinfo.Some?
    requires Loose(s.trs[t]) ==> s.trs[t].jinfo.value.ctx == s.calls[i].ref
    ensures Loose(s.trs[t]) ==> LinkedTo(t, s.trs[t].jinfo.value, s.calls[i])
  {
  }

  lemma FindRecounted(ds: seq<Dialog>, ds': seq<Dialog>, ji: Jinfo)
    requires |ds'| == |ds| && forall j :: 0 <= j < |ds| ==> ds'[j] == ds[j].(retry := ds'[j].retry)
    ensures ji.dialog.Some? ==> FindDialogRef(ds', ji.dialog.value) == FindDialogRef(ds, ji.dialog.value)
  {
    if ds != [] { FindRecounted(ds[1..], ds'[1..], ji); }
  }

  lemma SolidRespond(strict: bool, s: State, t: nat, code: nat, f: Facts)
    requires Solid(strict, s) && Distinct(s)
    ensures Solid(strict, Respond(s, t, code, f))
  {
    hide Distinct, Solid, OnProvisional, OnSuccess, OnFailure, CallOk;
    if t in s.trs && !s.trs[t].incoming && s.trs[t].phase == Pending && 100 <= code < 700 {
      if i :| 0 <= i < |s.calls| && s.calls[i].out == Some(t) {
        SolidRespondInitial(strict, s, i, code, f);
      } else {
        assert OutsAvoid(s, [t]);
        var s1 := SetProgress(s, t, ClientPhase(s.trs[t].verb, code), code);
        SolidProgress(strict, s, t, ClientPhase(s.trs[t].verb, code), code);
        DistinctTouch(s, s1);
        if s.trs[t].jinfo.Some? {
          var ji := s.trs[t].jinfo.value;
          match FindRef(List(s1, ji.kind), ji.ctx)
          case None =>
          case Some(i) =>
            if ji.kind == Call { SolidRespondInCall(strict, s, t, i, code, f); }
            else { SolidRespondOther(strict, s1, t, i, ji, code, f); }
        }
      }
    }
  }

  // ---------------------------------------------------------------- the other steps

  lemma SolidAddCall(strict: bool, s: State, c: Context, tr: Transaction, refs: nat)
    requires Solid(strict, s) && Distinct(s) && c.ref == s.nextRef && refs >= 1
    requires c.retry == 0 && c.resent == 0 && RetryOk(c)
    requires tr.jinfo.None? || (tr.jinfo.value.kind == Call && tr.jinfo.value.ctx == c.ref)
    requires CallOk(strict, s.trs[s.nextTid := tr], c) && (c.out.None? || c.out == Some(s.nextTid))
    ensures Solid(strict, AddContext(Launch(s, tr), Call, c).(nextRef := s.nextRef + refs))
  {
    hide CallOk, RetryOk;
    var s' := AddContext(Launch(s, tr), Call, c).(nextRef := s.nextRef + refs);
    forall x | 0 <= x < |s'.calls| ensures CallOk(strict, s'.trs, s'.calls[x]) && RetryOk(s'.calls[x]) {
      if x > 0 {
        assert s'.calls[x] == s.calls[x - 1] && SameContext(s.calls[x - 1], s.calls[x - 1]);
        CallOkFrame(strict, s.trs, s'.trs, s.calls[x - 1], s'.calls[x]);
      }
    }
    forall t, x | t in s'.trs && 0 <= x < |s'.calls| && Loose(s'.trs[t]) && s'.trs[t].jinfo.value.ctx == s'.calls[x].ref
      ensures LinkedTo(t, s'.trs[t].jinfo.value, s'.calls[x])
    {
      if x > 0 {
        assert s'.calls[x] == s.calls[x - 1];
        RefBelow(s, Call, x - 1);
        assert t != s.nextTid;
      }
    }
  }

  lemma SolidAddOther(strict: bool, s: State, k: Kind, c: Context, tr: Transaction, refs: nat)
    requires Solid(strict, s) && k != Call && c.ref == s.nextRef && refs >= 1 && RetryOk(c)
    requires tr.jinfo.None? || (tr.jinfo.value.kind == k && tr.jinfo.value.ctx == c.ref)
    ensures Solid(strict, AddContext(Launch(s, tr), k, c).(nextRef := s.nextRef + refs))
  {
    var s' := AddContext(Launch(s, tr), k, c).(nextRef := s.nextRef + refs);
    assert RetriesOk(List(s', k)) by {
      forall x | 0 <= x < |List(s', k)| ensures RetryOk(List(s', k)[x]) { assert x > 0 ==> List(s', k)[x] == List(s, k)[x - 1]; }
    }
    SolidElsewhere(strict, s, s');
  }

  lemma SolidNewIncoming(strict: bool, s: State, k: Kind, ok: bool)
    requires Solid(strict, s) && Distinct(s)
    ensures Solid(strict, NewIncoming(s, k, ok))
  {
    hide Distinct, Solid, Update;
    if k != Subscription {
      var verb := if k == Call then INVITE else SUBSCRIBE;
      if ok {
        var d := Dialog(s.nextRef + 1, -1, EarlyLeg, [], [], 0);
        var c := Context(s.nextRef, if k == Call then -1 else 0, [d], Some(s.nextTid), None, 0, 0, false);
        var tr := Incoming(s, verb, Some(Jinfo(k, s.nextRef, Some(s.nextRef + 1))));
        if k == Call { SolidAddCall(strict, s, c, tr, 2); } else { SolidAddOther(strict, s, k, c, tr, 2); }
        SolidUpdate(strict, AddContext(Launch(s, tr), k, c).(nextRef := s.nextRef + 2));
      } else {
        var tr := Incoming(s, verb, None);
        SolidStray(strict, s, tr);
        if k == Call {
          var c := Context(s.nextRef, -1, [], None, None, 0, 0, false);
          SolidAddCall(strict, s, c, tr, 1);
          SolidGarbage(strict, AddContext(Launch(s, tr), Call, c).(nextRef := s.nextRef + 1), [s.nextTid] + s.garbage);
        }
      }
    }
  }

  lemma SolidGarbage(strict: bool, s: State, garbage: seq<nat>)
    requires Solid(strict, s)
    ensures Solid(strict, s.(garbage := garbage))
  {
    SolidElsewhere(strict, s, s.(garbage := garbage));
  }

  lemma DistinctStray(s: State, tr: Transaction)
    requires Distinct(s)
    ensures Distinct(Discard(Launch(s, tr), s.nextTid))
  {
    forall m: Measure ensures Accounts(m, s, Discard(Launch(s, tr), s.nextTid)) { AccountsStray(m, s, tr); }
    DistinctAfter(s, Discard(Launch(s, tr), s.nextTid));
  }

  lemma SolidTerminateAt(strict: bool, s: State, i: nat, jd: Option<nat>)
    requires Solid(strict, s) && Distinct(s) && i < |s.calls| && (jd.Some? ==> jd.value < |s.calls[i].dialogs|)
    ensures Solid(strict, TerminateAt(s, i, jd))
  {
    hide Distinct, Solid, Update, Total;
    var tr := Outgoing(s, CANCEL, None);
    var s1 := Discard(Launch(s, tr), s.nextTid);
    SolidStray(strict, s, tr);
    DistinctStray(s, tr);
    if jd.Some? {
      SolidClearLeg(strict, s1, Call, i, jd.value);
      SolidUpdate(strict, ClearLeg(s1, Call, i, jd.value));
      var s2 := SendInDialog(s, Call, i, jd.value, BYE);
      RefBelow(s, Call, i);
      SolidSendInDialog(strict, s, Call, i, jd.value, BYE);
      forall m: Measure ensures Accounts(m, s, s2) { CountersPositive(s); AccountsSendInDialog(m, s, Call, i, jd.value, BYE); }
      DistinctAfter(s, s2);
      SolidClearLeg(strict, s2, Call, i, jd.value);
      var s3 := ClearLeg(s2, Call, i, jd.value);
      var s4 := s3.(hangups := [s.calls[i].dialogs[jd.value].ref] + s.hangups);
      SolidAside(strict, s3, s4);
      SolidUpdate(strict, s4);
    }
  }

  lemma CountersPositive(s: State)
    requires Distinct(s)
    ensures s.staticId >= 1 && s.nextTid >= 1
  {
  }

  lemma SolidRequestInCall(strict: bool, s: State, i: nat, j: nat, verb: Method, valid: bool)
    requires Solid(strict, s) && Distinct(s) && HasDialog(s, Call, i, j)
    ensures Solid(strict, RequestInCall(s, i, j, verb, valid))
  {
    hide Distinct, Solid, Update, Total, CallOk;
    SolidStray(strict, s, Incoming(s, verb, None));
    RefBelow(s, Call, i);
    if verb == BYE {
      var s1 := AcceptInDialog(s, Call, i, j, BYE, false);
      SolidAcceptInDialog(strict, s, Call, i, j, BYE, false);
      forall m: Measure ensures Accounts(m, s, s1) { CountersPositive(s); AccountsAcceptInDialog(m, s, Call, i, j, BYE, false); }
      DistinctAfter(s, s1);
      SolidClearLeg(strict, s1, Call, i, j);
      SolidUpdate(strict, ClearLeg(s1, Call, i, j));
    } else {
      if s.calls[i].out.Some? { SlotFacts(strict, s, i); }
      if MayCarry(strict, s, Call, i, verb) { SolidAcceptInDialog(strict, s, Call, i, j, verb, true); }
    }
  }

  lemma SolidCallSendRequest(strict: bool, s: State, did: int, verb: Method)
    requires Solid(strict, s) && Distinct(s) && (strict ==> verb != SUBSCRIBE)
    ensures Solid(strict, CallSendRequest(s, did, verb))
  {
    hide Distinct, Solid, Total, CallOk;
    var p := FindDialog(s.calls, did);
    if p.Some? && MaySend(s, p.value.0, p.value.1, verb) {
      var (i, j) := p.value;
      RefBelow(s, Call, i);
      if s.calls[i].out.Some? { SlotFacts(strict, s, i); }
      SolidSendInDialog(strict, s, Call, i, j, verb);
    }
  }

  /** Changes that touch neither contexts nor transactions. */
  lemma SolidAside(strict: bool, s: State, s': State)
    requires Solid(strict, s)
    requires s' == s.(pubs := s'.pubs, garbage := s'.garbage, released := s'.released, hangups := s'.hangups,
                        byes := s'.byes, doubles := s'.doubles, lost := s'.lost, now := s'.now)
    ensures Solid(strict, s')
  {
    SolidElsewhere(strict, s, s');
  }

  lemma SolidSubscribeResend(strict: bool, s: State, i: nat, jd: Option<nat>, t: nat)
    requires Solid(strict, s) && Distinct(s) && t in s.trs
    requires i < |s.subs| && (jd.Some? ==> jd.value < |s.subs[i].dialogs|)
    ensures Solid(strict, SubscribeResend(s, i, jd, t))
  {
    hide Distinct, Update, Total;
    RefBelow(s, Subscription, i);
    var c := s.subs[i];
    if c.out == Some(t) {
      var ref := if jd.Some? then Some(c.dialogs[jd.value].ref) else None;
      var tr := Outgoing(s, s.trs[t].verb, Some(Jinfo(Subscription, c.ref, ref)));
      var s1 := SetContext(Discard(Launch(s, tr), t), Subscription, i, c.(out := Some(s.nextTid)));
      assert RetryOk(c);
      SolidElsewhere(strict, s, s1);
      SolidUpdate(strict, s1);
    } else if jd.Some? {
      SolidSendInDialog(strict, s, Subscription, i, jd.value, s.trs[t].verb);
      SolidUpdate(strict, SendInDialog(s, Subscription, i, jd.value, s.trs[t].verb));
    }
  }

  /** A counter of subscription `i` advances. */
  lemma SolidCharge(strict: bool, s: State, i: nat, c: Context)
    requires Solid(strict, s) && Distinct(s) && i < |s.subs| && Recounted(s.subs[i], c) && RetryOk(c)
    ensures Solid(strict, SetContext(s, Subscription, i, c)) && Distinct(SetContext(s, Subscription, i, c))
  {
    hide Distinct, Total, CallOk;
    var s1 := SetContext(s, Subscription, i, c);
    SolidElsewhere(strict, s, s1);
    forall m: Measure ensures Accounts(m, s, s1) {
      WeighRecounted(m, s.subs[i].dialogs, c.dialogs);
      CountersPositive(s);
      AccountsSetContext(m, s, Subscription, i, c);
    }
    DistinctAfter(s, s1);
  }

  lemma SolidRetrySubscribe(strict: bool, s: State, t: nat)
    requires Solid(strict, s) && Distinct(s) && t in s.trs
    ensures Solid(strict, RetrySubscribe(s, t))
  {
    hide Distinct, Solid, SubscribeResend, FindTransaction, HolderOf;
    match FindTransaction(s.subs, t)
    case None =>
    case Some((i, jd)) =>
      var c := s.subs[i];
      CounterOf(strict, s, Subscription, i);
      var live := jd.Some? && c.dialogs[jd.value].leg != NoLeg;
      if (if live then c.dialogs[jd.value].retry else c.retry) < MAX_RETRY {
        var c1 := if live then c.(dialogs := c.dialogs[jd.value := c.dialogs[jd.value].(retry := c.dialogs[jd.value].retry + 1)])
                  else c.(retry := c.retry + 1);
        if live { RetryOkSet(c, jd.value, c1.dialogs[jd.value]); }
        SolidCharge(strict, s, i, c1);
        SolidSubscribeResend(strict, SetContext(s, Subscription, i, c1), i, jd, t);
      }
  }

  lemma SolidReplacePub(strict: bool, s: State, p: nat)
    requires Solid(strict, s) && p < |s.pubs|
    ensures Solid(strict, ReplacePub(s, p))
  {
    SolidElsewhere(strict, s, ReplacePub(s, p));
  }

  lemma SolidPublish(strict: bool, s: State, aor: string, period: int)
    requires Solid(strict, s)
    ensures Solid(strict, Publish(s, aor, period))
  {
    hide Solid, ReplacePub, Sweep;
    var s1 := Sweep(s, s.pubs);
    TotalSweep(Held(0), s, s.pubs);
    SolidAside(strict, s, s1);
    var s2 := s1.(pubs := [Publication(aor, s.now + period, None)] + s1.pubs);
    SolidAside(strict, s1, s2);
    SolidReplacePub(strict, s2, 0);
    var p := FindAor(s1.pubs, aor);
    if p.Some? { SolidReplacePub(strict, s1, p.value); }
  }

  lemma SolidDefaultAction(strict: bool, s: State, owner: Owner, t: nat)
    requires Solid(strict, s) && Distinct(s)
    ensures Solid(strict, DefaultAction(s, owner, t))
  {
    hide Distinct, Solid, Update, RetryCall, RetrySubscribe, CallResend, ReplacePub, SendInDialog;
    if t in s.trs {
      if Challenge(s.trs[t].response) {
        match owner
        case Of(Call) => SolidRetryCall(strict, s, t);
        case Of(Subscription) => SolidRetrySubscribe(strict, s, t);
        case Of(Notification) =>
          match FindTransaction(s.notifies, t) {
            case Some((i, Some(j))) =>
              RefBelow(s, Notification, i);
              SolidSendInDialog(strict, s, Notification, i, j, s.trs[t].verb);
              SolidUpdate(strict, SendInDialog(s, Notification, i, j, s.trs[t].verb));
            case _ =>
          }
        case OfPublication =>
          var p := FindPub(s.pubs, t);
          if p.Some? { SolidReplacePub(strict, s, p.value); SolidUpdate(strict, ReplacePub(s, p.value)); }
        case OfNone =>
          var tr := Outgoing(s, s.trs[t].verb, None);
          SolidStray(strict, s, tr);
          SolidUpdate(strict, Discard(Launch(s, tr), s.nextTid));
      } else if 300 <= s.trs[t].response <= 399 && owner == Of(Call) && s.trs[t].verb == INVITE {
        match FindTransaction(s.calls, t)
        case None =>
        case Some((i, jd)) =>
          FoundInSlot(s.calls, t);
          CountersOk(strict, s, i);
          if s.calls[i].out == Some(t) {
            assert s.calls[i := s.calls[i]] == s.calls;
            SolidResendInitial(strict, s, i, s.calls[i], jd, t);
          } else {
            SolidResendInDialog(strict, s, i, jd, t);
          }
      }
    }
  }

  lemma SolidNotifyForSubscription(strict: bool, s: State, i: nat, j: nat, valid: bool, terminated: bool)
    requires Solid(strict, s) && Distinct(s) && HasDialog(s, Subscription, i, j)
    ensures Solid(strict, NotifyForSubscription(s, i, j, valid, terminated))
  {
    hide Distinct, Solid, FreeContext, AcceptInDialog;
    var tr := Incoming(s, NOTIFY, None);
    SolidStray(strict, s, tr);
    DistinctStray(s, tr);
    SolidFreeContext(strict, Reject(s, NOTIFY), Subscription, i);
    RefBelow(s, Subscription, i);
    SolidAcceptInDialog(strict, s, Subscription, i, j, NOTIFY, true);
  }

  lemma SolidFirstNotify(strict: bool, s: State, i: nat, leg: Leg, valid: bool, terminated: bool)
    requires Solid(strict, s) && Distinct(s)
    ensures Solid(strict, FirstNotify(s, i, leg, valid, terminated))
  {
    hide Distinct, Solid, Update, NotifyForSubscription;
    SolidLose(strict, s, Incoming(s, NOTIFY, None));
    if i < |s.subs| && leg != NoLeg {
      var s1 := AddDialog(s, Subscription, i, leg);
      UpdateKeepsShape(s1);
      var c := s.subs[i];
      var c1 := c.(dialogs := [Dialog(s.nextRef, -1, leg, [], [], 0)] + c.dialogs);
      CounterOf(strict, s, Subscription, i);
      assert RetryOk(c1) by {
        forall x | 0 <= x < |c1.dialogs| ensures 0 <= c1.dialogs[x].retry <= MAX_RETRY { assert x > 0 ==> c1.dialogs[x] == c.dialogs[x - 1]; }
      }
      SolidOther(strict, s, s1, Subscription, i, c1);
      SolidUpdate(strict, s1);
      forall m: Measure | Proper(m) ensures Accounts(m, s, Update(s1)) {
        CountersPositive(s);
        AccountsAddDialog(m, s, Subscription, i, leg);
        ThenUpdate(m, s, s1);
      }
      DistinctAfter(s, Update(s1));
      SolidNotifyForSubscription(strict, Update(s1), i, 0, valid, terminated);
    }
  }

  /** The leg of dialog `j` is confirmed by our own answer to transaction `t`. */
  lemma SolidAnswered(strict: bool, s: State, k: Kind, i: nat, j: nat, t: nat)
    requires Solid(strict, s) && Distinct(s) && HasDialog(s, k, i, j) && t in s.trs && s.trs[t].incoming
    requires k == Call ==> s.trs[t].verb == INVITE && DialogAt(s, k, i, j).leg != NoLeg && Owns(s.calls[i], t)
    ensures Solid(strict, SetDialog(s, k, i, j, DialogAt(s, k, i, j).(leg := ConfirmedLeg)))
  {
    hide Distinct, Total, HolderOf;
    var c, d := List(s, k)[i], DialogAt(s, k, i, j);
    var d1 := d.(leg := ConfirmedLeg);
    var s1 := SetDialog(s, k, i, j, d1);
    assert RetryOk(c);
    RetryOkSet(c, j, d1);
    if k != Call { SolidElsewhere(strict, s, s1); }
    else {
      assert CallOk(strict, s.trs, c);
      if c.out.Some? { SlotFacts(strict, s, i); }
      SolidCall(strict, s, s1, i, c.(dialogs := c.dialogs[j := d1]));
    }
  }

  lemma SolidAnswer(strict: bool, s: State, k: Kind, t: nat, code: nat)
    requires Solid(strict, s) && Distinct(s)
    ensures Solid(strict, Answer(s, k, t, code))
  {
    hide Distinct, Solid, Update, FindTransaction, HolderOf;
    SolidUpdate(strict, s);
    if k != Subscription && t in s.trs && s.trs[t].incoming && s.trs[t].phase == Pending {
      match FindTransaction(List(s, k), t)
      case Some((i, Some(j))) =>
        var d := DialogAt(s, k, i, j);
        var s1 := SetDialog(s, k, i, j, d.(leg := ConfirmedLeg));
        if k != Call || (s.trs[t].verb == INVITE && d.leg != NoLeg) {
          SolidAnswered(strict, s, k, i, j, t);
          SolidUpdate(strict, s1);
        }
      case _ =>
    }
  }

  lemma SolidAnswerSent(strict: bool, s: State, t: nat, code: nat)
    requires Solid(strict, s) && Distinct(s)
    ensures Solid(strict, AnswerSent(s, t, code))
  {
    hide Distinct, Solid, Update, CallOk;
    if t in s.trs && s.trs[t].incoming && s.trs[t].phase == Pending && 100 <= code < 700 {
      var s1 := SetProgress(s, t, ClientPhase(s.trs[t].verb, code), code);
      IncomingIsNoOut(strict, s, t);
      SolidProgress(strict, s, t, ClientPhase(s.trs[t].verb, code), code);
      DistinctTouch(s, s1);
      if s.trs[t].jinfo.Some? {
        var ji := s.trs[t].jinfo.value;
        match FindRef(List(s1, ji.kind), ji.ctx)
        case None =>
        case Some(i) =>
          var jd := if ji.dialog.Some? then FindDialogRef(List(s1, ji.kind)[i].dialogs, ji.dialog.value) else None;
          if jd.Some? {
            SolidClearLeg(strict, s1, ji.kind, i, jd.value);
            SolidUpdate(strict, ClearLeg(s1, ji.kind, i, jd.value));
          }
      }
    }
  }

  lemma IncomingIsNoOut(strict: bool, s: State, t: nat)
    requires Solid(strict, s) && t in s.trs && s.trs[t].incoming
    ensures OutsAvoid(s, [t])
  {
    forall i | 0 <= i < |s.calls| && s.calls[i].out.Some? ensures s.calls[i].out.value !in [t] { SlotFacts(strict, s, i); }
  }

  lemma SolidKill(strict: bool, s: State, t: nat, f: Facts)
    requires Solid(strict, s) && Distinct(s)
    ensures Solid(strict, Kill(s, t, f))
  {
    hide Distinct, FreeContext, Total, Weigh, WeighDialogs;
    if t in s.trs && s.trs[t].phase != Terminated {
      var s1 := SetProgress(s, t, Terminated, s.trs[t].response);
      if i :| 0 <= i < |s.calls| && s.calls[i].out == Some(t) {
        SlotFacts(strict, s, i);
        assert CallOk(strict, s.trs, s.calls[i]) && RetryOk(s.calls[i]);
        forall x | 0 <= x < |s.calls| && x != i && s.calls[x].out.Some? ensures Untouched(s.trs, s1.trs, s.calls[x]) {
          OutElsewhere(s, i, x);
        }
        SolidCall(strict, s, s1, i, s.calls[i]);
      } else {
        assert OutsAvoid(s, [t]);
        SolidProgress(strict, s, t, Terminated, s.trs[t].response);
      }
      DistinctTouch(s, s1);
      if s.trs[t].jinfo.Some? {
        var ji := s.trs[t].jinfo.value;
        var i := FindRef(List(s1, ji.kind), ji.ctx);
        if i.Some? { SolidFreeContext(strict, s1, ji.kind, i.value); }
      }
    }
  }

  /** The call once transaction `t`, which is no INVITE, left a list of its dialog `j`. */
  lemma DroppedOk(strict: bool, trs: map<nat, Transaction>, c: Context, j: nat, d: Dialog)
    requires CallOk(strict, trs, c) && RetryOk(c) && j < |c.dialogs|
    requires d == c.dialogs[j].(inc := d.inc, out := d.out)
    requires (forall x :: x in d.inc ==> x in c.dialogs[j].inc) && (forall x :: x in d.out ==> x in c.dialogs[j].out)
    ensures CallOk(strict, trs, c.(dialogs := c.dialogs[j := d])) && RetryOk(c.(dialogs := c.dialogs[j := d]))
  {
  }

  lemma SolidDropTransaction(strict: bool, s: State, i: nat, t: nat)
    requires Solid(strict, s) && Distinct(s)
    ensures Solid(strict, DropTransaction(s, i, t))
  {
    hide Distinct, Total, Weigh, WeighDialogs, Removed, Position, CallOk, RetryOk, HolderOf;
    if i < |s.calls| && t in s.trs && (s.trs[t].verb == BYE || s.trs[t].verb == OTHER("REFER"))
       && s.calls[i].inc != Some(t) && s.calls[i].out != Some(t) {
      match HolderOf(s.calls[i].dialogs, t)
      case None =>
      case Some(j) =>
        var c, d := s.calls[i], s.calls[i].dialogs[j];
        var d1 := if t in d.inc then d.(inc := Removed(d.inc, t)) else d.(out := Removed(d.out, t));
        CallFacts(strict, s, i);
        RemovedKeeps(d.inc, t);
        RemovedKeeps(d.out, t);
        DroppedOk(strict, s.trs, c, j, d1);
        var s1 := Discard(SetDialog(s, Call, i, j, d1), t);
        if c.out.Some? { SlotFacts(strict, s, i); }
        SolidCall(strict, s, s1, i, c.(dialogs := c.dialogs[j := d1]));
    }
  }

  lemma RemovedKeeps(ts: seq<nat>, t: nat)
    ensures forall x :: x in Removed(ts, t) ==> x in ts
    ensures forall x :: x in ts && x != t ==> x in Removed(ts, t)
  {
    match Position(ts, t)
    case None =>
    case Some(p) =>
      forall x | x in ts && x != t ensures x in Removed(ts, t) {
        var y :| 0 <= y < |ts| && ts[y] == x;
        assert Removed(ts, t)[if y < p then y else y - 1] == x;
      }
  }

  // ---------------------------------------------------------------- every step, every run

  /** The one request that weakens the bound on resends: a SUBSCRIBE inside a call. */
  predicate Allowed(strict: bool, e: Step) {
    strict && e.DoCallSendRequest? ==> e.verb != SUBSCRIBE
  }

  lemma SolidInitial(strict: bool, s: State)
    requires Solid(strict, s) && Distinct(s)
    ensures Solid(strict, SendInitialInvite(s)) && Solid(strict, SendInitialSubscribe(s))
  {
    hide Distinct, Solid, Update, CallOk;
    var c := Context(s.nextRef, -1, [], None, Some(s.nextTid), 0, 0, false);
    var tr := Outgoing(s, INVITE, Some(Jinfo(Call, s.nextRef, None)));
    NewCallOk(strict, s.trs[s.nextTid := tr], c);
    SolidAddCall(strict, s, c, tr, 1);
    SolidUpdate(strict, AddContext(Launch(s, tr), Call, c).(nextRef := s.nextRef + 1));
    var c' := Context(s.nextRef, 0, [], None, Some(s.nextTid), 0, 0, false);
    var tr' := Outgoing(s, SUBSCRIBE, Some(Jinfo(Subscription, s.nextRef, None)));
    SolidAddOther(strict, s, Subscription, c', tr', 1);
    SolidUpdate(strict, AddContext(Launch(s, tr'), Subscription, c').(nextRef := s.nextRef + 1));
  }

  lemma SolidLose(strict: bool, s: State, tr: Transaction)
    requires Solid(strict, s) && tr.jinfo.None?
    ensures Solid(strict, Lose(Launch(s, tr), s.nextTid))
  {
    SolidElsewhere(strict, s, Lose(Launch(s, tr), s.nextTid));
  }

  lemma SolidDouble(strict: bool, s: State, t: nat)
    requires Solid(strict, s) && OutsAvoid(s, [t])
    ensures Solid(strict, Double(s, t))
  {
    forall i | 0 <= i < |s.calls| ensures Untouched(s.trs, Double(s, t).trs, s.calls[i]) {
      if s.calls[i].out.Some? { assert s.calls[i].out.value !in [t]; assert t in [t]; }
    }
    SolidElsewhere(strict, s, Double(s, t));
  }

  /** The cancelled transaction came from the network: it is no call's initial INVITE. */
  lemma CancelledIsNoOut(s: State, target: Target)
    requires Distinct(s) && Cancelled(s, target).Some?
    ensures OutsAvoid(s, [Cancelled(s, target).value.1])
  {
    hide Total, Weigh, WeighDialogs;
    var (i, t, jd) := Cancelled(s, target).value;
    forall x | 0 <= x < |s.calls| && s.calls[x].out.Some? ensures s.calls[x].out.value !in [t] {
      OutAlone(s, x);
      match target
      case InitialInvite(_) => if x != i { OutElsewhere(s, i, x); }
      case InviteInDialog(j, _) => OutsAvoidDialog(s, i, j, x);
    }
  }

  lemma SolidKeepCancel(strict: bool, s: State, i: nat, jd: Option<nat>, t: nat)
    requires Solid(strict, s) && Distinct(s) && OutsAvoid(s, [t])
    requires jd.Some? ==> HasDialog(s, Call, i, jd.value)
    ensures Solid(strict, KeepCancel(s, i, jd)) && OutsAvoid(KeepCancel(s, i, jd), [t])
  {
    hide Solid, Distinct;
    var tr := Incoming(s, CANCEL, None);
    SolidStray(strict, s, tr);
    if jd.Some? { SolidReceive(strict, s, Call, i, jd.value, tr); }
  }

  lemma SolidProcessCancel(strict: bool, s: State, target: Target, ok: bool, ok487: bool)
    requires Solid(strict, s) && Distinct(s)
    ensures Solid(strict, ProcessCancel(s, target, ok, ok487))
  {
    hide Solid, Distinct, Cancelled, Double, KeepCancel;
    var tr := Incoming(s, CANCEL, None);
    SolidLose(strict, s, tr);
    SolidStray(strict, s, tr);
    match Cancelled(s, target)
    case None =>
    case Some((i, t, jd)) =>
      CancelledIsNoOut(s, target);
      SolidKeepCancel(strict, s, i, jd, t);
      SolidDouble(strict, KeepCancel(s, i, jd), t);
      SolidDouble(strict, Lose(Launch(s, tr), s.nextTid), t);
  }

  lemma SolidTerminate(strict: bool, s: State, cid: int, did: int)
    requires Solid(strict, s) && Distinct(s)
    ensures Solid(strict, Terminate(s, cid, did))
  {
    hide Distinct, Solid, TerminateAt;
    var p, q := FindDialog(s.calls, did), FindContext(s.calls, cid);
    if p.Some? { SolidTerminateAt(strict, s, p.value.0, Some(p.value.1)); }
    if q.Some? { SolidTerminateAt(strict, s, q.value, None); }
  }

  lemma SolidApiRequests(strict: bool, s: State, did: int, verb: Method)
    requires Solid(strict, s) && Distinct(s)
    ensures Solid(strict, SendRefresh(s, did)) && Solid(strict, NotifySendRequest(s, did, verb))
  {
    hide Distinct, Solid, SendInDialog;
    var p := FindDialog(s.notifies, did);
    if p.Some? {
      RefBelow(s, Notification, p.value.0);
      SolidSendInDialog(strict, s, Notification, p.value.0, p.value.1, verb);
    }
    match FindSubscription(s.subs, did)
    case Some((i, Some(j))) =>
      RefBelow(s, Subscription, i);
      SolidSendInDialog(strict, s, Subscription, i, j, SUBSCRIBE);
    case _ =>
  }

  lemma SolidRefreshSubscription(strict: bool, s: State, i: nat, j: nat)
    requires Solid(strict, s) && Distinct(s)
    ensures Solid(strict, RefreshSubscription(s, i, j))
  {
    hide Distinct, Solid, SubscribeResend;
    if HasDialog(s, Subscription, i, j) {
      var t := if s.subs[i].dialogs[j].out != [] then Some(s.subs[i].dialogs[j].out[0]) else s.subs[i].out;
      if t.Some? && t.value in s.trs { SolidSubscribeResend(strict, s, i, Some(j), t.value); }
    }
  }

  lemma SolidRequestInDialog(strict: bool, s: State, k: Kind, i: nat, j: nat, verb: Method, valid: bool, over: bool)
    requires Solid(strict, s) && Distinct(s)
    ensures Solid(strict, RequestInDialog(s, k, i, j, verb, valid, over))
  {
    hide Distinct, Solid, RequestInCall, NotifyForSubscription, AcceptInDialog;
    SolidStray(strict, s, Incoming(s, verb, None));
    if HasDialog(s, k, i, j) {
      match k
      case Call => SolidRequestInCall(strict, s, i, j, verb, valid);
      case Subscription => SolidNotifyForSubscription(strict, s, i, j, valid, over);
      case Notification =>
        RefBelow(s, Notification, i);
        SolidAcceptInDialog(strict, s, Notification, i, j, SUBSCRIBE, true);
    }
  }

  lemma SolidStep(strict: bool, s: State, e: Step)
    requires Solid(strict, s) && Distinct(s) && Allowed(strict, e)
    ensures Solid(strict, Next(s, e))
  {
    hide Distinct, Solid, SendInitialInvite, SendInitialSubscribe, CallSendRequest, NotifySendRequest, SendRefresh,
         Terminate, DefaultAction, RefreshSubscription, Publish, Answer, NewIncoming, ProcessCancel, RequestInDialog,
         FirstNotify, Respond, AnswerSent, Kill, ReleaseDialog, FreeContext, DropTransaction;
    match e
    case Tick(n) => SolidAside(strict, s, Next(s, e));
    case DoSendInitialInvite => SolidInitial(strict, s);
    case DoCallSendRequest(did, verb) => SolidCallSendRequest(strict, s, did, verb);
    case DoTerminate(cid, did) => SolidTerminate(strict, s, cid, did);
    case DoDefaultAction(owner, t) => SolidDefaultAction(strict, s, owner, t);
    case DoSendInitialSubscribe => SolidInitial(strict, s);
    case DoSendRefresh(did) => SolidApiRequests(strict, s, did, SUBSCRIBE);
    case DoRefreshSubscription(i, j) => SolidRefreshSubscription(strict, s, i, j);
    case DoNotifySendRequest(did, verb) => SolidApiRequests(strict, s, did, verb);
    case DoPublish(aor, period) => SolidPublish(strict, s, aor, period);
    case DoSendOutside(verb) => SolidStray(strict, s, Outgoing(s, verb, None));
    case DoAnswer(k, t, code) => SolidAnswer(strict, s, k, t, code);
    case DoNewIncoming(k, ok) => SolidNewIncoming(strict, s, k, ok);
    case DoReject(verb) => SolidStray(strict, s, Incoming(s, verb, None));
    case DoCancel(target, ok, ok487) => SolidProcessCancel(strict, s, target, ok, ok487);
    case DoRequestInDialog(k, i, j, verb, valid, over) => SolidRequestInDialog(strict, s, k, i, j, verb, valid, over);
    case DoFirstNotify(i, leg, valid, over) => SolidFirstNotify(strict, s, i, leg, valid, over);
    case DoRespond(t, code, f) => SolidRespond(strict, s, t, code, f);
    case DoAnswerSent(t, code) => SolidAnswerSent(strict, s, t, code);
    case DoAckReceived(t) =>
      if t in s.trs && s.trs[t].incoming {
        IncomingIsNoOut(strict, s, t);
        SolidProgress(strict, s, t, Confirmed, s.trs[t].response);
      }
    case DoKill(t, f) => SolidKill(strict, s, t, f);
    case DoReleaseDialog(i, j) =>
      if HasDialog(s, Call, i, j) { SolidReleaseDialog(strict, s, i, j); } else { NoDialogNoRelease(s, i, j); }
    case DoReleaseCall(i) => if i < |s.calls| { SolidFreeContext(strict, s, Call, i); }
    case DoDropTransaction(i, t) => SolidDropTransaction(strict, s, i, t);
    case DoReleaseTransaction(p) => SolidAside(strict, s, Next(s, e));
  }

  lemma NewCallOk(strict: bool, trs: map<nat, Transaction>, c: Context)
    requires c.dialogs == [] && c.inc.None? && c.out.Some? && c.resent == 0 && c.retry == 0 && c.out.value in trs
    requires var o := trs[c.out.value];
             o.verb == INVITE && !o.incoming && o.response == 0 && o.jinfo == Some(Jinfo(Call, c.ref, None))
    ensures CallOk(strict, trs, c)
  {
  }

  lemma NoDialogNoRelease(s: State, i: nat, j: nat)
    requires !HasDialog(s, Call, i, j)
    ensures ReleaseDialog(s, i, j) == s
  {
  }

  lemma DistinctStep(s: State, e: Step)
    requires Distinct(s)
    ensures Distinct(Next(s, e))
  {
    hide Next, Total;
    forall m: Measure | Proper(m) ensures Accounts(m, s, Next(s, e)) { StepAccounts(m, s, e); }
    DistinctAfter(s, Next(s, e));
  }

  lemma {:induction false} SafeRun(strict: bool, s: State, es: seq<Step>)
    requires Solid(strict, s) && Distinct(s) && forall x :: 0 <= x < |es| ==> Allowed(strict, es[x])
    ensures Solid(strict, Run(s, es)) && Distinct(Run(s, es))
    decreases |es|
  {
    hide Next, Total, Solid, Distinct;
    if es != [] {
      SolidStep(strict, s, es[0]);
      DistinctStep(s, es[0]);
      SafeRun(strict, Next(s, es[0]), es[1..]);
    }
  }
}
