/** Which transaction a step creates: its method and direction are decided by the state before
    the step.  Over a run the transactions of a sort are as many as the steps that create one. */
module ContextCreation {
  import opened Wrappers
  import opened Sequences
  import opened Sip
  import opened ContextStore
  import opened ContextAccounting
  import opened ContextRuns
  import opened ContextHistory

  /** Method and direction of a transaction. */
  datatype Sort = Sort(verb: Method, incoming: bool)

  /** The sorts of all transactions ever created. */
  function Sorts(trs: map<nat, Transaction>): map<nat, Sort> {
    map t | t in trs :: Sort(trs[t].verb, trs[t].incoming)
  }

  datatype Deeds = Deeds(next: nat, sorts: map<nat, Sort>)

  function DeedsOf(s: State): Deeds {
    Deeds(s.nextTid, Sorts(s.trs))
  }

  function Adding(d: Deeds, x: Option<Sort>): Deeds {
    if x.Some? then Deeds(d.next + 1, d.sorts[d.next := x.value]) else d
  }

  // ---------------------------------------------------------------- what a step creates

  predicate IsOf(trs: map<nat, Transaction>, t: nat, verb: Method) {
    t in trs && trs[t].verb == verb
  }

  /** No transaction of a list has the method; `t` is the newest one that has it. */
  predicate NoneOf(trs: map<nat, Transaction>, ts: seq<nat>, verb: Method) {
    forall q :: 0 <= q < |ts| ==> !IsOf(trs, ts[q], verb)
  }

  predicate NewestOf(trs: map<nat, Transaction>, ts: seq<nat>, verb: Method, t: nat) {
    exists p :: 0 <= p < |ts| && ts[p] == t && IsOf(trs, ts[p], verb) && NoneOf(trs, ts[..p], verb)
  }

  /** The list of a dialog that takes transactions of a direction, and the slot of its call. */
  function Side(c: Context, jd: Option<nat>, incoming: bool): seq<nat>
    requires jd.Some? ==> jd.value < |c.dialogs|
  {
    if jd.None? then [] else if incoming then c.dialogs[jd.value].inc else c.dialogs[jd.value].out
  }

  function SlotOf(c: Context, incoming: bool): Option<nat> {
    if incoming then c.inc else c.out
  }

  /** The last INVITE of a direction: the newest one in the dialog, else the initial one. */
  predicate LastInvite(trs: map<nat, Transaction>, c: Context, jd: Option<nat>, incoming: bool, t: nat)
    requires jd.Some? ==> jd.value < |c.dialogs|
  {
    var ts := Side(c, jd, incoming);
    NewestOf(trs, ts, INVITE, t) || (NoneOf(trs, ts, INVITE) && SlotOf(c, incoming) == Some(t))
  }

  predicate Rings(trs: map<nat, Transaction>, t: nat) {
    t in trs && 100 <= trs[t].response < 200
  }

  /** The last INVITE of a direction has a provisional answer. */
  ghost predicate Ringing(trs: map<nat, Transaction>, c: Context, jd: Option<nat>, incoming: bool)
    requires jd.Some? ==> jd.value < |c.dialogs|
  {
    exists t: nat :: LastInvite(trs, c, jd, incoming, t) && Rings(trs, t)
  }

  ghost predicate AnyInvite(trs: map<nat, Transaction>, c: Context, jd: Option<nat>, incoming: bool)
    requires jd.Some? ==> jd.value < |c.dialogs|
  {
    exists t: nat :: LastInvite(trs, c, jd, incoming, t)
  }

  lemma NewestFirst(trs: map<nat, Transaction>, ts: seq<nat>, verb: Method, t: nat)
    requires ts != []
    ensures NewestOf(trs, ts, verb, t) <==> if IsOf(trs, ts[0], verb) then ts[0] == t else NewestOf(trs, ts[1..], verb, t)
  {
    assert ts[..0] == [];
    if !IsOf(trs, ts[0], verb) && NewestOf(trs, ts[1..], verb, t) {
      var p :| 0 <= p < |ts[1..]| && ts[1..][p] == t && IsOf(trs, ts[1..][p], verb) && NoneOf(trs, ts[1..][..p], verb);
      assert ts[..p + 1] == [ts[0]] + ts[1..][..p] && ts[p + 1] == t;
    }
    if NewestOf(trs, ts, verb, t) {
      var p :| 0 <= p < |ts| && ts[p] == t && IsOf(trs, ts[p], verb) && NoneOf(trs, ts[..p], verb);
      if p > 0 {
        assert ts[..p][0] == ts[0] && ts[1..][p - 1] == t;
        assert ts[1..][..p - 1] == ts[..p][1..];
      }
    }
  }

  lemma NoneFirst(trs: map<nat, Transaction>, ts: seq<nat>, verb: Method)
    requires ts != []
    ensures NoneOf(trs, ts, verb) <==> !IsOf(trs, ts[0], verb) && NoneOf(trs, ts[1..], verb)
  {
  }

  lemma {:induction false} LatestIsNewest(trs: map<nat, Transaction>, ts: seq<nat>, verb: Method)
    ensures Latest(trs, ts, verb).None? <==> NoneOf(trs, ts, verb)
    ensures forall t: nat :: NewestOf(trs, ts, verb, t) <==> Latest(trs, ts, verb) == Some(t)
  {
    if ts != [] {
      hide NoneOf, NewestOf;
      LatestIsNewest(trs, ts[1..], verb);
      NoneFirst(trs, ts, verb);
      forall t: nat ensures NewestOf(trs, ts, verb, t) <==> Latest(trs, ts, verb) == Some(t) { NewestFirst(trs, ts, verb, t); }
    }
  }

  lemma LastInviteIs(trs: map<nat, Transaction>, c: Context, jd: Option<nat>)
    requires jd.Some? ==> jd.value < |c.dialogs|
    ensures forall t: nat :: LastInvite(trs, c, jd, false, t) <==> LastOutInvite(trs, c, jd) == Some(t)
    ensures forall t: nat :: LastInvite(trs, c, jd, true, t) <==> LastIncInvite(trs, c, jd) == Some(t)
  {
    hide Latest, NewestOf, NoneOf;
    LatestIsNewest(trs, Side(c, jd, false), INVITE);
    LatestIsNewest(trs, Side(c, jd, true), INVITE);
    NothingNew(trs);
  }

  lemma NothingNew(trs: map<nat, Transaction>)
    ensures NoneOf(trs, [], INVITE) && forall t: nat :: !NewestOf(trs, [], INVITE, t)
  {
  }

  lemma RingingIs(trs: map<nat, Transaction>, c: Context, jd: Option<nat>)
    requires jd.Some? ==> jd.value < |c.dialogs|
    ensures Ringing(trs, c, jd, false) <==> Provisional(trs, LastOutInvite(trs, c, jd))
    ensures Ringing(trs, c, jd, true) <==> Provisional(trs, LastIncInvite(trs, c, jd))
    ensures AnyInvite(trs, c, jd, false) <==> LastOutInvite(trs, c, jd).Some?
  {
    hide LastOutInvite, LastIncInvite, LastInvite;
    LastInviteIs(trs, c, jd);
    var o, i := LastOutInvite(trs, c, jd), LastIncInvite(trs, c, jd);
    assert o.Some? ==> LastInvite(trs, c, jd, false, o.value);
    assert i.Some? ==> LastInvite(trs, c, jd, true, i.value);
  }

  /** What eXosip_call_terminate is about: a dialog, or a call without one. */
  function Addressed(s: State, cid: int, did: int): (r: Option<(nat, Option<nat>)>)
    ensures r.Some? ==> r.value.0 < |s.calls| && (r.value.1.Some? ==> HasDialog(s, Call, r.value.0, r.value.1.value))
  {
    if did > 0 then (match FindDialog(s.calls, did) case None => None case Some((i, j)) => Some((i, Some(j))))
    else (match FindContext(s.calls, cid) case None => None case Some(i) => Some((i, None)))
  }

  /** What eXosip_call_terminate does: nothing, CANCEL, or BYE. */
  datatype Ending = Nothing | Cancelling | Hanging

  ghost function EndingOf(s: State, cid: int, did: int): (r: Ending)
    ensures r != Nothing ==> Addressed(s, cid, did).Some?
  {
    match Addressed(s, cid, did)
    case None => Nothing
    case Some((i, jd)) =>
      var c := s.calls[i];
      if Ringing(s.trs, c, jd, false) then Cancelling
      else if jd.None? || c.dialogs[jd.value].leg == NoLeg then Nothing
      else if !AnyInvite(s.trs, c, jd, false) && Ringing(s.trs, c, jd, true) then Nothing
      else Hanging
  }

  /** Whether a transaction found in a list of contexts may be retried with credentials. */
  predicate Retriable(cs: seq<Context>, t: nat) {
    match FindTransaction(cs, t)
    case None => false
    case Some((i, jd)) => RetryLeft(cs[i], jd) && (cs[i].out == Some(t) || jd.Some?)
  }

  predicate Redirected(s: State, t: nat) {
    match FindTransaction(s.calls, t)
    case None => false
    case Some((i, jd)) => s.calls[i].out == Some(t) || jd.Some?
  }

  /** Whether eXosip_default_action sends a request again. */
  predicate SentAgain(s: State, owner: Owner, t: nat) {
    t in s.trs &&
    if Challenge(s.trs[t].response) then
      match owner
      case Of(Call) => Retriable(s.calls, t)
      case Of(Subscription) => Retriable(s.subs, t)
      case Of(Notification) =>
        var at := FindTransaction(s.notifies, t);
        at.Some? && at.value.1.Some?
      case OfPublication => exists p :: 0 <= p < |s.pubs| && s.pubs[p].last == Some(t)
      case OfNone => (t in s.garbage || t in s.doubles) && s.trs[t].jinfo.None?
    else 300 <= s.trs[t].response <= 399 && owner == Of(Call) && s.trs[t].verb == INVITE && Redirected(s, t)
  }

  predicate Refreshed(s: State, did: int) {
    did > 0 &&
    match FindSubscription(s.subs, did)
    case Some((i, Some(j))) =>
      var phase := PhaseOf(s.trs, OrElse(Latest(s.trs, s.subs[i].dialogs[j].out, SUBSCRIBE), s.subs[i].out));
      phase == Terminated || phase == Completed
    case _ => false
  }

  /** The transaction that a timed refresh of a dialog repeats. */
  function Repeated(s: State, i: nat, j: nat): Option<nat> {
    if !HasDialog(s, Subscription, i, j) then None
    else
      var d := s.subs[i].dialogs[j];
      var t := if d.out != [] then Some(d.out[0]) else s.subs[i].out;
      if d.leg != NoLeg && d.id >= 1 && t.Some? && t.value in s.trs && s.trs[t.value].response != 0 then t else None
  }

  /** The transaction that a step creates. */
  ghost function Creates(s: State, e: Step): Option<Sort> {
    match e
    case DoSendInitialInvite => Some(Sort(INVITE, false))
    case DoSendInitialSubscribe => Some(Sort(SUBSCRIBE, false))
    case DoPublish(_, _) => Some(Sort(PUBLISH, false))
    case DoSendOutside(verb) => Some(Sort(verb, false))
    case DoCallSendRequest(_, verb) => if RequestedBy(s, e).Some? then Some(Sort(verb, false)) else None
    case DoNotifySendRequest(_, verb) => if RequestedBy(s, e).Some? then Some(Sort(verb, false)) else None
    case DoTerminate(cid, did) =>
      (match EndingOf(s, cid, did)
       case Nothing => None
       case Cancelling => Some(Sort(CANCEL, false))
       case Hanging => Some(Sort(BYE, false)))
    case DoDefaultAction(owner, t) =>
      if SentAgain(s, owner, t) then Some(Sort(if owner == OfPublication then PUBLISH else s.trs[t].verb, false)) else None
    case DoSendRefresh(did) => if Refreshed(s, did) then Some(Sort(SUBSCRIBE, false)) else None
    case DoRefreshSubscription(i, j) =>
      if Repeated(s, i, j).Some? then Some(Sort(s.trs[Repeated(s, i, j).value].verb, false)) else None
    case DoNewIncoming(k, _) =>
      if k == Subscription then None else Some(Sort(if k == Call then INVITE else SUBSCRIBE, true))
    case DoReject(verb) => Some(Sort(verb, true))
    case DoCancel(_, _, _) => Some(Sort(CANCEL, true))
    case DoRequestInDialog(k, i, j, verb, _, _) =>
      if HasDialog(s, k, i, j) && DialogAt(s, k, i, j).leg != NoLeg then Some(Sort(verb, true)) else None
    case DoFirstNotify(i, _, _, _) => if i < |s.subs| then Some(Sort(NOTIFY, true)) else None
    case _ => None
  }

  // ---------------------------------------------------------------- primitive changes

  lemma SameSorts(a: map<nat, Transaction>, b: map<nat, Transaction>)
    requires a.Keys == b.Keys && forall t :: t in a ==> b[t].verb == a[t].verb && b[t].incoming == a[t].incoming
    ensures Sorts(a) == Sorts(b)
  {
  }

  lemma DeedsLaunch(s: State, tr: Transaction)
    ensures DeedsOf(Launch(s, tr)) == Adding(DeedsOf(s), Some(Sort(tr.verb, tr.incoming)))
  {
    assert Sorts(s.trs[s.nextTid := tr]) == Sorts(s.trs)[s.nextTid := Sort(tr.verb, tr.incoming)];
  }

  lemma DeedsSetJinfo(s: State, t: nat, ji: Option<Jinfo>)
    ensures DeedsOf(SetJinfo(s, t, ji)) == DeedsOf(s)
  {
    SameSorts(s.trs, SetJinfo(s, t, ji).trs);
  }

  lemma DeedsProgress(s: State, t: nat, phase: Phase, code: nat)
    requires t in s.trs
    ensures DeedsOf(SetProgress(s, t, phase, code)) == DeedsOf(s)
  {
    SameSorts(s.trs, SetProgress(s, t, phase, code).trs);
  }

  lemma DeedsUpdate(s: State)
    ensures DeedsOf(Update(s)) == DeedsOf(s)
  {
    hide Update;
    UpdateKeepsShape(s);
  }

  lemma DeedsFreeDialog(s: State, d: Dialog)
    ensures DeedsOf(FreeDialog(s, d)) == DeedsOf(s)
  {
    hide Update;
    var s1 := s.(garbage := Reversed(d.out) + Reversed(d.inc) + s.garbage, trs := ForgetAll(s.trs, d.inc + d.out));
    SameSorts(s.trs, s1.trs);
    DeedsUpdate(s1);
  }

  lemma DeedsFreeDialogs(s: State, ds: seq<Dialog>)
    ensures DeedsOf(FreeDialogs(s, ds)) == DeedsOf(s)
    decreases |ds|
  {
    hide FreeDialog;
    if ds != [] {
      DeedsFreeDialog(s, ds[0]);
      DeedsFreeDialogs(FreeDialog(s, ds[0]), ds[1..]);
    }
  }

  lemma DeedsFreeContext(s: State, k: Kind, i: nat)
    requires i < |List(s, k)|
    ensures DeedsOf(FreeContext(s, k, i)) == DeedsOf(s)
  {
    hide FreeDialogs;
    var c := List(s, k)[i];
    DeedsFreeDialogs(RemoveContext(s, k, i), c.dialogs);
    var s1 := FreeDialogs(RemoveContext(s, k, i), c.dialogs);
    if c.inc.Some? { DeedsSetJinfo(s1, c.inc.value, None); }
    var s2 := DiscardSlot(s1, c.inc);
    if c.out.Some? { DeedsSetJinfo(s2, c.out.value, None); }
  }

  lemma DeedsSweep(s: State, ps: seq<Publication>)
    ensures DeedsOf(Sweep(s, ps)) == DeedsOf(s)
    decreases |ps|
  {
    if ps != [] {
      if s.now - ps[0].expires > 60 {
        DeedsSweep(if ps[0].last.Some? then Discard(s, ps[0].last.value) else s, ps[1..]);
      } else {
        DeedsSweep(s, ps[1..]);
      }
    }
  }

  lemma DeedsSendInDialog(s: State, k: Kind, i: nat, j: nat, verb: Method)
    requires HasDialog(s, k, i, j)
    ensures DeedsOf(SendInDialog(s, k, i, j, verb)) == Adding(DeedsOf(s), Some(Sort(verb, false)))
  {
    var c, d := List(s, k)[i], DialogAt(s, k, i, j);
    DeedsLaunch(s, Outgoing(s, verb, Some(Jinfo(k, c.ref, Some(d.ref)))));
  }

  lemma DeedsReceive(s: State, k: Kind, i: nat, j: nat, tr: Transaction)
    requires HasDialog(s, k, i, j)
    ensures DeedsOf(Receive(s, k, i, j, tr)) == Adding(DeedsOf(s), Some(Sort(tr.verb, tr.incoming)))
  {
    DeedsLaunch(s, tr);
  }

  lemma DeedsStray(s: State, verb: Method)
    ensures DeedsOf(SendOutside(s, verb)) == Adding(DeedsOf(s), Some(Sort(verb, false)))
    ensures DeedsOf(Reject(s, verb)) == Adding(DeedsOf(s), Some(Sort(verb, true)))
  {
    DeedsLaunch(s, Outgoing(s, verb, None));
    DeedsLaunch(s, Incoming(s, verb, None));
  }

  // ---------------------------------------------------------------- every step

  lemma EndingIs(s: State, cid: int, did: int)
    ensures match Addressed(s, cid, did)
            case None => EndingOf(s, cid, did) == Nothing
            case Some((i, jd)) =>
              var c := s.calls[i];
              var out := LastOutInvite(s.trs, c, jd);
              EndingOf(s, cid, did) ==
                if Provisional(s.trs, out) then Cancelling
                else if jd.None? || c.dialogs[jd.value].leg == NoLeg then Nothing
                else if out.None? && Provisional(s.trs, LastIncInvite(s.trs, c, jd)) then Nothing
                else Hanging
  {
    hide LastOutInvite, LastIncInvite, Ringing, AnyInvite, Provisional, FindDialog, FindContext;
    var at := Addressed(s, cid, did);
    if at.Some? { RingingIs(s.trs, s.calls[at.value.0], at.value.1); }
  }

  lemma DeedsTerminate(s: State, cid: int, did: int)
    ensures DeedsOf(Terminate(s, cid, did)) == Adding(DeedsOf(s), Creates(s, DoTerminate(cid, did)))
  {
    hide DeedsOf, Update, FindDialog, FindContext, LastOutInvite, LastIncInvite, Provisional, EndingOf, SendInDialog;
    EndingIs(s, cid, did);
    match Addressed(s, cid, did)
    case None =>
    case Some((i, jd)) =>
      var s1 := Discard(Launch(s, Outgoing(s, CANCEL, None)), s.nextTid);
      DeedsStray(s, CANCEL);
      if jd.Some? {
        SameDeeds(s1, ClearLeg(s1, Call, i, jd.value));
        DeedsUpdate(ClearLeg(s1, Call, i, jd.value));
        DeedsHangUp(s, i, jd.value);
      }
  }

  lemma SameDeeds(s: State, s': State)
    requires s'.trs == s.trs && s'.nextTid == s.nextTid
    ensures DeedsOf(s') == DeedsOf(s)
  {
  }

  lemma DeedsHangUp(s: State, i: nat, j: nat)
    requires HasDialog(s, Call, i, j)
    ensures DeedsOf(SendBye(s, i, j)) == Adding(DeedsOf(s), Some(Sort(BYE, false)))
  {
    hide DeedsOf, Update;
    var s1 := SendInDialog(s, Call, i, j, BYE);
    var s2 := ClearLeg(s1, Call, i, j).(hangups := [s.calls[i].dialogs[j].ref] + s.hangups);
    DeedsSendInDialog(s, Call, i, j, BYE);
    SameDeeds(s1, s2);
    DeedsUpdate(s2);
  }

  lemma DeedsApiRequests(s: State, did: int, verb: Method)
    ensures DeedsOf(CallSendRequest(s, did, verb)) == Adding(DeedsOf(s), Creates(s, DoCallSendRequest(did, verb)))
    ensures DeedsOf(NotifySendRequest(s, did, verb)) == Adding(DeedsOf(s), Creates(s, DoNotifySendRequest(did, verb)))
    ensures DeedsOf(SendRefresh(s, did)) == Adding(DeedsOf(s), Creates(s, DoSendRefresh(did)))
  {
    hide DeedsOf, FindDialog, FindSubscription, MaySend, Latest, SendInDialog;
    var p, q := FindDialog(s.calls, did), FindDialog(s.notifies, did);
    if p.Some? { DeedsSendInDialog(s, Call, p.value.0, p.value.1, verb); }
    if q.Some? { DeedsSendInDialog(s, Notification, q.value.0, q.value.1, verb); }
    match FindSubscription(s.subs, did)
    case Some((i, Some(j))) => DeedsSendInDialog(s, Subscription, i, j, SUBSCRIBE);
    case _ =>
  }

  lemma DeedsCallResend(s: State, i: nat, jd: Option<nat>, t: nat)
    requires i < |s.calls| && (jd.Some? ==> jd.value < |s.calls[i].dialogs|) && t in s.trs
    ensures DeedsOf(CallResend(s, i, jd, t))
            == Adding(DeedsOf(s), if s.calls[i].out == Some(t) || jd.Some? then Some(Sort(s.trs[t].verb, false)) else None)
  {
    hide DeedsOf, Update, FreeDialog, SendInDialog;
    var c, verb := s.calls[i], s.trs[t].verb;
    if c.out == Some(t) {
      var tr := Outgoing(s, verb, Some(Jinfo(Call, c.ref, None)));
      DeedsLaunch(s, tr);
      var s2 := SetContext(Discard(Launch(s, tr), t), Call, i, c.(out := Some(s.nextTid)));
      SameDeeds(Launch(s, tr), s2);
      DeedsUpdate(s2);
      if jd.Some? {
        var s3 := RemoveDialog(s2, Call, i, jd.value);
        SameDeeds(s2, s3);
        DeedsFreeDialog(s3, DialogAt(s2, Call, i, jd.value));
        DeedsUpdate(DropDialog(s2, Call, i, jd.value));
      }
    } else if jd.Some? {
      DeedsSendInDialog(s, Call, i, jd.value, verb);
      DeedsUpdate(SendInDialog(s, Call, i, jd.value, verb));
    }
  }

  lemma DeedsSubscribeResend(s: State, i: nat, jd: Option<nat>, t: nat)
    requires i < |s.subs| && (jd.Some? ==> jd.value < |s.subs[i].dialogs|) && t in s.trs
    ensures DeedsOf(SubscribeResend(s, i, jd, t))
            == Adding(DeedsOf(s), if s.subs[i].out == Some(t) || jd.Some? then Some(Sort(s.trs[t].verb, false)) else None)
  {
    hide DeedsOf, Update, SendInDialog;
    var c, verb := s.subs[i], s.trs[t].verb;
    if c.out == Some(t) {
      var ref := if jd.Some? then Some(c.dialogs[jd.value].ref) else None;
      var tr := Outgoing(s, verb, Some(Jinfo(Subscription, c.ref, ref)));
      DeedsLaunch(s, tr);
      var s2 := SetContext(Discard(Launch(s, tr), t), Subscription, i, c.(out := Some(s.nextTid)));
      SameDeeds(Launch(s, tr), s2);
      DeedsUpdate(s2);
    } else if jd.Some? {
      DeedsSendInDialog(s, Subscription, i, jd.value, verb);
      DeedsUpdate(SendInDialog(s, Subscription, i, jd.value, verb));
    }
  }

  lemma DeedsRetryCall(s: State, t: nat)
    requires t in s.trs
    ensures DeedsOf(RetryCall(s, t))
            == Adding(DeedsOf(s), if Retriable(s.calls, t) then Some(Sort(s.trs[t].verb, false)) else None)
  {
    hide DeedsOf, CallResend, FindTransaction, CountResend;
    match FindTransaction(s.calls, t)
    case None =>
    case Some((i, jd)) =>
      var c := s.calls[i];
      var live := jd.Some? && c.dialogs[jd.value].leg != NoLeg;
      var s1 := if live then SetDialog(s, Call, i, jd.value, c.dialogs[jd.value].(retry := c.dialogs[jd.value].retry + 1))
                else SetContext(s, Call, i, c.(retry := c.retry + 1));
      var s2 := CountResend(s1, i, c.out == Some(t));
      CountedShape(s1, i, jd, c.out == Some(t));
      DeedsCounted(s, s1, i, jd, c.out == Some(t));
      DeedsCallResend(s2, i, jd, t);
  }

  lemma DeedsCounted(s: State, s1: State, i: nat, jd: Option<nat>, initial: bool)
    requires i < |s1.calls| && (jd.Some? ==> jd.value < |s1.calls[i].dialogs|)
    requires s1.trs == s.trs && s1.nextTid == s.nextTid
    ensures DeedsOf(CountResend(s1, i, initial)) == DeedsOf(s)
  {
  }

  lemma DeedsRetrySubscribe(s: State, t: nat)
    requires t in s.trs
    ensures DeedsOf(RetrySubscribe(s, t))
            == Adding(DeedsOf(s), if Retriable(s.subs, t) then Some(Sort(s.trs[t].verb, false)) else None)
  {
    hide DeedsOf, SubscribeResend, FindTransaction;
    match FindTransaction(s.subs, t)
    case None =>
    case Some((i, jd)) =>
      var c := s.subs[i];
      var live := jd.Some? && c.dialogs[jd.value].leg != NoLeg;
      var s1 := if live
                then SetDialog(s, Subscription, i, jd.value, c.dialogs[jd.value].(retry := c.dialogs[jd.value].retry + 1))
                else SetContext(s, Subscription, i, c.(retry := c.retry + 1));
      SameDeeds(s, s1);
      DeedsSubscribeResend(s1, i, jd, t);
  }

  lemma DeedsRetryNotify(s: State, t: nat)
    requires t in s.trs
    ensures DeedsOf(RetryNotify(s, t))
            == var at := FindTransaction(s.notifies, t);
               Adding(DeedsOf(s), if at.Some? && at.value.1.Some? then Some(Sort(s.trs[t].verb, false)) else None)
  {
    hide DeedsOf, Update, FindTransaction, SendInDialog;
    match FindTransaction(s.notifies, t)
    case Some((i, Some(j))) =>
      DeedsSendInDialog(s, Notification, i, j, s.trs[t].verb);
      DeedsUpdate(SendInDialog(s, Notification, i, j, s.trs[t].verb));
    case _ =>
  }

  lemma DeedsReplacePub(s: State, p: nat)
    requires p < |s.pubs|
    ensures DeedsOf(ReplacePub(s, p)) == Adding(DeedsOf(s), Some(Sort(PUBLISH, false)))
    ensures DeedsOf(Update(ReplacePub(s, p))) == Adding(DeedsOf(s), Some(Sort(PUBLISH, false)))
  {
    hide Update;
    DeedsLaunch(s, Outgoing(s, PUBLISH, None));
    DeedsUpdate(ReplacePub(s, p));
  }

  lemma FoundPub(pubs: seq<Publication>, t: nat)
    ensures FindPub(pubs, t).Some? <==> exists p :: 0 <= p < |pubs| && pubs[p].last == Some(t)
  {
    if pubs != [] {
      FoundPub(pubs[1..], t);
      assert forall p :: 0 <= p < |pubs[1..]| ==> pubs[1..][p] == pubs[p + 1];
      assert forall p :: 0 < p < |pubs| ==> pubs[p] == pubs[1..][p - 1];
    }
  }

  lemma DeedsRetryOthers(s: State, t: nat)
    requires t in s.trs
    ensures DeedsOf(RetryPublish(s, t))
            == Adding(DeedsOf(s), if exists p :: 0 <= p < |s.pubs| && s.pubs[p].last == Some(t) then Some(Sort(PUBLISH, false)) else None)
    ensures DeedsOf(RetryOutside(s, t))
            == Adding(DeedsOf(s), if (t in s.garbage || t in s.doubles) && s.trs[t].jinfo.None? then Some(Sort(s.trs[t].verb, false)) else None)
  {
    hide DeedsOf, Update, ReplacePub, FindPub;
    FoundPub(s.pubs, t);
    if FindPub(s.pubs, t).Some? { DeedsReplacePub(s, FindPub(s.pubs, t).value); }
    DeedsStray(s, s.trs[t].verb);
    DeedsUpdate(SendOutside(s, s.trs[t].verb));
  }

  lemma DeedsRedirect(s: State, t: nat)
    requires t in s.trs
    ensures DeedsOf(Redirect(s, t)) == Adding(DeedsOf(s), if Redirected(s, t) then Some(Sort(s.trs[t].verb, false)) else None)
  {
    hide DeedsOf, CallResend, FindTransaction;
    match FindTransaction(s.calls, t)
    case None =>
    case Some((i, jd)) => DeedsCallResend(s, i, jd, t);
  }

  lemma DeedsDefaultAction(s: State, owner: Owner, t: nat)
    ensures DeedsOf(DefaultAction(s, owner, t)) == Adding(DeedsOf(s), Creates(s, DoDefaultAction(owner, t)))
  {
    hide DeedsOf, Adding, RetryCall, RetrySubscribe, RetryNotify, RetryPublish, RetryOutside, Redirect, Retriable, Redirected,
         FindTransaction;
    if t in s.trs {
      match owner
      case Of(Call) =>
        DeedsRetryCall(s, t);
        DeedsRedirect(s, t);
      case Of(Subscription) => DeedsRetrySubscribe(s, t);
      case Of(Notification) => DeedsRetryNotify(s, t);
      case OfPublication => DeedsRetryOthers(s, t);
      case OfNone => DeedsRetryOthers(s, t);
    }
    NoDeed(DeedsOf(s));
  }

  lemma NoDeed(d: Deeds)
    ensures Adding(d, None) == d
  {
  }

  lemma DeedsRefreshSubscription(s: State, i: nat, j: nat)
    ensures DeedsOf(RefreshSubscription(s, i, j)) == Adding(DeedsOf(s), Creates(s, DoRefreshSubscription(i, j)))
  {
    hide DeedsOf, SubscribeResend;
    if Repeated(s, i, j).Some? { DeedsSubscribeResend(s, i, Some(j), Repeated(s, i, j).value); }
  }

  lemma DeedsPublish(s: State, aor: string, period: int)
    ensures DeedsOf(Publish(s, aor, period)) == Adding(DeedsOf(s), Some(Sort(PUBLISH, false)))
  {
    hide DeedsOf, ReplacePub, Sweep, FindAor;
    DeedsSweep(s, s.pubs);
    var s1 := Sweep(s, s.pubs);
    match FindAor(s1.pubs, aor)
    case Some(p) => DeedsReplacePub(s1, p);
    case None =>
      var s2 := s1.(pubs := [Publication(aor, s.now + period, None)] + s1.pubs);
      SameDeeds(s1, s2);
      DeedsReplacePub(s2, 0);
  }

  lemma DeedsInitial(s: State)
    ensures DeedsOf(SendInitialInvite(s)) == Adding(DeedsOf(s), Some(Sort(INVITE, false)))
    ensures DeedsOf(SendInitialSubscribe(s)) == Adding(DeedsOf(s), Some(Sort(SUBSCRIBE, false)))
  {
    hide Update;
    forall s1 ensures DeedsOf(Update(s1)) == DeedsOf(s1) { DeedsUpdate(s1); }
    DeedsLaunch(s, Outgoing(s, INVITE, Some(Jinfo(Call, s.nextRef, None))));
    DeedsLaunch(s, Outgoing(s, SUBSCRIBE, Some(Jinfo(Subscription, s.nextRef, None))));
  }

  lemma DeedsNewIncoming(s: State, k: Kind, ok: bool)
    ensures DeedsOf(NewIncoming(s, k, ok)) == Adding(DeedsOf(s), Creates(s, DoNewIncoming(k, ok)))
  {
    hide DeedsOf, Update;
    var verb := if k == Call then INVITE else SUBSCRIBE;
    var tr := Incoming(s, verb, Some(Jinfo(k, s.nextRef, Some(s.nextRef + 1))));
    forall s1 ensures DeedsOf(Update(s1)) == DeedsOf(s1) { DeedsUpdate(s1); }
    DeedsLaunch(s, tr);
    DeedsStray(s, verb);
    if k != Subscription && ok {
      var d := Dialog(s.nextRef + 1, -1, EarlyLeg, [], [], 0);
      var c := Context(s.nextRef, if k == Call then -1 else 0, [d], Some(s.nextTid), None, 0, 0, false);
      SameDeeds(Launch(s, tr), AddContext(Launch(s, tr), k, c).(nextRef := s.nextRef + 2));
    } else if k == Call {
      var c := Context(s.nextRef, -1, [], None, None, 0, 0, false);
      SameDeeds(Reject(s, INVITE), AddContext(Reject(s, INVITE), Call, c).(nextRef := s.nextRef + 1));
    }
  }

  lemma DeedsAnswer(s: State, k: Kind, t: nat, code: nat)
    ensures DeedsOf(Answer(s, k, t, code)) == DeedsOf(s)
  {
    hide Update, FindTransaction;
    forall s1 ensures DeedsOf(Update(s1)) == DeedsOf(s1) { DeedsUpdate(s1); }
  }

  lemma DeedsAccept(s: State, k: Kind, i: nat, j: nat, verb: Method, withDialog: bool)
    requires HasDialog(s, k, i, j)
    ensures DeedsOf(AcceptInDialog(s, k, i, j, verb, withDialog)) == Adding(DeedsOf(s), Some(Sort(verb, true)))
  {
    hide DeedsOf, Receive;
    var c, d := List(s, k)[i], DialogAt(s, k, i, j);
    DeedsReceive(s, k, i, j, Incoming(s, verb, Some(Jinfo(k, c.ref, if withDialog then Some(d.ref) else None))));
  }

  lemma DeedsRequestInCall(s: State, i: nat, j: nat, verb: Method, valid: bool)
    requires HasDialog(s, Call, i, j)
    ensures DeedsOf(RequestInCall(s, i, j, verb, valid)) == Adding(DeedsOf(s), Some(Sort(verb, true)))
  {
    hide DeedsOf, Update, Latest, LastIncInvite, LastOutInvite, Receive;
    DeedsStray(s, verb);
    DeedsAccept(s, Call, i, j, verb, true);
    DeedsAccept(s, Call, i, j, verb, false);
    var s1 := AcceptInDialog(s, Call, i, j, verb, false);
    AcceptedHasDialog(s, Call, i, j, verb, false);
    SameDeeds(s1, ClearLeg(s1, Call, i, j));
    DeedsUpdate(ClearLeg(s1, Call, i, j));
  }

  lemma AcceptedHasDialog(s: State, k: Kind, i: nat, j: nat, verb: Method, withDialog: bool)
    requires HasDialog(s, k, i, j)
    ensures HasDialog(AcceptInDialog(s, k, i, j, verb, withDialog), k, i, j)
  {
  }

  lemma DeedsNotify(s: State, i: nat, j: nat, valid: bool, over: bool)
    requires HasDialog(s, Subscription, i, j)
    ensures DeedsOf(NotifyForSubscription(s, i, j, valid, over)) == Adding(DeedsOf(s), Some(Sort(NOTIFY, true)))
  {
    hide DeedsOf, FreeContext, AcceptInDialog;
    DeedsStray(s, NOTIFY);
    DeedsFreeContext(Reject(s, NOTIFY), Subscription, i);
    DeedsAccept(s, Subscription, i, j, NOTIFY, true);
  }

  lemma DeedsRequestInDialog(s: State, k: Kind, i: nat, j: nat, verb: Method, valid: bool, over: bool)
    ensures DeedsOf(RequestInDialog(s, k, i, j, verb, valid, over))
            == Adding(DeedsOf(s), Creates(s, DoRequestInDialog(k, i, j, verb, valid, over)))
  {
    hide DeedsOf, RequestInCall, NotifyForSubscription, AcceptInDialog, Reject, Latest;
    if HasDialog(s, k, i, j) {
      DeedsStray(s, verb);
      match k
      case Call => DeedsRequestInCall(s, i, j, verb, valid);
      case Subscription => DeedsNotify(s, i, j, valid, over);
      case Notification => DeedsAccept(s, Notification, i, j, SUBSCRIBE, true);
    }
  }

  lemma DeedsFirstNotify(s: State, i: nat, leg: Leg, valid: bool, over: bool)
    ensures DeedsOf(FirstNotify(s, i, leg, valid, over)) == Adding(DeedsOf(s), Creates(s, DoFirstNotify(i, leg, valid, over)))
  {
    hide DeedsOf, Update, NotifyForSubscription;
    DeedsLaunch(s, Incoming(s, NOTIFY, None));
    SameDeeds(Launch(s, Incoming(s, NOTIFY, None)), Lose(Launch(s, Incoming(s, NOTIFY, None)), s.nextTid));
    if i < |s.subs| && leg != NoLeg {
      var s1 := AddDialog(s, Subscription, i, leg);
      UpdateKeepsShape(s1);
      assert SameContexts(List(s1, Subscription), List(Update(s1), Subscription));
      assert SameContext(s1.subs[i], Update(s1).subs[i]);
      SameDeeds(s, s1);
      DeedsUpdate(s1);
      DeedsNotify(Update(s1), i, 0, valid, over);
    }
  }

  lemma DeedsCancel(s: State, target: Target, ok: bool, ok487: bool)
    ensures DeedsOf(ProcessCancel(s, target, ok, ok487)) == Adding(DeedsOf(s), Some(Sort(CANCEL, true)))
  {
    hide DeedsOf, Cancelled, Receive;
    var tr := Incoming(s, CANCEL, None);
    var lost := Lose(Launch(s, tr), s.nextTid);
    DeedsLaunch(s, tr);
    SameDeeds(Launch(s, tr), lost);
    DeedsStray(s, CANCEL);
    match Cancelled(s, target)
    case None =>
    case Some((i, t, jd)) =>
      if jd.Some? { DeedsReceive(s, Call, i, jd.value, tr); }
      var kept := KeepCancel(s, i, jd);
      DeedsSetJinfo(kept, t, None);
      SameDeeds(SetJinfo(kept, t, None), Double(kept, t));
      DeedsSetJinfo(lost, t, None);
      SameDeeds(SetJinfo(lost, t, None), Double(lost, t));
  }

  lemma DeedsOnFailure(s: State, t: nat, i: nat, ji: Jinfo)
    requires t in s.trs && i < |List(s, ji.kind)|
    ensures DeedsOf(OnFailure(s, t, i, ji)) == DeedsOf(s)
  {
    hide Update, FindDialogRef;
    forall s1 ensures DeedsOf(Update(s1)) == DeedsOf(s1) { DeedsUpdate(s1); }
  }

  lemma DeedsOnSuccess(s: State, t: nat, i: nat, ji: Jinfo, code: nat, f: Facts)
    requires t in s.trs && i < |List(s, ji.kind)|
    ensures DeedsOf(OnSuccess(s, t, i, ji, f)) == DeedsOf(s) && DeedsOf(OnProvisional(s, t, i, ji, code, f)) == DeedsOf(s)
  {
    hide DeedsOf, Update, FindDialogRef, FreeContext, ResponseDialog, SetJinfo;
    forall s1: State, ji' ensures DeedsOf(SetJinfo(s1, t, ji')) == DeedsOf(s1) { DeedsSetJinfo(s1, t, ji'); }
    forall s1 ensures DeedsOf(Update(s1)) == DeedsOf(s1) { DeedsUpdate(s1); }
    forall s1: State | s1.trs == s.trs && s1.nextTid == s.nextTid ensures DeedsOf(s1) == DeedsOf(s) { SameDeeds(s, s1); }
    DeedsFreeContext(ResetRetries(s, i, ji), ji.kind, i);
  }

  lemma DeedsRespond(s: State, t: nat, code: nat, f: Facts)
    ensures DeedsOf(Respond(s, t, code, f)) == DeedsOf(s)
  {
    hide DeedsOf, FindRef, OnSuccess, OnProvisional, OnFailure, SetProgress;
    if t in s.trs {
      DeedsProgress(s, t, ClientPhase(s.trs[t].verb, code), code);
      var s1 := SetProgress(s, t, ClientPhase(s.trs[t].verb, code), code);
      assert t in s1.trs by { ProgressKeepsKeys(s, t, ClientPhase(s.trs[t].verb, code), code); }
      if s.trs[t].jinfo.Some? {
        var ji := s.trs[t].jinfo.value;
        var i := FindRef(List(s1, ji.kind), ji.ctx);
        if i.Some? {
          DeedsOnSuccess(s1, t, i.value, ji, code, f);
          DeedsOnFailure(s1, t, i.value, ji);
        }
      }
    }
  }

  lemma ProgressKeepsKeys(s: State, t: nat, phase: Phase, code: nat)
    requires t in s.trs
    ensures t in SetProgress(s, t, phase, code).trs
  {
  }

  lemma DeedsAnswerSent(s: State, t: nat, code: nat)
    ensures DeedsOf(AnswerSent(s, t, code)) == DeedsOf(s)
  {
    hide DeedsOf, FindRef, OnFailure;
    if t in s.trs {
      DeedsProgress(s, t, ClientPhase(s.trs[t].verb, code), code);
      var s1 := SetProgress(s, t, ClientPhase(s.trs[t].verb, code), code);
      if s.trs[t].jinfo.Some? {
        var ji := s.trs[t].jinfo.value;
        var i := FindRef(List(s1, ji.kind), ji.ctx);
        if i.Some? { DeedsOnFailure(s1, t, i.value, ji); }
      }
    }
  }

  lemma DeedsKill(s: State, t: nat, f: Facts)
    ensures DeedsOf(Kill(s, t, f)) == DeedsOf(s)
  {
    hide DeedsOf, FindRef, FreeContext;
    if t in s.trs {
      var s1 := SetProgress(s, t, Terminated, s.trs[t].response);
      DeedsProgress(s, t, Terminated, s.trs[t].response);
      if s.trs[t].jinfo.Some? {
        var ji := s.trs[t].jinfo.value;
        var i := FindRef(List(s1, ji.kind), ji.ctx);
        if i.Some? { DeedsFreeContext(s1, ji.kind, i.value); }
      }
    }
  }

  lemma DeedsUnlink(s: State, slot: Option<nat>, ref: nat)
    ensures DeedsOf(Unlink(s, slot, ref)) == DeedsOf(s)
  {
    if slot.Some? && slot.value in s.trs && s.trs[slot.value].jinfo.Some? {
      DeedsSetJinfo(s, slot.value, Some(s.trs[slot.value].jinfo.value.(dialog := None)));
    }
  }

  lemma DeedsReleaseDialog(s: State, i: nat, j: nat)
    ensures DeedsOf(ReleaseDialog(s, i, j)) == DeedsOf(s)
  {
    hide DeedsOf, FreeDialog;
    if HasDialog(s, Call, i, j) {
      var c, ref := s.calls[i], s.calls[i].dialogs[j].ref;
      var s1 := Unlink(Unlink(s, c.inc, ref), c.out, ref);
      DeedsUnlink(s, c.inc, ref);
      DeedsUnlink(Unlink(s, c.inc, ref), c.out, ref);
      SameDeeds(s1, RemoveDialog(s1, Call, i, j));
      DeedsFreeDialog(RemoveDialog(s1, Call, i, j), DialogAt(s1, Call, i, j));
    }
  }

  lemma DeedsPlain(s: State, e: Step)
    requires e.Tick? || e.DoAckReceived? || e.DoReleaseTransaction? || e.DoReleaseCall? || e.DoDropTransaction?
    ensures DeedsOf(Next(s, e)) == DeedsOf(s)
  {
    hide FreeContext, HolderOf, Removed;
    match e
    case DoAckReceived(t) => if t in s.trs { DeedsProgress(s, t, Confirmed, s.trs[t].response); }
    case DoReleaseCall(i) => if i < |s.calls| { DeedsFreeContext(s, Call, i); }
    case _ =>
  }

  /** Every step creates the transaction that the state before it decides, and no other. */
  lemma StepCreates(s: State, e: Step)
    ensures DeedsOf(Next(s, e)) == Adding(DeedsOf(s), Creates(s, e))
  {
    hide DeedsOf, Adding, SendInitialInvite, SendInitialSubscribe, CallSendRequest, NotifySendRequest, SendRefresh, Terminate,
         DefaultAction, RefreshSubscription, Publish, Answer, NewIncoming, ProcessCancel, RequestInDialog, FirstNotify,
         Respond, AnswerSent, Kill, ReleaseDialog, FreeContext, DropTransaction, ReleaseTransaction, AckReceived, SendOutside,
         Reject, ReleaseCall, RequestedBy, SentAgain, Refreshed, Repeated, EndingOf;
    NoDeed(DeedsOf(s));
    match e
    case DoSendInitialInvite => DeedsInitial(s);
    case DoSendInitialSubscribe => DeedsInitial(s);
    case DoCallSendRequest(did, verb) => DeedsApiRequests(s, did, verb);
    case DoNotifySendRequest(did, verb) => DeedsApiRequests(s, did, verb);
    case DoSendRefresh(did) => DeedsApiRequests(s, did, SUBSCRIBE);
    case DoTerminate(cid, did) => DeedsTerminate(s, cid, did);
    case DoDefaultAction(owner, t) => DeedsDefaultAction(s, owner, t);
    case DoRefreshSubscription(i, j) => DeedsRefreshSubscription(s, i, j);
    case DoPublish(aor, period) => DeedsPublish(s, aor, period);
    case DoSendOutside(verb) => DeedsStray(s, verb);
    case DoReject(verb) => DeedsStray(s, verb);
    case DoNewIncoming(k, ok) => DeedsNewIncoming(s, k, ok);
    case DoCancel(target, ok, ok487) => DeedsCancel(s, target, ok, ok487);
    case DoRequestInDialog(k, i, j, verb, valid, over) => DeedsRequestInDialog(s, k, i, j, verb, valid, over);
    case DoFirstNotify(i, leg, valid, over) => DeedsFirstNotify(s, i, leg, valid, over);
    case _ => StepCreatesToo(s, e);
  }

  lemma StepCreatesToo(s: State, e: Step)
    requires e.Tick? || e.DoAckReceived? || e.DoReleaseTransaction? || e.DoReleaseCall? || e.DoDropTransaction?
             || e.DoAnswer? || e.DoRespond? || e.DoAnswerSent? || e.DoKill? || e.DoReleaseDialog?
    ensures DeedsOf(Next(s, e)) == Adding(DeedsOf(s), Creates(s, e))
  {
    hide DeedsOf, Adding, Answer, Respond, AnswerSent, Kill, ReleaseDialog, FreeContext,
         DropTransaction, ReleaseTransaction, AckReceived, ReleaseCall;
    NoDeed(DeedsOf(s));
    match e
    case DoAnswer(k, t, code) => DeedsAnswer(s, k, t, code);
    case DoRespond(t, code, f) => DeedsRespond(s, t, code, f);
    case DoAnswerSent(t, code) => DeedsAnswerSent(s, t, code);
    case DoKill(t, f) => DeedsKill(s, t, f);
    case DoReleaseDialog(i, j) => DeedsReleaseDialog(s, i, j);
    case _ => DeedsPlain(s, e);
  }

  // ---------------------------------------------------------------- runs

  /** How many transactions of a sort were ever created. */
  function Census(sorts: map<nat, Sort>, x: Sort): nat {
    |OfSort(sorts, x)|
  }

  function OfSort(sorts: map<nat, Sort>, x: Sort): (r: set<nat>)
    ensures forall t: nat :: t in r <==> t in sorts && sorts[t] == x
  {
    set t | t in sorts && sorts[t] == x
  }

  /** How many steps of a run create one. */
  ghost function Makers(s: State, es: seq<Step>, x: Sort): nat
    decreases |es|
  {
    if es == [] then 0 else Bit(Creates(s, es[0]) == Some(x)) + Makers(Next(s, es[0]), es[1..], x)
  }

  /** Transactions are numbered 1, 2, 3, ... in the order they are created. */
  ghost predicate Numbered(d: Deeds) {
    d.next >= 1 && forall t :: t in d.sorts <==> 1 <= t < d.next
  }

  lemma CensusAdding(d: Deeds, x: Option<Sort>, y: Sort)
    requires Numbered(d)
    ensures Numbered(Adding(d, x)) && Census(Adding(d, x).sorts, y) == Census(d.sorts, y) + Bit(x == Some(y))
  {
    var d' := Adding(d, x);
    var before, after := OfSort(d.sorts, y), OfSort(d'.sorts, y);
    assert d.next !in d.sorts;
    if x == Some(y) { assert after == before + {d.next}; } else { assert after == before; }
  }

  lemma {:induction false} CensusOfRun(s: State, es: seq<Step>, x: Sort)
    requires Numbered(DeedsOf(s))
    ensures Numbered(DeedsOf(Run(s, es)))
    ensures Census(Sorts(Run(s, es).trs), x) == Census(Sorts(s.trs), x) + Makers(s, es, x)
    decreases |es|
  {
    hide Next, Creates, Census, Sorts;
    if es != [] {
      StepCreates(s, es[0]);
      CensusAdding(DeedsOf(s), Creates(s, es[0]), x);
      CensusOfRun(Next(s, es[0]), es[1..], x);
    }
  }

  /** Over every run the transactions of a method and a direction are as many as the steps that
      create one. */
  lemma {:induction false} TransactionsExplained(now: int, es: seq<Step>, x: Sort)
    ensures Census(Sorts(Run(Init(now), es).trs), x) == Makers(Init(now), es, x)
  {
    hide Makers;
    var s := Init(now);
    CensusOfRun(s, es, x);
    assert OfSort(Sorts(s.trs), x) == {};
  }
}
