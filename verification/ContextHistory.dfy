/** What a step leaves in the history of the store: the BYE it sends, the transaction it loses
    and the one it puts in two places.  Each is decided by the state before the step. */
module ContextHistory {
  import opened Wrappers
  import opened Sequences
  import opened Sip
  import opened ContextStore
  import opened ContextAccounting

  // ---------------------------------------------------------------- who sends a BYE

  /** The three ways a BYE is sent for a dialog: eXosip_call_terminate, a request of the
      application with that method, and the credential retry of a challenged BYE. */
  datatype Cause = HangUp | Direct | Resent

  /** The dialog that eXosip_call_terminate hangs up with a BYE. */
  function HungUpBy(s: State, did: int): Option<nat> {
    match if did > 0 then FindDialog(s.calls, did) else None
    case None => None
    case Some((i, j)) =>
      var c := s.calls[i];
      var out := LastOutInvite(s.trs, c, Some(j));
      if c.dialogs[j].leg != NoLeg && !Provisional(s.trs, out)
         && !(out.None? && Provisional(s.trs, LastIncInvite(s.trs, c, Some(j))))
      then Some(c.dialogs[j].ref) else None
  }

  /** The dialog for which the application's own request is sent. */
  function RequestedBy(s: State, e: Step): Option<nat> {
    match e
    case DoCallSendRequest(did, verb) =>
      (match if did > 0 then FindDialog(s.calls, did) else None
       case Some((i, j)) => if MaySend(s, i, j, verb) then Some(s.calls[i].dialogs[j].ref) else None
       case None => None)
    case DoNotifySendRequest(did, _) =>
      (match if did > 0 then FindDialog(s.notifies, did) else None
       case Some((i, j)) =>
         var phase := PhaseOf(s.trs, Latest(s.trs, s.notifies[i].dialogs[j].out, NOTIFY));
         if phase == Terminated || phase == Completed then Some(s.notifies[i].dialogs[j].ref) else None
       case None => None)
    case _ => None
  }

  /** Whether the counter that pays for a credential retry allows one. */
  predicate RetryLeft(c: Context, jd: Option<nat>)
    requires jd.Some? ==> jd.value < |c.dialogs|
  {
    if jd.Some? && c.dialogs[jd.value].leg != NoLeg then c.dialogs[jd.value].retry < MAX_RETRY else c.retry < MAX_RETRY
  }

  /** The dialog in which a retry of transaction `t`, found in the list `cs`, is sent. */
  function RetriedIn(cs: seq<Context>, t: nat): Option<nat> {
    match FindTransaction(cs, t)
    case Some((i, Some(j))) =>
      if cs[i].out != Some(t) && RetryLeft(cs[i], Some(j)) then Some(cs[i].dialogs[j].ref) else None
    case _ => None
  }

  /** The dialog in which a step sends an existing request again. */
  function ResentBy(s: State, e: Step): Option<nat> {
    match e
    case DoDefaultAction(owner, t) =>
      if t !in s.trs || s.trs[t].verb != BYE || !Challenge(s.trs[t].response) then None
      else (match owner
            case Of(Call) => RetriedIn(s.calls, t)
            case Of(Subscription) => RetriedIn(s.subs, t)
            case Of(Notification) =>
              (match FindTransaction(s.notifies, t)
               case Some((i, Some(j))) => Some(s.notifies[i].dialogs[j].ref)
               case _ => None)
            case _ => None)
    case DoRefreshSubscription(i, j) =>
      if !HasDialog(s, Subscription, i, j) then None
      else
        var c, d := s.subs[i], s.subs[i].dialogs[j];
        var t := if d.out != [] then Some(d.out[0]) else c.out;
        if d.leg != NoLeg && d.id >= 1 && t.Some? && t.value in s.trs && s.trs[t.value].response != 0
           && s.trs[t.value].verb == BYE && c.out != t
        then Some(d.ref) else None
    case _ => None
  }

  /** The dialog for which step `e` sends a BYE, for this cause. */
  function SendsBye(cause: Cause, s: State, e: Step): Option<nat> {
    match cause
    case HangUp => if e.DoTerminate? then HungUpBy(s, e.did) else None
    case Direct =>
      if (e.DoCallSendRequest? || e.DoNotifySendRequest?) && e.verb == BYE then RequestedBy(s, e) else None
    case Resent => ResentBy(s, e)
  }

  // ---------------------------------------------------------------- misplaced transactions

  /** A first NOTIFY without a dialog, or a CANCEL that cannot be answered: the new transaction
      is put nowhere. */
  function LostBy(s: State, e: Step): Option<nat> {
    match e
    case DoFirstNotify(i, leg, _, _) => if i < |s.subs| && leg == NoLeg then Some(s.nextTid) else None
    case DoCancel(_, ok, _) => if !ok then Some(s.nextTid) else None
    case _ => None
  }

  /** A CANCEL that cannot be answered, or whose INVITE cannot: the INVITE is in two places. */
  function DoubledBy(s: State, e: Step): Option<nat> {
    match e
    case DoCancel(target, ok, ok487) =>
      (match Cancelled(s, target)
       case None => None
       case Some((_, t, _)) =>
         if !ok || (!ok487 && !(s.trs[t].verb == INVITE && s.trs[t].phase != Pending)) then Some(t) else None)
    case _ => None
  }

  // ---------------------------------------------------------------- the history after a step

  datatype Log = Log(hangups: seq<nat>, byes: seq<nat>, doubles: seq<nat>, lost: seq<nat>)

  function LogOf(s: State): Log {
    Log(s.hangups, s.byes, s.doubles, s.lost)
  }

  function Cons(x: Option<nat>, xs: seq<nat>): seq<nat> {
    if x.Some? then [x.value] + xs else xs
  }

  function ByeOf(s: State, e: Step): Option<nat> {
    OrElse(SendsBye(HangUp, s, e), OrElse(SendsBye(Direct, s, e), SendsBye(Resent, s, e)))
  }

  function LogAfter(s: State, e: Step): Log {
    Log(Cons(SendsBye(HangUp, s, e), s.hangups), Cons(ByeOf(s, e), s.byes),
        Cons(DoubledBy(s, e), s.doubles), Cons(LostBy(s, e), s.lost))
  }

  lemma LogUpdate(s: State)
    ensures LogOf(Update(s)) == LogOf(s)
  {
    hide Update;
    UpdateKeepsShape(s);
  }

  lemma LogFreeDialogs(s: State, ds: seq<Dialog>)
    ensures LogOf(FreeDialogs(s, ds)) == LogOf(s)
    decreases |ds|
  {
    hide Update;
    if ds != [] {
      LogUpdate(s.(garbage := Reversed(ds[0].out) + Reversed(ds[0].inc) + s.garbage,
                   trs := ForgetAll(s.trs, ds[0].inc + ds[0].out)));
      LogFreeDialogs(FreeDialog(s, ds[0]), ds[1..]);
    }
  }

  lemma LogFreeContext(s: State, k: Kind, i: nat)
    requires i < |List(s, k)|
    ensures LogOf(FreeContext(s, k, i)) == LogOf(s)
  {
    hide FreeDialogs;
    LogFreeDialogs(RemoveContext(s, k, i), List(s, k)[i].dialogs);
  }

  lemma LogSweep(s: State, ps: seq<Publication>)
    ensures LogOf(Sweep(s, ps)) == LogOf(s)
    decreases |ps|
  {
    if ps != [] {
      if s.now - ps[0].expires > 60 {
        LogSweep(if ps[0].last.Some? then Discard(s, ps[0].last.value) else s, ps[1..]);
      } else {
        LogSweep(s, ps[1..]);
      }
    }
  }

  lemma LogSendInDialog(s: State, k: Kind, i: nat, j: nat, verb: Method)
    requires HasDialog(s, k, i, j)
    ensures LogOf(SendInDialog(s, k, i, j, verb))
            == Log(s.hangups, Cons(if verb == BYE then Some(DialogAt(s, k, i, j).ref) else None, s.byes), s.doubles, s.lost)
  {
  }

  lemma LogDropDialog(s: State, k: Kind, i: nat, j: nat)
    requires HasDialog(s, k, i, j)
    ensures LogOf(DropDialog(s, k, i, j)) == LogOf(s)
  {
    hide Update;
    var s1, d := RemoveDialog(s, k, i, j), DialogAt(s, k, i, j);
    LogUpdate(s1.(garbage := Reversed(d.out) + Reversed(d.inc) + s1.garbage, trs := ForgetAll(s1.trs, d.inc + d.out)));
  }

  lemma LogTerminate(s: State, cid: int, did: int)
    ensures LogOf(Terminate(s, cid, did)) == LogAfter(s, DoTerminate(cid, did))
  {
    hide Update, FindDialog, FindContext, LastOutInvite, LastIncInvite, Provisional;
    var s1 := Discard(Launch(s, Outgoing(s, CANCEL, None)), s.nextTid);
    match if did > 0 then FindDialog(s.calls, did) else None
    case None =>
    case Some((i, j)) =>
      LogUpdate(ClearLeg(s1, Call, i, j));
      LogSendInDialog(s, Call, i, j, BYE);
      var s2 := ClearLeg(SendInDialog(s, Call, i, j, BYE), Call, i, j);
      LogUpdate(s2.(hangups := [s.calls[i].dialogs[j].ref] + s.hangups));
  }

  lemma LogCallSendRequest(s: State, did: int, verb: Method)
    ensures LogOf(CallSendRequest(s, did, verb)) == LogAfter(s, DoCallSendRequest(did, verb))
  {
    hide MaySend, FindDialog, SendInDialog;
    var p := FindDialog(s.calls, did);
    if p.Some? { LogSendInDialog(s, Call, p.value.0, p.value.1, verb); }
  }

  lemma LogNotifySendRequest(s: State, did: int, verb: Method)
    ensures LogOf(NotifySendRequest(s, did, verb)) == LogAfter(s, DoNotifySendRequest(did, verb))
  {
    hide FindDialog, Latest, SendInDialog;
    var p := FindDialog(s.notifies, did);
    if p.Some? { LogSendInDialog(s, Notification, p.value.0, p.value.1, verb); }
  }

  lemma LogSendRefresh(s: State, did: int)
    ensures LogOf(SendRefresh(s, did)) == LogOf(s)
  {
    hide FindSubscription, Latest, SendInDialog;
    match FindSubscription(s.subs, did)
    case Some((i, Some(j))) => LogSendInDialog(s, Subscription, i, j, SUBSCRIBE);
    case _ =>
  }

  lemma LogCallResend(s: State, i: nat, jd: Option<nat>, t: nat)
    requires i < |s.calls| && (jd.Some? ==> jd.value < |s.calls[i].dialogs|) && t in s.trs
    ensures LogOf(CallResend(s, i, jd, t))
            == if jd.Some? && s.calls[i].out != Some(t) && s.trs[t].verb == BYE
               then LogOf(s).(byes := [s.calls[i].dialogs[jd.value].ref] + s.byes) else LogOf(s)
  {
    hide Update, DropDialog, SendInDialog;
    var c := s.calls[i];
    if c.out == Some(t) {
      var s1 := Discard(Launch(s, Outgoing(s, s.trs[t].verb, Some(Jinfo(Call, c.ref, None)))), t);
      var s2 := SetContext(s1, Call, i, c.(out := Some(s.nextTid)));
      LogUpdate(s2);
      if jd.Some? {
        LogDropDialog(s2, Call, i, jd.value);
        LogUpdate(DropDialog(s2, Call, i, jd.value));
      }
    } else if jd.Some? {
      LogSendInDialog(s, Call, i, jd.value, s.trs[t].verb);
      LogUpdate(SendInDialog(s, Call, i, jd.value, s.trs[t].verb));
    }
  }

  lemma LogSubscribeResend(s: State, i: nat, jd: Option<nat>, t: nat)
    requires i < |s.subs| && (jd.Some? ==> jd.value < |s.subs[i].dialogs|) && t in s.trs
    ensures LogOf(SubscribeResend(s, i, jd, t))
            == if jd.Some? && s.subs[i].out != Some(t) && s.trs[t].verb == BYE
               then LogOf(s).(byes := [s.subs[i].dialogs[jd.value].ref] + s.byes) else LogOf(s)
  {
    hide Update, SendInDialog;
    var c := s.subs[i];
    if c.out == Some(t) {
      var ref := if jd.Some? then Some(c.dialogs[jd.value].ref) else None;
      var tr := Outgoing(s, s.trs[t].verb, Some(Jinfo(Subscription, c.ref, ref)));
      LogUpdate(SetContext(Discard(Launch(s, tr), t), Subscription, i, c.(out := Some(s.nextTid))));
    } else if jd.Some? {
      LogSendInDialog(s, Subscription, i, jd.value, s.trs[t].verb);
      LogUpdate(SendInDialog(s, Subscription, i, jd.value, s.trs[t].verb));
    }
  }

  lemma CountedShape(s: State, i: nat, jd: Option<nat>, initial: bool)
    requires i < |s.calls| && (jd.Some? ==> jd.value < |s.calls[i].dialogs|)
    ensures LogOf(CountResend(s, i, initial)) == LogOf(s) && CountResend(s, i, initial).trs == s.trs
    ensures |CountResend(s, i, initial).calls| == |s.calls|
    ensures var c := CountResend(s, i, initial).calls[i]; c.out == s.calls[i].out && c.dialogs == s.calls[i].dialogs
  {
  }

  lemma LogRetryCall(s: State, t: nat)
    requires t in s.trs
    ensures LogOf(RetryCall(s, t))
            == LogOf(s).(byes := Cons(if s.trs[t].verb == BYE then RetriedIn(s.calls, t) else None, s.byes))
  {
    hide CallResend, FindTransaction, CountResend;
    match FindTransaction(s.calls, t)
    case None =>
    case Some((i, jd)) =>
      var c := s.calls[i];
      var live := jd.Some? && c.dialogs[jd.value].leg != NoLeg;
      var s1 := if live then SetDialog(s, Call, i, jd.value, c.dialogs[jd.value].(retry := c.dialogs[jd.value].retry + 1))
                else SetContext(s, Call, i, c.(retry := c.retry + 1));
      CountedShape(s1, i, jd, c.out == Some(t));
      LogCallResend(CountResend(s1, i, c.out == Some(t)), i, jd, t);
  }

  lemma LogRetrySubscribe(s: State, t: nat)
    requires t in s.trs
    ensures LogOf(RetrySubscribe(s, t))
            == LogOf(s).(byes := Cons(if s.trs[t].verb == BYE then RetriedIn(s.subs, t) else None, s.byes))
  {
    hide SubscribeResend, FindTransaction;
    match FindTransaction(s.subs, t)
    case None =>
    case Some((i, jd)) =>
      var c := s.subs[i];
      var live := jd.Some? && c.dialogs[jd.value].leg != NoLeg;
      LogSubscribeResend(
        if live then SetDialog(s, Subscription, i, jd.value, c.dialogs[jd.value].(retry := c.dialogs[jd.value].retry + 1))
        else SetContext(s, Subscription, i, c.(retry := c.retry + 1)), i, jd, t);
  }

  lemma LogRedirect(s: State, t: nat)
    requires t in s.trs && s.trs[t].verb == INVITE
    ensures LogOf(Redirect(s, t)) == LogOf(s)
  {
    hide CallResend, FindTransaction;
    match FindTransaction(s.calls, t)
    case None =>
    case Some((i, jd)) => LogCallResend(s, i, jd, t);
  }

  lemma LogReplacePub(s: State, p: nat)
    requires p < |s.pubs|
    ensures LogOf(ReplacePub(s, p)) == LogOf(s) && LogOf(Update(ReplacePub(s, p))) == LogOf(s)
  {
    LogUpdate(ReplacePub(s, p));
  }

  lemma LogRetryNotify(s: State, t: nat)
    requires t in s.trs && Challenge(s.trs[t].response)
    ensures LogOf(RetryNotify(s, t))
            == LogOf(s).(byes := Cons(ResentBy(s, DoDefaultAction(Of(Notification), t)), s.byes))
  {
    hide Update, FindTransaction, SendInDialog;
    match FindTransaction(s.notifies, t)
    case Some((i, Some(j))) =>
      LogSendInDialog(s, Notification, i, j, s.trs[t].verb);
      LogUpdate(SendInDialog(s, Notification, i, j, s.trs[t].verb));
    case _ =>
  }

  lemma LogRetryOthers(s: State, t: nat)
    requires t in s.trs
    ensures LogOf(RetryPublish(s, t)) == LogOf(s) && LogOf(RetryOutside(s, t)) == LogOf(s)
  {
    hide Update, ReplacePub, FindPub;
    if FindPub(s.pubs, t).Some? { LogReplacePub(s, FindPub(s.pubs, t).value); }
    LogUpdate(Discard(Launch(s, Outgoing(s, s.trs[t].verb, None)), s.nextTid));
  }

  lemma LogDefaultAction(s: State, owner: Owner, t: nat)
    ensures LogOf(DefaultAction(s, owner, t)) == LogAfter(s, DoDefaultAction(owner, t))
  {
    hide RetryCall, RetrySubscribe, RetryNotify, RetryPublish, RetryOutside, Redirect, RetriedIn, FindTransaction;
    if t in s.trs {
      match owner
      case Of(Call) =>
        LogRetryCall(s, t);
        if s.trs[t].verb == INVITE { LogRedirect(s, t); }
      case Of(Subscription) => LogRetrySubscribe(s, t);
      case Of(Notification) => if Challenge(s.trs[t].response) { LogRetryNotify(s, t); }
      case OfPublication => LogRetryOthers(s, t);
      case OfNone => LogRetryOthers(s, t);
    }
  }

  lemma LogRefreshSubscription(s: State, i: nat, j: nat)
    ensures LogOf(RefreshSubscription(s, i, j)) == LogAfter(s, DoRefreshSubscription(i, j))
  {
    hide SubscribeResend;
    if HasDialog(s, Subscription, i, j) {
      var t := if s.subs[i].dialogs[j].out != [] then Some(s.subs[i].dialogs[j].out[0]) else s.subs[i].out;
      if t.Some? && t.value in s.trs { LogSubscribeResend(s, i, Some(j), t.value); }
    }
  }

  lemma LogPublish(s: State, aor: string, period: int)
    ensures LogOf(Publish(s, aor, period)) == LogOf(s)
  {
    hide ReplacePub, Sweep, FindAor;
    LogSweep(s, s.pubs);
    var s1 := Sweep(s, s.pubs);
    match FindAor(s1.pubs, aor)
    case Some(p) => LogReplacePub(s1, p);
    case None => LogReplacePub(s1.(pubs := [Publication(aor, s.now + period, None)] + s1.pubs), 0);
  }

  lemma LogInitial(s: State, k: Kind, ok: bool)
    ensures LogOf(SendInitialInvite(s)) == LogOf(s) && LogOf(SendInitialSubscribe(s)) == LogOf(s)
    ensures LogOf(NewIncoming(s, k, ok)) == LogOf(s)
  {
    hide Update;
    forall s1 ensures LogOf(Update(s1)) == LogOf(s1) { LogUpdate(s1); }
  }

  lemma LogAnswer(s: State, k: Kind, t: nat, code: nat)
    ensures LogOf(Answer(s, k, t, code)) == LogOf(s)
  {
    hide Update, FindTransaction;
    forall s1 ensures LogOf(Update(s1)) == LogOf(s1) { LogUpdate(s1); }
  }

  lemma LogRequestInDialog(s: State, k: Kind, i: nat, j: nat, verb: Method, valid: bool, over: bool)
    ensures LogOf(RequestInDialog(s, k, i, j, verb, valid, over)) == LogOf(s)
  {
    hide Update, FreeContext, Latest, LastIncInvite, LastOutInvite;
    if HasDialog(s, k, i, j) {
      if k == Call { LogUpdate(ClearLeg(AcceptInDialog(s, Call, i, j, BYE, false), Call, i, j)); }
      if k == Subscription { LogFreeContext(Reject(s, NOTIFY), Subscription, i); }
    }
  }

  lemma LogFirstNotify(s: State, i: nat, leg: Leg, valid: bool, over: bool)
    ensures LogOf(FirstNotify(s, i, leg, valid, over)) == LogAfter(s, DoFirstNotify(i, leg, valid, over))
  {
    hide Update, FreeContext;
    if i < |s.subs| && leg != NoLeg {
      var s1 := AddDialog(s, Subscription, i, leg);
      UpdateKeepsShape(s1);
      LogUpdate(s1);
      assert SameContexts(List(s1, Subscription), List(Update(s1), Subscription));
      assert SameContext(s1.subs[i], Update(s1).subs[i]);
      LogFreeContext(Reject(Update(s1), NOTIFY), Subscription, i);
    }
  }

  lemma LogCancel(s: State, target: Target, ok: bool, ok487: bool)
    ensures LogOf(ProcessCancel(s, target, ok, ok487)) == LogAfter(s, DoCancel(target, ok, ok487))
  {
    hide Cancelled;
  }

  lemma LogStartDialog(s: State, t: nat, i: nat, ji: Jinfo, leg: Leg)
    requires i < |List(s, ji.kind)|
    ensures LogOf(StartDialog(s, t, i, ji, leg)) == LogOf(s)
  {
    hide Update;
    LogUpdate(SetJinfo(AddDialog(s, ji.kind, i, leg), t, Some(ji.(dialog := Some(s.nextRef)))));
  }

  lemma LogOnFailure(s: State, t: nat, i: nat, ji: Jinfo)
    requires t in s.trs && i < |List(s, ji.kind)|
    ensures LogOf(OnFailure(s, t, i, ji)) == LogOf(s)
  {
    hide Update, FindDialogRef;
    forall s1 ensures LogOf(Update(s1)) == LogOf(s1) { LogUpdate(s1); }
  }

  lemma LogRespond(s: State, t: nat, code: nat, f: Facts)
    ensures LogOf(Respond(s, t, code, f)) == LogOf(s)
  {
    hide FindRef, FindDialogRef, StartDialog, FreeContext, OnFailure, ResponseDialog;
    if t in s.trs && s.trs[t].jinfo.Some? && 100 <= code < 700 {
      var ji := s.trs[t].jinfo.value;
      var s1 := SetProgress(s, t, ClientPhase(s.trs[t].verb, code), code);
      match FindRef(List(s1, ji.kind), ji.ctx)
      case None =>
      case Some(i) =>
        LogStartDialog(s1, t, i, ji, EarlyLeg);
        LogOnFailure(s1, t, i, ji);
        var s2 := ResetRetries(s1, i, ji);
        LogStartDialog(s2, t, i, ji, ConfirmedLeg);
        LogFreeContext(s2, ji.kind, i);
    }
  }

  lemma LogAnswerSent(s: State, t: nat, code: nat)
    ensures LogOf(AnswerSent(s, t, code)) == LogOf(s)
  {
    hide FindRef, OnFailure;
    if t in s.trs && s.trs[t].jinfo.Some? && 100 <= code < 700 {
      var ji := s.trs[t].jinfo.value;
      var s1 := SetProgress(s, t, ClientPhase(s.trs[t].verb, code), code);
      var i := FindRef(List(s1, ji.kind), ji.ctx);
      if i.Some? { LogOnFailure(s1, t, i.value, ji); }
    }
  }

  lemma LogKill(s: State, t: nat, f: Facts)
    ensures LogOf(Kill(s, t, f)) == LogOf(s)
  {
    hide FindRef, FreeContext;
    if t in s.trs && s.trs[t].jinfo.Some? {
      var ji := s.trs[t].jinfo.value;
      var s1 := SetProgress(s, t, Terminated, s.trs[t].response);
      var i := FindRef(List(s1, ji.kind), ji.ctx);
      if i.Some? { LogFreeContext(s1, ji.kind, i.value); }
    }
  }

  lemma LogReleaseDialog(s: State, i: nat, j: nat)
    ensures LogOf(ReleaseDialog(s, i, j)) == LogOf(s)
  {
    hide DropDialog;
    if HasDialog(s, Call, i, j) {
      var c, ref := s.calls[i], s.calls[i].dialogs[j].ref;
      LogDropDialog(Unlink(Unlink(s, c.inc, ref), c.out, ref), Call, i, j);
    }
  }

  lemma LogDropTransaction(s: State, i: nat, t: nat)
    ensures LogOf(DropTransaction(s, i, t)) == LogOf(s)
  {
    hide HolderOf, Removed;
  }

  predicate Silent(e: Step) {
    !e.DoTerminate? && !e.DoCallSendRequest? && !e.DoNotifySendRequest? && !e.DoDefaultAction?
    && !e.DoRefreshSubscription? && !e.DoFirstNotify? && !e.DoCancel?
  }

  lemma SilentLog(s: State, e: Step)
    requires Silent(e)
    ensures LogAfter(s, e) == LogOf(s)
  {
  }

  lemma LogSilent(s: State, e: Step)
    requires Silent(e)
    ensures LogOf(Next(s, e)) == LogOf(s)
  {
    hide LogOf, SendInitialInvite, SendInitialSubscribe, SendRefresh, Publish, Answer, NewIncoming, RequestInDialog,
         Respond, AnswerSent, Kill, ReleaseDialog, FreeContext, DropTransaction, ReleaseTransaction, AckReceived,
         SendOutside, Reject;
    match e
    case DoSendInitialInvite => LogInitial(s, Call, true);
    case DoSendInitialSubscribe => LogInitial(s, Call, true);
    case DoSendRefresh(did) => LogSendRefresh(s, did);
    case DoPublish(aor, period) => LogPublish(s, aor, period);
    case DoAnswer(k, t, code) => LogAnswer(s, k, t, code);
    case DoNewIncoming(k, ok) => LogInitial(s, k, ok);
    case DoRequestInDialog(k, i, j, verb, valid, over) => LogRequestInDialog(s, k, i, j, verb, valid, over);
    case DoRespond(t, code, f) => LogRespond(s, t, code, f);
    case DoAnswerSent(t, code) => LogAnswerSent(s, t, code);
    case DoKill(t, f) => LogKill(s, t, f);
    case DoReleaseDialog(i, j) => LogReleaseDialog(s, i, j);
    case DoReleaseCall(i) => if i < |s.calls| { LogFreeContext(s, Call, i); }
    case DoDropTransaction(i, t) => LogDropTransaction(s, i, t);
    case _ => LogPlain(s, e);
  }

  lemma LogPlain(s: State, e: Step)
    requires e.Tick? || e.DoSendOutside? || e.DoReject? || e.DoAckReceived? || e.DoReleaseTransaction?
    ensures LogOf(Next(s, e)) == LogOf(s)
  {
  }

  /** Every step adds to the history what the state before it decides, and nothing else. */
  lemma StepLog(s: State, e: Step)
    ensures LogOf(Next(s, e)) == LogAfter(s, e)
  {
    hide LogAfter, LogOf, CallSendRequest, NotifySendRequest, Terminate, DefaultAction, RefreshSubscription,
         ProcessCancel, FirstNotify;
    match e
    case DoCallSendRequest(did, verb) => LogCallSendRequest(s, did, verb);
    case DoTerminate(cid, did) => LogTerminate(s, cid, did);
    case DoDefaultAction(owner, t) => LogDefaultAction(s, owner, t);
    case DoRefreshSubscription(i, j) => LogRefreshSubscription(s, i, j);
    case DoNotifySendRequest(did, verb) => LogNotifySendRequest(s, did, verb);
    case DoCancel(target, ok, ok487) => LogCancel(s, target, ok, ok487);
    case DoFirstNotify(i, leg, valid, over) => LogFirstNotify(s, i, leg, valid, over);
    case _ =>
      SilentLog(s, e);
      LogSilent(s, e);
  }
}
