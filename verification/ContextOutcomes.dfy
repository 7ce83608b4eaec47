/** What the other steps do to the records they are about: requests of the application, new
    contexts, responses, answers, and the ends of subscriptions. */
module ContextOutcomes {
  import opened Wrappers
  import opened Sequences
  import opened Text
  import opened Sip
  import opened ContextStore
  import opened ContextTheorems
  import opened ContextHistory
  import opened ContextRetirement
  import opened ContextCreation
  import opened ContextFates

  // ---------------------------------------------------------------- requests of the application

  /** The last transaction of a method in a dialog of a call, for one direction. */
  predicate LastOf(trs: map<nat, Transaction>, c: Context, j: nat, verb: Method, incoming: bool, t: nat)
    requires j < |c.dialogs|
  {
    if verb == INVITE then LastInvite(trs, c, Some(j), incoming, t) else NewestOf(trs, Side(c, Some(j), incoming), verb, t)
  }

  /** Of one transaction in each direction the incoming one is the last only when it is younger. */
  predicate Later(trs: map<nat, Transaction>, incoming: bool, t: nat, u: nat) {
    if incoming then t in trs && u in trs && trs[t].birth > trs[u].birth
    else t in trs && u in trs ==> trs[t].birth >= trs[u].birth
  }

  ghost predicate LastOfAll(trs: map<nat, Transaction>, c: Context, j: nat, verb: Method, incoming: bool, t: nat)
    requires j < |c.dialogs|
  {
    && LastOf(trs, c, j, verb, incoming, t)
    && forall u: nat :: LastOf(trs, c, j, verb, !incoming, u) ==> Later(trs, incoming, t, u)
  }

  /** A transaction that is not answered yet; an INVITE server transaction only counts as
      answered once the ACK is there. */
  predicate Open(trs: map<nat, Transaction>, verb: Method, t: nat) {
    t in trs &&
    match trs[t].phase
    case Pending => true
    case Completed => verb == INVITE && trs[t].incoming
    case Confirmed => verb != INVITE
    case Terminated => false
  }

  /** The last transaction of the method is still open. */
  ghost predicate Blocked(trs: map<nat, Transaction>, c: Context, j: nat, verb: Method)
    requires j < |c.dialogs|
  {
    exists t: nat, incoming: bool :: LastOfAll(trs, c, j, verb, incoming, t) && Open(trs, verb, t)
  }

  lemma BlockedIs(s: State, i: nat, j: nat, verb: Method)
    requires HasDialog(s, Call, i, j)
    ensures MaySend(s, i, j, verb) <==> !Blocked(s.trs, s.calls[i], j, verb)
  {
    hide LastInvite, NewestOf, LastIncInvite, LastOutInvite, Latest;
    var c, d := s.calls[i], s.calls[i].dialogs[j];
    LastInviteIs(s.trs, c, Some(j));
    LatestIsNewest(s.trs, d.inc, verb);
    LatestIsNewest(s.trs, d.out, verb);
    var inc := if verb == INVITE then LastIncInvite(s.trs, c, Some(j)) else Latest(s.trs, d.inc, verb);
    var out := if verb == INVITE then LastOutInvite(s.trs, c, Some(j)) else Latest(s.trs, d.out, verb);
    assert forall t: nat :: LastOf(s.trs, c, j, verb, true, t) <==> inc == Some(t);
    assert forall t: nat :: LastOf(s.trs, c, j, verb, false, t) <==> out == Some(t);
    LastIsYounger(s.trs, c, j, verb, inc, out);
  }

  lemma LastIsYounger(trs: map<nat, Transaction>, c: Context, j: nat, verb: Method, inc: Option<nat>, out: Option<nat>)
    requires j < |c.dialogs|
    requires forall t: nat :: LastOf(trs, c, j, verb, true, t) <==> inc == Some(t)
    requires forall t: nat :: LastOf(trs, c, j, verb, false, t) <==> out == Some(t)
    ensures Blocked(trs, c, j, verb) <==>
              var last := Younger(trs, inc, out);
              last.Some? && Open(trs, verb, last.value)
  {
    hide LastOf;
    var last := Younger(trs, inc, out);
    forall t: nat | LastOfAll(trs, c, j, verb, true, t) ensures last == Some(t) {
      assert LastOf(trs, c, j, verb, true, t);
      if out.Some? { assert LastOf(trs, c, j, verb, false, out.value); assert Later(trs, true, t, out.value); }
    }
    forall t: nat | LastOfAll(trs, c, j, verb, false, t) ensures last == Some(t) {
      assert LastOf(trs, c, j, verb, false, t);
      if inc.Some? { assert LastOf(trs, c, j, verb, true, inc.value); assert Later(trs, false, t, inc.value); }
    }
    assert forall t: nat, incoming: bool :: LastOfAll(trs, c, j, verb, incoming, t) ==> last == Some(t);
    if last.Some? {
      var incoming := out.None? || (inc.Some? && Later(trs, true, inc.value, out.value));
      assert LastOfAll(trs, c, j, verb, incoming, last.value);
    }
  }

  /** eXosip_call_send_request puts one more request in the dialog, unless the last transaction of
      its method, in either direction, is still open. */
  lemma CallRequestFate(s: State, did: int, verb: Method)
    ensures var s' := Next(s, DoCallSendRequest(did, verb));
            match if did > 0 then FindDialog(s.calls, did) else None
            case None => s' == s
            case Some((i, j)) =>
              var c, d := s.calls[i], s.calls[i].dialogs[j];
              if Blocked(s.trs, c, j, verb) then s' == s
              else
                && Created(s, s', Transaction(verb, false, Pending, 0, s.now, Some(Jinfo(Call, c.ref, Some(d.ref)))), false)
                && OnlyDialog(s, s', Call, i, j, d.(out := [s.nextTid] + d.out))
                && s'.byes == if verb == BYE then [d.ref] + s.byes else s.byes
  {
    hide MaySend, FindDialog, Blocked;
    match if did > 0 then FindDialog(s.calls, did) else None
    case None =>
    case Some((i, j)) => BlockedIs(s, i, j, verb);
  }

  // ---------------------------------------------------------------- new contexts

  /** A new record without ids in front of the others, which only get ids. */
  ghost predicate Joined(s: State, s': State, k: Kind, c: Context) {
    Alike(AddContext(s, k, c), s')
  }

  /** An initial INVITE or SUBSCRIBE is the outgoing slot of a new record without dialogs, and
      knows it. */
  lemma InitialFate(s: State, k: Kind)
    requires k != Notification
    ensures var s' := Next(s, if k == Call then DoSendInitialInvite else DoSendInitialSubscribe);
            && Created(s, s', Transaction(if k == Call then INVITE else SUBSCRIBE, false, Pending, 0, s.now,
                                          Some(Jinfo(k, s.nextRef, None))), false)
            && Joined(s, s', k, Context(s.nextRef, if k == Call then -1 else 0, [], None, Some(s.nextTid), 0, 0, false))
  {
    hide Update, Alike;
    var c := Context(s.nextRef, if k == Call then -1 else 0, [], None, Some(s.nextTid), 0, 0, false);
    var tr := Outgoing(s, if k == Call then INVITE else SUBSCRIBE, Some(Jinfo(k, s.nextRef, None)));
    var s1 := AddContext(Launch(s, tr), k, c).(nextRef := s.nextRef + 1);
    AlikeUpdate(s1);
    AlikeEqual(AddContext(s, k, c), s1, Update(s1));
  }

  lemma AnsweredIncoming(s: State, k: Kind)
    requires k != Subscription
    ensures var s' := NewIncoming(s, k, true);
            && Created(s, s', Transaction(if k == Call then INVITE else SUBSCRIBE, true, Pending, 0, s.now,
                                          Some(Jinfo(k, s.nextRef, Some(s.nextRef + 1)))), false)
            && Joined(s, s', k, Context(s.nextRef, if k == Call then -1 else 0, [Dialog(s.nextRef + 1, -1, EarlyLeg, [], [], 0)],
                                        Some(s.nextTid), None, 0, 0, false))
  {
    hide Update, Alike;
    var d := Dialog(s.nextRef + 1, -1, EarlyLeg, [], [], 0);
    var c := Context(s.nextRef, if k == Call then -1 else 0, [d], Some(s.nextTid), None, 0, 0, false);
    var tr := Incoming(s, if k == Call then INVITE else SUBSCRIBE, Some(Jinfo(k, s.nextRef, Some(s.nextRef + 1))));
    var s1 := AddContext(Launch(s, tr), k, c).(nextRef := s.nextRef + 2);
    AlikeUpdate(s1);
    AlikeEqual(AddContext(s, k, c), s1, Update(s1));
  }

  lemma UnansweredIncoming(s: State, k: Kind)
    requires k != Subscription
    ensures var s' := NewIncoming(s, k, false);
            && Created(s, s', Transaction(if k == Call then INVITE else SUBSCRIBE, true, Pending, 0, s.now, None), true)
            && if k == Call then Joined(s, s', Call, Context(s.nextRef, -1, [], None, None, 0, 0, false)) else Alike(s, s')
  {
    hide Alike;
    var s' := NewIncoming(s, k, false);
    AlikeSelf(s');
    AlikeEqual(if k == Call then AddContext(s, Call, Context(s.nextRef, -1, [], None, None, 0, 0, false)) else s, s', s');
  }

  /** An incoming INVITE or SUBSCRIBE is the incoming slot of a new record with one early dialog.
      When it cannot be answered it is only kept until it ends, and the call stays empty. */
  lemma IncomingFate(s: State, k: Kind, ok: bool)
    ensures var s' := Next(s, DoNewIncoming(k, ok));
            var verb := if k == Call then INVITE else SUBSCRIBE;
            if k == Subscription then s' == s
            else if ok then
              && Created(s, s', Transaction(verb, true, Pending, 0, s.now, Some(Jinfo(k, s.nextRef, Some(s.nextRef + 1)))), false)
              && Joined(s, s', k, Context(s.nextRef, if k == Call then -1 else 0, [Dialog(s.nextRef + 1, -1, EarlyLeg, [], [], 0)],
                                          Some(s.nextTid), None, 0, 0, false))
            else
              && Created(s, s', Transaction(verb, true, Pending, 0, s.now, None), true)
              && if k == Call then Joined(s, s', Call, Context(s.nextRef, -1, [], None, None, 0, 0, false)) else Alike(s, s')
  {
    hide Alike, Created, Joined;
    if k != Subscription {
      hide NewIncoming;
      AnsweredIncoming(s, k);
      UnansweredIncoming(s, k);
    }
  }

  // ---------------------------------------------------------------- records but for their counters

  predicate SameDialog(a: Dialog, b: Dialog) {
    b == a.(id := b.id, retry := b.retry)
  }

  predicate SameRecord(a: Context, b: Context) {
    && b == a.(id := b.id, retry := b.retry, resent := b.resent, success := b.success, dialogs := b.dialogs)
    && |a.dialogs| == |b.dialogs| && forall j :: 0 <= j < |a.dialogs| ==> SameDialog(a.dialogs[j], b.dialogs[j])
  }

  predicate SameRecords(as': seq<Context>, bs: seq<Context>) {
    |as'| == |bs| && forall i :: 0 <= i < |as'| ==> SameRecord(as'[i], bs[i])
  }

  /** The records of `s'` are those of `s` but for ids and counters. */
  ghost predicate Similar(s: State, s': State) {
    (forall k: Kind :: SameRecords(List(s, k), List(s', k))) && s'.pubs == s.pubs
  }

  lemma AlikeSimilar(s: State, s': State)
    requires Alike(s, s')
    ensures Similar(s, s')
  {
    forall k: Kind ensures SameRecords(List(s, k), List(s', k)) {
      assert SameContexts(List(s, k), List(s', k));
      forall i | 0 <= i < |List(s, k)| ensures SameRecord(List(s, k)[i], List(s', k)[i]) {
        assert SameContext(List(s, k)[i], List(s', k)[i]);
        assert forall j :: 0 <= j < |List(s, k)[i].dialogs| ==> SameButIds(List(s, k)[i].dialogs[j], List(s', k)[i].dialogs[j]);
      }
    }
  }

  lemma SimilarTrans(a: State, b: State, c: State)
    requires Similar(a, b) && Similar(b, c)
    ensures Similar(a, c)
  {
    forall k: Kind ensures SameRecords(List(a, k), List(c, k)) {
      assert SameRecords(List(a, k), List(b, k)) && SameRecords(List(b, k), List(c, k));
      forall i | 0 <= i < |List(a, k)| ensures SameRecord(List(a, k)[i], List(c, k)[i]) {
        assert SameRecord(List(a, k)[i], List(b, k)[i]) && SameRecord(List(b, k)[i], List(c, k)[i]);
        forall j | 0 <= j < |List(a, k)[i].dialogs| ensures SameDialog(List(a, k)[i].dialogs[j], List(c, k)[i].dialogs[j]) {
          assert SameDialog(List(a, k)[i].dialogs[j], List(b, k)[i].dialogs[j]);
        }
      }
    }
  }

  /** Changing one dialog in the same way, or one context, keeps records similar. */
  lemma SimilarSetDialog(a: State, b: State, k: Kind, i: nat, j: nat, d: Dialog, d': Dialog)
    requires Similar(a, b) && HasDialog(a, k, i, j) && SameDialog(d, d')
    ensures HasDialog(b, k, i, j) && Similar(SetDialog(a, k, i, j, d), SetDialog(b, k, i, j, d'))
  {
    assert SameRecords(List(a, k), List(b, k)) && SameRecord(List(a, k)[i], List(b, k)[i]);
    var a', b' := SetDialog(a, k, i, j, d), SetDialog(b, k, i, j, d');
    forall k': Kind ensures SameRecords(List(a', k'), List(b', k')) {
      assert SameRecords(List(a, k'), List(b, k'));
      forall x | 0 <= x < |List(a', k')| ensures SameRecord(List(a', k')[x], List(b', k')[x]) {
        assert SameRecord(List(a, k')[x], List(b, k')[x]);
      }
    }
  }

  lemma SimilarRemove(a: State, b: State, k: Kind, i: nat)
    requires Similar(a, b) && i < |List(a, k)|
    ensures i < |List(b, k)| && Similar(RemoveContext(a, k, i), RemoveContext(b, k, i))
  {
    assert SameRecords(List(a, k), List(b, k));
    var a', b' := RemoveContext(a, k, i), RemoveContext(b, k, i);
    forall k': Kind ensures SameRecords(List(a', k'), List(b', k')) {
      assert SameRecords(List(a, k'), List(b, k'));
      if k' == k {
        forall x | 0 <= x < |List(a', k)| ensures SameRecord(List(a', k)[x], List(b', k)[x]) {
          assert SameRecord(List(a, k)[if x < i then x else x + 1], List(b, k)[if x < i then x else x + 1]);
        }
      }
    }
  }

  lemma SimilarEqual(s: State, t: State)
    requires s.calls == t.calls && s.subs == t.subs && s.notifies == t.notifies && s.pubs == t.pubs
    ensures Similar(s, t)
  {
    forall k: Kind ensures SameRecords(List(s, k), List(t, k)) { match k case Call => case Subscription => case Notification => }
  }

  // ---------------------------------------------------------------- responses

  /** A response that a client transaction takes, and the record it is about. */
  predicate Taken(s: State, t: nat, code: nat, ji: Jinfo, i: nat) {
    && t in s.trs && !s.trs[t].incoming && s.trs[t].phase == Pending && 100 <= code < 700
    && s.trs[t].jinfo == Some(ji) && FindRef(List(s, ji.kind), ji.ctx) == Some(i)
  }

  predicate Progressed(s: State, s': State, t: nat, code: nat)
    requires t in s.trs
  {
    t in s'.trs && s'.trs[t].phase == ClientPhase(s.trs[t].verb, code) && s'.trs[t].response == code
    && s'.trs[t].verb == s.trs[t].verb && !s'.trs[t].incoming
  }

  /** A new dialog in front of those of record `i`, to which transaction `t` is tied. */
  ghost predicate Opened(s: State, s': State, t: nat, ji: Jinfo, i: nat, leg: Leg)
    requires i < |List(s, ji.kind)|
  {
    Similar(AddDialog(s, ji.kind, i, leg), s') && t in s'.trs && s'.trs[t].jinfo == Some(ji.(dialog := Some(s.nextRef)))
  }

  lemma OpenedBy(s: State, s1: State, t: nat, ji: Jinfo, i: nat, leg: Leg)
    requires i < |List(s, ji.kind)| && Similar(s, s1) && s1.nextRef == s.nextRef && t in s1.trs
    ensures i < |List(s1, ji.kind)| && Opened(s, StartDialog(s1, t, i, ji, leg), t, ji, i, leg)
    ensures StartDialog(s1, t, i, ji, leg).trs == s1.trs[t := s1.trs[t].(jinfo := Some(ji.(dialog := Some(s.nextRef))))]
  {
    hide Update, Similar, Alike;
    assert SameRecords(List(s, ji.kind), List(s1, ji.kind)) by { SimilarAt(s, s1, ji.kind); }
    var s2 := SetJinfo(AddDialog(s1, ji.kind, i, leg), t, Some(ji.(dialog := Some(s1.nextRef))));
    AlikeUpdate(s2);
    AlikeSimilar(s2, Update(s2));
    SimilarAdd(s, s1, ji.kind, i, leg);
    SimilarEqual(AddDialog(s1, ji.kind, i, leg), s2);
    SimilarTrans(AddDialog(s, ji.kind, i, leg), AddDialog(s1, ji.kind, i, leg), s2);
    SimilarTrans(AddDialog(s, ji.kind, i, leg), s2, Update(s2));
  }

  lemma SimilarAt(a: State, b: State, k: Kind)
    requires Similar(a, b)
    ensures SameRecords(List(a, k), List(b, k))
  {
  }

  lemma SimilarAdd(a: State, b: State, k: Kind, i: nat, leg: Leg)
    requires Similar(a, b) && i < |List(a, k)| && a.nextRef == b.nextRef
    ensures i < |List(b, k)| && Similar(AddDialog(a, k, i, leg), AddDialog(b, k, i, leg))
  {
    assert SameRecords(List(a, k), List(b, k)) && SameRecord(List(a, k)[i], List(b, k)[i]);
    var a', b' := AddDialog(a, k, i, leg), AddDialog(b, k, i, leg);
    forall k': Kind ensures SameRecords(List(a', k'), List(b', k')) {
      assert SameRecords(List(a, k'), List(b, k'));
      forall x | 0 <= x < |List(a', k')| ensures SameRecord(List(a', k')[x], List(b', k')[x]) {
        assert SameRecord(List(a, k')[x], List(b, k')[x]);
      }
    }
  }

  /** The dialog of a response: the first one at the recorded address; when none is recorded, for a
      SUBSCRIBE of a subscription, the one that has its tag. */
  lemma ResponseDialogLaw(c: Context, ji: Jinfo, verb: Method, f: Facts, j: nat)
    ensures ResponseDialog(c, ji, verb, f) == Some(j) <==>
              j < |c.dialogs| &&
              match ji.dialog
              case Some(ref) => c.dialogs[j].ref == ref && forall x :: 0 <= x < j ==> c.dialogs[x].ref != ref
              case None => verb == SUBSCRIBE && ji.kind == Subscription && f.tagged == Some(j)
  {
    if ji.dialog.Some? { FirstAt(c.dialogs, ji.dialog.value, j); }
  }

  lemma FirstAt(ds: seq<Dialog>, ref: nat, j: nat)
    ensures FindDialogRef(ds, ref) == Some(j) <==> j < |ds| && ds[j].ref == ref && forall x :: 0 <= x < j ==> ds[x].ref != ref
  {
    if ds != [] && j > 0 { FirstAt(ds[1..], ref, j - 1); }
  }

  /** A provisional response to an INVITE or a SUBSCRIBE opens one early dialog, if none is on
      record and one can be built; every other one changes no record, and ties its transaction to
      the dialog that it is about. */
  lemma ProvisionalFate(s: State, t: nat, code: nat, f: Facts, ji: Jinfo, i: nat)
    requires Taken(s, t, code, ji, i) && code < 200
    ensures var s' := Next(s, DoRespond(t, code, f));
            var at := ResponseDialog(List(s, ji.kind)[i], ji, s.trs[t].verb, f);
            && Progressed(s, s', t, code)
            && if OpensDialog(s.trs[t].verb) && code > 100 && at.None? && ji.dialog.None? && f.dialogOk
               then Opened(s, s', t, ji, i, EarlyLeg)
               else
                 && Similar(s, s')
                 && s'.trs[t].jinfo == if OpensDialog(s.trs[t].verb) && code > 100 && at.Some?
                                       then Some(ji.(dialog := Some(DialogAt(s, ji.kind, i, at.value).ref))) else Some(ji)
  {
    hide Update, Similar, ResponseDialog, StartDialog, FindRef;
    var s1 := SetProgress(s, t, ClientPhase(s.trs[t].verb, code), code);
    SimilarEqual(s, s1);
    OpenedBy(s, s1, t, ji, i, EarlyLeg);
    SimilarEqual(s, SetJinfo(s1, t, Some(ji)));
    var at := ResponseDialog(List(s1, ji.kind)[i], ji, s.trs[t].verb, f);
    if at.Some? { SimilarEqual(s, SetJinfo(s1, t, Some(ji.(dialog := Some(DialogAt(s1, ji.kind, i, at.value).ref))))); }
  }

  /** The leg of a dialog after a 2xx: a live dialog is confirmed, unless the 2xx to an INVITE
      comes from another party and no dialog can be built from it; a dead one stays dead. */
  function LegAfter(leg: Leg, verb: Method, f: Facts): Leg {
    match leg
    case NoLeg => NoLeg
    case _ => if verb != INVITE || f.sameTag || f.dialogOk then ConfirmedLeg else NoLeg
  }

  lemma ResetIsSimilar(s: State, i: nat, ji: Jinfo)
    requires i < |List(s, ji.kind)|
    ensures Similar(s, ResetRetries(s, i, ji)) && ResetRetries(s, i, ji).trs == s.trs && ResetRetries(s, i, ji).nextRef == s.nextRef
    ensures var c := List(ResetRetries(s, i, ji), ji.kind)[i]; ji.kind != Notification ==> c.retry == 0 && c.resent == 0 && c.success
    ensures var cs := List(ResetRetries(s, i, ji), ji.kind);
            ji.dialog.Some? ==> forall j :: 0 <= j < |cs[i].dialogs| && FindDialogRef(List(s, ji.kind)[i].dialogs, ji.dialog.value) == Some(j) ==> cs[i].dialogs[j].retry == 0
  {
    hide FindDialogRef;
    var s' := ResetRetries(s, i, ji);
    forall k: Kind ensures SameRecords(List(s, k), List(s', k)) {
      forall x | 0 <= x < |List(s, k)| ensures SameRecord(List(s, k)[x], List(s', k)[x]) {
      }
    }
  }

  lemma SameFinds(as': seq<Dialog>, bs: seq<Dialog>, ref: nat)
    requires |as'| == |bs| && forall j :: 0 <= j < |as'| ==> SameDialog(as'[j], bs[j])
    ensures FindDialogRef(as', ref) == FindDialogRef(bs, ref)
  {
    if as' != [] {
      assert SameDialog(as'[0], bs[0]);
      SameFinds(as'[1..], bs[1..], ref);
    }
  }

  lemma SameResponseDialog(a: Context, b: Context, ji: Jinfo, verb: Method, f: Facts)
    requires SameRecord(a, b)
    ensures ResponseDialog(a, ji, verb, f) == ResponseDialog(b, ji, verb, f)
  {
    hide FindDialogRef;
    if ji.dialog.Some? { SameFinds(a.dialogs, b.dialogs, ji.dialog.value); }
  }

  /** The state in which cb_rcv2xx looks for the dialog: the response is recorded, the counters are
      reset, and the records are the same. */
  lemma AfterReset(s: State, t: nat, code: nat, f: Facts, ji: Jinfo, i: nat)
    requires Taken(s, t, code, ji, i) && 200 <= code < 300
    ensures var s1 := SetProgress(s, t, ClientPhase(s.trs[t].verb, code), code);
            var s2 := ResetRetries(s1, i, ji);
            && Next(s, DoRespond(t, code, f)) == OnSuccess(s1, t, i, ji, f)
            && Similar(s, s2) && s2.trs == s1.trs && s2.nextRef == s.nextRef && i < |List(s2, ji.kind)|
            && Progressed(s, s2, t, code) && s2.trs[t].jinfo == Some(ji)
            && ResponseDialog(List(s2, ji.kind)[i], ji, s.trs[t].verb, f) == ResponseDialog(List(s, ji.kind)[i], ji, s.trs[t].verb, f)
  {
    hide Similar, ResponseDialog, FindRef, ResetRetries, OnSuccess;
    var s1 := SetProgress(s, t, ClientPhase(s.trs[t].verb, code), code);
    var s2 := ResetRetries(s1, i, ji);
    SimilarEqual(s, s1);
    ResetIsSimilar(s1, i, ji);
    SimilarTrans(s, s1, s2);
    SimilarAt(s, s2, ji.kind);
    assert SameRecord(List(s, ji.kind)[i], List(s2, ji.kind)[i]);
    SameResponseDialog(List(s, ji.kind)[i], List(s2, ji.kind)[i], ji, s.trs[t].verb, f);
  }

  /** A 2xx to an INVITE or a SUBSCRIBE confirms the dialog on record, or opens a confirmed one; to
      the last NOTIFY of a subscription it ends the record; nothing else but counters changes. */
  lemma SuccessFate(s: State, t: nat, code: nat, f: Facts, ji: Jinfo, i: nat)
    requires Taken(s, t, code, ji, i) && 200 <= code < 300
    ensures var s' := Next(s, DoRespond(t, code, f));
            var verb := s.trs[t].verb;
            var at := ResponseDialog(List(s, ji.kind)[i], ji, verb, f);
            (OpensDialog(verb) || ji.kind != Notification ==> Progressed(s, s', t, code)) &&
            if OpensDialog(verb) && at.Some? then
              var d := DialogAt(s, ji.kind, i, at.value);
              && Similar(SetDialog(s, ji.kind, i, at.value, d.(leg := LegAfter(d.leg, verb, f))), s')
              && t in s'.trs && s'.trs[t].jinfo == Some(ji.(dialog := Some(d.ref)))
            else if OpensDialog(verb) && ji.dialog.None? && f.dialogOk then Opened(s, s', t, ji, i, ConfirmedLeg)
            else if verb == NOTIFY && ji.kind == Notification && f.over then Similar(RemoveContext(s, Notification, i), s')
            else Similar(s, s')
  {
    hide Update, Similar, ResponseDialog, StartDialog, ResetRetries, FreeContext, SetProgress, Next, Taken;
    TakenIs(s, t, code, ji, i);
    var verb := s.trs[t].verb;
    ProgressKeepsRecords(s, t, ClientPhase(verb, code), code);
    var s2 := ResetRetries(SetProgress(s, t, ClientPhase(verb, code), code), i, ji);
    AfterReset(s, t, code, f, ji, i);
    OpenedBy(s, s2, t, ji, i, ConfirmedLeg);
    var at := ResponseDialog(List(s2, ji.kind)[i], ji, verb, f);
    if OpensDialog(verb) && at.Some? {
      ConfirmedSimilar(s, s2, t, i, at.value, ji, LegAfter(DialogAt(s, ji.kind, i, at.value).leg, verb, f));
    } else if verb == NOTIFY && ji.kind == Notification && f.over {
      FreedSimilar(s, s2, Notification, i);
    }
  }

  lemma TakenIs(s: State, t: nat, code: nat, ji: Jinfo, i: nat)
    requires Taken(s, t, code, ji, i)
    ensures t in s.trs && i < |List(s, ji.kind)|
  {
  }

  lemma ProgressKeepsRecords(s: State, t: nat, phase: Phase, code: nat)
    requires t in s.trs
    ensures var s1 := SetProgress(s, t, phase, code);
            t in s1.trs && s1.trs[t].verb == s.trs[t].verb && forall k: Kind :: List(s1, k) == List(s, k)
  {
    var s1 := SetProgress(s, t, phase, code);
    forall k: Kind ensures List(s1, k) == List(s, k) { match k case Call => case Subscription => case Notification => }
  }

  /** A 2xx gives a call or subscription all its retries back. */
  lemma SuccessResets(s: State, t: nat, code: nat, f: Facts, ji: Jinfo, i: nat)
    requires Taken(s, t, code, ji, i) && 200 <= code < 300 && ji.kind != Notification
    ensures var cs := List(Next(s, DoRespond(t, code, f)), ji.kind);
            i < |cs| && cs[i].retry == 0 && cs[i].resent == 0 && cs[i].success
  {
    hide Update, FindRef, ResponseDialog;
    var s1 := SetProgress(s, t, ClientPhase(s.trs[t].verb, code), code);
    ResetIsSimilar(s1, i, ji);
    var s2 := ResetRetries(s1, i, ji);
    var s3 := SetJinfo(AddDialog(s2, ji.kind, i, ConfirmedLeg), t, Some(ji.(dialog := Some(s2.nextRef))));
    UpdateKeepsShape(s3);
    assert SameContexts(List(s3, ji.kind), List(Update(s3), ji.kind));
    assert SameContext(List(s3, ji.kind)[i], List(Update(s3), ji.kind)[i]);
  }

  lemma ConfirmedSimilar(s: State, s2: State, t: nat, i: nat, j: nat, ji: Jinfo, leg: Leg)
    requires Similar(s, s2) && HasDialog(s, ji.kind, i, j)
    ensures HasDialog(s2, ji.kind, i, j) && DialogAt(s2, ji.kind, i, j).leg == DialogAt(s, ji.kind, i, j).leg
            && DialogAt(s2, ji.kind, i, j).ref == DialogAt(s, ji.kind, i, j).ref
    ensures var s3 := SetDialog(s2, ji.kind, i, j, DialogAt(s2, ji.kind, i, j).(leg := leg));
            Similar(SetDialog(s, ji.kind, i, j, DialogAt(s, ji.kind, i, j).(leg := leg)),
                    SetJinfo(s3, t, Some(ji.(dialog := Some(DialogAt(s, ji.kind, i, j).ref)))))
  {
    hide Similar;
    SimilarAt(s, s2, ji.kind);
    assert SameRecord(List(s, ji.kind)[i], List(s2, ji.kind)[i]);
    var d, d' := DialogAt(s, ji.kind, i, j), DialogAt(s2, ji.kind, i, j);
    assert SameDialog(d, d');
    SimilarSetDialog(s, s2, ji.kind, i, j, d.(leg := leg), d'.(leg := leg));
    var s3 := SetDialog(s2, ji.kind, i, j, d'.(leg := leg));
    SimilarEqual(s3, SetJinfo(s3, t, Some(ji.(dialog := Some(d.ref)))));
    SimilarTrans(SetDialog(s, ji.kind, i, j, d.(leg := leg)), s3, SetJinfo(s3, t, Some(ji.(dialog := Some(d.ref)))));
  }

  lemma FreedSimilar(s: State, s2: State, k: Kind, i: nat)
    requires Similar(s, s2) && i < |List(s, k)|
    ensures i < |List(s2, k)| && Similar(RemoveContext(s, k, i), FreeContext(s2, k, i))
  {
    hide Similar, FreeContext;
    SimilarRemove(s, s2, k, i);
    FreedIsGone(s2, k, i);
    SimilarTrans(RemoveContext(s, k, i), RemoveContext(s2, k, i), FreeContext(s2, k, i));
  }

  lemma FreedDialogsSimilar(s: State, ds: seq<Dialog>)
    ensures Similar(s, FreeDialogs(s, ds))
    decreases |ds|
  {
    hide Update, Similar, Alike;
    if ds == [] { SimilarEqual(s, s); }
    else {
      var s1 := s.(garbage := Reversed(ds[0].out) + Reversed(ds[0].inc) + s.garbage, trs := ForgetAll(s.trs, ds[0].inc + ds[0].out));
      AlikeUpdate(s1);
      AlikeSimilar(s1, Update(s1));
      SimilarEqual(s, s1);
      SimilarTrans(s, s1, Update(s1));
      FreedDialogsSimilar(Update(s1), ds[1..]);
      SimilarTrans(s, Update(s1), FreeDialogs(s, ds));
    }
  }

  /** Freeing a record takes it off its list and changes no other. */
  lemma FreedIsGone(s: State, k: Kind, i: nat)
    requires i < |List(s, k)|
    ensures Similar(RemoveContext(s, k, i), FreeContext(s, k, i))
  {
    hide Similar, FreeDialogs;
    var c := List(s, k)[i];
    var s1 := FreeDialogs(RemoveContext(s, k, i), c.dialogs);
    FreedDialogsSimilar(RemoveContext(s, k, i), c.dialogs);
    SimilarEqual(s1, DiscardSlot(s1, c.inc));
    SimilarEqual(s1, DiscardSlot(DiscardSlot(s1, c.inc), c.out));
    SimilarTrans(RemoveContext(s, k, i), s1, FreeContext(s, k, i));
  }

  /** The early dialog that a negative answer to transaction `t` ends. */
  function EarlyOf(s: State, t: nat, ji: Jinfo, i: nat): (r: Option<nat>)
    requires t in s.trs && i < |List(s, ji.kind)|
    ensures r.Some? ==> HasDialog(s, ji.kind, i, r.value) && DialogAt(s, ji.kind, i, r.value).leg == EarlyLeg
  {
    var at := if ji.dialog.Some? then FindDialogRef(List(s, ji.kind)[i].dialogs, ji.dialog.value) else None;
    if OpensDialog(s.trs[t].verb) && at.Some? && DialogAt(s, ji.kind, i, at.value).leg == EarlyLeg then at else None
  }

  lemma FailureEnds(s: State, s1: State, t: nat, ji: Jinfo, i: nat)
    requires t in s.trs && t in s1.trs && s1.trs[t].verb == s.trs[t].verb && i < |List(s, ji.kind)|
    requires s1.calls == s.calls && s1.subs == s.subs && s1.notifies == s.notifies && s1.pubs == s.pubs
    ensures var s' := OnFailure(s1, t, i, ji);
            && s'.trs == s1.trs
            && match EarlyOf(s, t, ji, i)
               case Some(j) => Ended(s, s', ji.kind, i, j, DialogAt(s, ji.kind, i, j).(leg := NoLeg))
               case None => s' == s1
  {
    hide Update, Alike, FindDialogRef;
    var at := EarlyOf(s, t, ji, i);
    assert List(s, ji.kind) == List(s1, ji.kind);
    if at.Some? {
      var s2 := ClearLeg(s1, ji.kind, i, at.value);
      AlikeUpdate(s2);
      DeadLosesId(s2, ji.kind, i, at.value);
      AlikeEqual(SetDialog(s, ji.kind, i, at.value, DialogAt(s, ji.kind, i, at.value).(leg := NoLeg)), s2, Update(s2));
    }
  }

  /** A negative final response ends the early dialog of its INVITE or SUBSCRIBE, and nothing else. */
  lemma FailureFate(s: State, t: nat, code: nat, f: Facts, ji: Jinfo, i: nat)
    requires Taken(s, t, code, ji, i) && code >= 300
    ensures var s' := Next(s, DoRespond(t, code, f));
            && Progressed(s, s', t, code)
            && match EarlyOf(s, t, ji, i)
               case Some(j) => Ended(s, s', ji.kind, i, j, DialogAt(s, ji.kind, i, j).(leg := NoLeg))
               case None => s'.calls == s.calls && s'.subs == s.subs && s'.notifies == s.notifies
  {
    hide Update, Ended, EarlyOf, OnFailure, FindRef;
    FailureEnds(s, SetProgress(s, t, ClientPhase(s.trs[t].verb, code), code), t, ji, i);
  }

  // ---------------------------------------------------------------- answers

  /** An answer of the application confirms the dialog exactly when it is a 2xx to the INVITE of a
      call, or to the SUBSCRIBE of an incoming subscription, and the dialog is live. */
  lemma AnswerFate(s: State, k: Kind, t: nat, code: nat)
    ensures var s' := Next(s, DoAnswer(k, t, code));
            var at := FindTransaction(List(s, k), t);
            && s'.trs == s.trs
            && if k != Subscription && t in s.trs && s.trs[t].incoming && s.trs[t].phase == Pending && 200 <= code < 300
                  && s.trs[t].verb == (if k == Call then INVITE else SUBSCRIBE)
                  && at.Some? && at.value.1.Some? && DialogAt(s, k, at.value.0, at.value.1.value).leg != NoLeg
               then var (i, j) := (at.value.0, at.value.1.value);
                    Alike(SetDialog(s, k, i, j, DialogAt(s, k, i, j).(leg := ConfirmedLeg)), s')
               else Alike(s, s')
  {
    hide Update, Alike, FindTransaction;
    AlikeSelf(s);
    AlikeUpdate(s);
    match FindTransaction(List(s, k), t)
    case Some((i, Some(j))) => AlikeUpdate(SetDialog(s, k, i, j, DialogAt(s, k, i, j).(leg := ConfirmedLeg)));
    case _ =>
  }

  /** When a negative answer leaves, the early dialog of its INVITE or SUBSCRIBE ends. */
  lemma AnswerSentFate(s: State, t: nat, code: nat, ji: Jinfo, i: nat)
    requires t in s.trs && s.trs[t].incoming && s.trs[t].phase == Pending && 100 <= code < 700
    requires s.trs[t].jinfo == Some(ji) && FindRef(List(s, ji.kind), ji.ctx) == Some(i)
    ensures var s' := Next(s, DoAnswerSent(t, code));
            && t in s'.trs && s'.trs[t] == s.trs[t].(phase := ClientPhase(s.trs[t].verb, code), response := code)
            && match if code >= 300 then EarlyOf(s, t, ji, i) else None
               case Some(j) => Ended(s, s', ji.kind, i, j, DialogAt(s, ji.kind, i, j).(leg := NoLeg))
               case None => s'.calls == s.calls && s'.subs == s.subs && s'.notifies == s.notifies
  {
    hide Update, Ended, EarlyOf, OnFailure, FindRef;
    FailureEnds(s, SetProgress(s, t, ClientPhase(s.trs[t].verb, code), code), t, ji, i);
  }

  // ---------------------------------------------------------------- subscriptions

  /** A transaction of the library that ends unanswered, refused for good, or with the news that
      the subscription is over, takes its record with it: a NOTIFY an incoming subscription, a
      SUBSCRIBE, which need not be refused, an outgoing one. */
  predicate LastStraw(tr: Transaction, k: Kind, f: Facts) {
    && !tr.incoming
    && match k
       case Call => false
       case Subscription => tr.verb == SUBSCRIBE && (tr.response == 0 || f.over)
       case Notification =>
         tr.verb == NOTIFY
         && (tr.response == 0 || (tr.response >= 300 && tr.response !in {401, 407}) || (200 <= tr.response <= 299 && f.over))
  }

  lemma KillFate(s: State, t: nat, f: Facts)
    requires t in s.trs && s.trs[t].phase != Terminated
    ensures var s' := Next(s, DoKill(t, f));
            && t in s'.trs && s'.trs[t].phase == Terminated && s'.trs[t].response == s.trs[t].response
            && match s.trs[t].jinfo
               case None => s'.calls == s.calls && s'.subs == s.subs && s'.notifies == s.notifies
               case Some(ji) =>
                 var at := FindRef(List(s, ji.kind), ji.ctx);
                 if LastStraw(s.trs[t], ji.kind, f) && at.Some? then Similar(RemoveContext(s, ji.kind, at.value), s')
                 else s'.calls == s.calls && s'.subs == s.subs && s'.notifies == s.notifies
  {
    hide Similar, FreeContext, FindRef;
    var s1 := SetProgress(s, t, Terminated, s.trs[t].response);
    if s.trs[t].jinfo.Some? {
      var ji := s.trs[t].jinfo.value;
      var at := FindRef(List(s, ji.kind), ji.ctx);
      assert List(s1, ji.kind) == List(s, ji.kind);
      if at.Some? {
        FreedIsGone(s1, ji.kind, at.value);
        FreeKeepsPhases(s1, ji.kind, at.value, t);
        SimilarEqual(RemoveContext(s, ji.kind, at.value), RemoveContext(s1, ji.kind, at.value));
        SimilarTrans(RemoveContext(s, ji.kind, at.value), RemoveContext(s1, ji.kind, at.value), FreeContext(s1, ji.kind, at.value));
      }
    }
  }

  lemma FreeDialogsKeepPhases(s: State, ds: seq<Dialog>, t: nat)
    requires t in s.trs
    ensures t in FreeDialogs(s, ds).trs && FreeDialogs(s, ds).trs[t] == s.trs[t].(jinfo := FreeDialogs(s, ds).trs[t].jinfo)
    decreases |ds|
  {
    hide Update;
    if ds != [] {
      var s1 := s.(garbage := Reversed(ds[0].out) + Reversed(ds[0].inc) + s.garbage, trs := ForgetAll(s.trs, ds[0].inc + ds[0].out));
      UpdateKeepsShape(s1);
      FreeDialogsKeepPhases(Update(s1), ds[1..], t);
    }
  }

  lemma FreeKeepsPhases(s: State, k: Kind, i: nat, t: nat)
    requires i < |List(s, k)| && t in s.trs
    ensures t in FreeContext(s, k, i).trs && FreeContext(s, k, i).trs[t] == s.trs[t].(jinfo := FreeContext(s, k, i).trs[t].jinfo)
  {
    hide FreeDialogs;
    var c := List(s, k)[i];
    var s1 := FreeDialogs(RemoveContext(s, k, i), c.dialogs);
    FreeDialogsKeepPhases(RemoveContext(s, k, i), c.dialogs, t);
    SlotKeepsPhases(s1, c.inc, t);
    SlotKeepsPhases(DiscardSlot(s1, c.inc), c.out, t);
  }

  lemma SlotKeepsPhases(s: State, slot: Option<nat>, t: nat)
    requires t in s.trs
    ensures t in DiscardSlot(s, slot).trs && DiscardSlot(s, slot).trs[t] == s.trs[t].(jinfo := DiscardSlot(s, slot).trs[t].jinfo)
  {
  }

  /** A NOTIFY in a live dialog of a subscription: a malformed one is only kept until it ends, one
      that says the subscription is over ends the record, any other is kept by the dialog.  Another
      request, or a NOTIFY while the dialog's own NOTIFY is open, is only kept until it ends. */
  lemma NotifyFate(s: State, i: nat, j: nat, verb: Method, valid: bool, over: bool)
    requires HasDialog(s, Subscription, i, j) && s.subs[i].dialogs[j].leg != NoLeg
    ensures var s' := Next(s, DoRequestInDialog(Subscription, i, j, verb, valid, over));
            var c, d := s.subs[i], s.subs[i].dialogs[j];
            var free := forall t: nat :: NewestOf(s.trs, d.out, NOTIFY, t) ==> s.trs[t].phase == Terminated;
            if verb == NOTIFY && free && valid && over then Similar(RemoveContext(s, Subscription, i), s')
            else if verb == NOTIFY && free && valid then
              && Created(s, s', Transaction(NOTIFY, true, Pending, 0, s.now, Some(Jinfo(Subscription, c.ref, Some(d.ref)))), false)
              && OnlyDialog(s, s', Subscription, i, j, d.(inc := [s.nextTid] + d.inc))
            else
              && Created(s, s', Transaction(verb, true, Pending, 0, s.now, None), true)
              && s'.calls == s.calls && s'.subs == s.subs && s'.notifies == s.notifies
  {
    hide Similar, FreeContext, Latest, NewestOf, AcceptInDialog, Created, OnlyDialog;
    AcceptFate(s, Subscription, i, j, NOTIFY, true);
    RejectFate(s, verb);
    var d := s.subs[i].dialogs[j];
    LatestIsNewest(s.trs, d.out, NOTIFY);
    var l := Latest(s.trs, d.out, NOTIFY);
    assert l.Some? ==> NewestOf(s.trs, d.out, NOTIFY, l.value);
    assert (forall t: nat :: NewestOf(s.trs, d.out, NOTIFY, t) ==> s.trs[t].phase == Terminated) <==> PhaseOf(s.trs, l) == Terminated;
    SimilarEqual(s, Reject(s, NOTIFY));
    FreedSimilar(s, Reject(s, NOTIFY), Subscription, i);
  }

  /** A SUBSCRIBE in a live dialog of an incoming subscription is kept by the dialog when the one
      before it is answered; every other request is only kept until it ends. */
  lemma SubscribeFate(s: State, i: nat, j: nat, verb: Method, valid: bool, over: bool)
    requires HasDialog(s, Notification, i, j) && s.notifies[i].dialogs[j].leg != NoLeg
    ensures var s' := Next(s, DoRequestInDialog(Notification, i, j, verb, valid, over));
            var c, d := s.notifies[i], s.notifies[i].dialogs[j];
            var free := forall t: nat :: LastSubscribe(s.trs, c, j, t) && t in s.trs ==> s.trs[t].phase in {Terminated, Completed};
            if verb == SUBSCRIBE && free then
              && Created(s, s', Transaction(SUBSCRIBE, true, Pending, 0, s.now, Some(Jinfo(Notification, c.ref, Some(d.ref)))), false)
              && OnlyDialog(s, s', Notification, i, j, d.(inc := [s.nextTid] + d.inc))
            else
              && Created(s, s', Transaction(verb, true, Pending, 0, s.now, None), true)
              && s'.calls == s.calls && s'.subs == s.subs && s'.notifies == s.notifies
  {
    hide Latest, NewestOf, NoneOf, AcceptInDialog, Created, OnlyDialog;
    AcceptFate(s, Notification, i, j, SUBSCRIBE, true);
    RejectFate(s, verb);
    var c, d := s.notifies[i], s.notifies[i].dialogs[j];
    LatestIsNewest(s.trs, d.inc, SUBSCRIBE);
    var l := OrElse(Latest(s.trs, d.inc, SUBSCRIBE), c.inc);
    assert forall t: nat :: LastSubscribe(s.trs, c, j, t) <==> l == Some(t);
    assert l.Some? ==> LastSubscribe(s.trs, c, j, l.value);
    hide LastSubscribe;
    var phase := PhaseOf(s.trs, l);
    assert (forall t: nat :: LastSubscribe(s.trs, c, j, t) && t in s.trs ==> s.trs[t].phase in {Terminated, Completed})
      <==> (phase == Terminated || phase == Completed);
  }

  predicate LastSubscribe(trs: map<nat, Transaction>, c: Context, j: nat, t: nat)
    requires j < |c.dialogs|
  {
    NewestOf(trs, c.dialogs[j].inc, SUBSCRIBE, t) || (NoneOf(trs, c.dialogs[j].inc, SUBSCRIBE) && c.inc == Some(t))
  }

  /** The record of a subscription with the dialog that its first NOTIFY opens. */
  function Notified(s: State, c: Context, leg: Leg, valid: bool): Context {
    c.(dialogs := [Dialog(s.nextRef, -1, leg, if valid then [s.nextTid] else [], [], 0)] + c.dialogs)
  }

  lemma OpenedForNotify(s: State, i: nat, leg: Leg)
    requires i < |s.subs|
    ensures var s1, u := AddDialog(s, Subscription, i, leg), Update(AddDialog(s, Subscription, i, leg));
            && Similar(s1, u) && HasDialog(u, Subscription, i, 0)
            && SameDialog(DialogAt(s1, Subscription, i, 0), DialogAt(u, Subscription, i, 0))
            && u.nextTid == s.nextTid && u.garbage == s.garbage
  {
    hide Update, Similar, Alike;
    var s1 := AddDialog(s, Subscription, i, leg);
    AlikeUpdate(s1);
    AlikeSimilar(s1, Update(s1));
    SimilarAt(s1, Update(s1), Subscription);
    assert SameRecord(s1.subs[i], Update(s1).subs[i]);
  }

  lemma NotifyEnds(s: State, i: nat, leg: Leg)
    requires i < |s.subs|
    ensures var u := Update(AddDialog(s, Subscription, i, leg));
            i < |u.subs| && Similar(RemoveContext(s, Subscription, i), FreeContext(Reject(u, NOTIFY), Subscription, i))
  {
    hide Update, Similar, FreeContext;
    OpenedForNotify(s, i, leg);
    var s1 := AddDialog(s, Subscription, i, leg);
    var r := Reject(Update(s1), NOTIFY);
    SimilarEqual(Update(s1), r);
    SimilarTrans(s1, Update(s1), r);
    FreedSimilar(s1, r, Subscription, i);
    assert Without(s1.subs, i) == Without(s.subs, i);
    SimilarEqual(RemoveContext(s, Subscription, i), RemoveContext(s1, Subscription, i));
    SimilarTrans(RemoveContext(s, Subscription, i), RemoveContext(s1, Subscription, i), FreeContext(r, Subscription, i));
  }

  lemma NotifyStays(s: State, i: nat, leg: Leg)
    requires i < |s.subs|
    ensures Similar(SetContext(s, Subscription, i, Notified(s, s.subs[i], leg, false)),
                    Reject(Update(AddDialog(s, Subscription, i, leg)), NOTIFY))
  {
    hide Update, Similar;
    OpenedForNotify(s, i, leg);
    var s1 := AddDialog(s, Subscription, i, leg);
    var goal := SetContext(s, Subscription, i, Notified(s, s.subs[i], leg, false));
    SimilarEqual(goal, s1);
    SimilarEqual(Update(s1), Reject(Update(s1), NOTIFY));
    SimilarTrans(goal, s1, Update(s1));
    SimilarTrans(goal, Update(s1), Reject(Update(s1), NOTIFY));
  }

  lemma NotifyKept(s: State, i: nat, leg: Leg)
    requires i < |s.subs|
    ensures var u := Update(AddDialog(s, Subscription, i, leg));
            HasDialog(u, Subscription, i, 0)
            && Similar(SetContext(s, Subscription, i, Notified(s, s.subs[i], leg, true)), AcceptInDialog(u, Subscription, i, 0, NOTIFY, true))
  {
    hide Update, Similar;
    OpenedForNotify(s, i, leg);
    var s1 := AddDialog(s, Subscription, i, leg);
    var u := Update(s1);
    var d, d' := DialogAt(s1, Subscription, i, 0), DialogAt(u, Subscription, i, 0);
    var d1, d1' := d.(inc := [s.nextTid]), d'.(inc := [s.nextTid] + d'.inc);
    var goal := SetContext(s, Subscription, i, Notified(s, s.subs[i], leg, true));
    assert ([d] + s.subs[i].dialogs)[0 := d1] == [d1] + s.subs[i].dialogs;
    assert [s.nextTid] + d'.inc == [s.nextTid];
    SimilarSetDialog(s1, u, Subscription, i, 0, d1, d1');
    assert s.subs[i := s1.subs[i]][i := goal.subs[i]] == goal.subs;
    SimilarEqual(goal, SetDialog(s1, Subscription, i, 0, d1));
    SimilarEqual(SetDialog(u, Subscription, i, 0, d1'), AcceptInDialog(u, Subscription, i, 0, NOTIFY, true));
    SimilarTrans(goal, SetDialog(s1, Subscription, i, 0, d1), SetDialog(u, Subscription, i, 0, d1'));
    SimilarTrans(goal, SetDialog(u, Subscription, i, 0, d1'), AcceptInDialog(u, Subscription, i, 0, NOTIFY, true));
  }

  /** A NOTIFY that matches a subscription but none of its dialogs opens one and is kept by it; one
      that says the subscription is over ends the record. */
  lemma FirstNotifyFate(s: State, i: nat, leg: Leg, valid: bool, over: bool)
    requires i < |s.subs| && leg != NoLeg
    ensures var s' := Next(s, DoFirstNotify(i, leg, valid, over));
            if valid && over then Similar(RemoveContext(s, Subscription, i), s')
            else
              && Similar(SetContext(s, Subscription, i, Notified(s, s.subs[i], leg, valid)), s')
              && s'.garbage == if valid then s.garbage else [s.nextTid] + s.garbage
  {
    hide Update, Similar, FreeContext, Notified;
    OpenedForNotify(s, i, leg);
    NotifyEnds(s, i, leg);
    NotifyStays(s, i, leg);
    NotifyKept(s, i, leg);
  }

  // ---------------------------------------------------------------- requests that are sent again

  /** What becomes of record `i` of a call when transaction `t` is sent again. */
  function Again(c: Context, jd: Option<nat>, t: nat, tid: nat): Context
    requires jd.Some? ==> jd.value < |c.dialogs|
  {
    if c.out == Some(t) then
      c.(out := Some(tid), dialogs := if jd.Some? then Without(c.dialogs, jd.value) else c.dialogs)
    else if jd.Some? then
      var d := c.dialogs[jd.value];
      c.(dialogs := c.dialogs[jd.value := d.(out := [tid] + d.out)])
    else c
  }

  lemma CallResendFate(s: State, i: nat, jd: Option<nat>, t: nat)
    requires i < |s.calls| && (jd.Some? ==> jd.value < |s.calls[i].dialogs|) && t in s.trs
    ensures var s' := CallResend(s, i, jd, t);
            && Alike(SetContext(s, Call, i, Again(s.calls[i], jd, t, s.nextTid)), s')
            && (s.calls[i].out == Some(t) ==> t in s'.garbage)
            && (s.calls[i].out != Some(t) ==> s'.garbage == s.garbage)
  {
    hide Update, Alike;
    var c := s.calls[i];
    var goal := SetContext(s, Call, i, Again(c, jd, t, s.nextTid));
    if c.out == Some(t) {
      var s1 := Discard(Launch(s, Outgoing(s, s.trs[t].verb, Some(Jinfo(Call, c.ref, None)))), t);
      var s2 := SetContext(s1, Call, i, c.(out := Some(s.nextTid)));
      if jd.Some? {
        var d := c.dialogs[jd.value];
        var s3 := RemoveDialog(s2, Call, i, jd.value);
        var s4 := s3.(garbage := Reversed(d.out) + Reversed(d.inc) + s3.garbage, trs := ForgetAll(s3.trs, d.inc + d.out));
        AlikeUpdate(s4);
        AlikeUpdate(Update(s4));
        AlikeTrans(s4, Update(s4), Update(Update(s4)));
        assert s.calls[i := s2.calls[i]][i := goal.calls[i]] == goal.calls;
        AlikeEqual(goal, s4, Update(Update(s4)));
      } else {
        AlikeUpdate(s2);
        AlikeEqual(goal, s2, Update(s2));
      }
    } else if jd.Some? {
      var s1 := SendInDialog(s, Call, i, jd.value, s.trs[t].verb);
      AlikeUpdate(s1);
      AlikeEqual(goal, s1, Update(s1));
    } else {
      assert s.calls[i := c] == s.calls;
      AlikeSelf(s);
      AlikeEqual(goal, s, s);
    }
  }

  lemma AlikeTrans(a: State, b: State, c: State)
    requires Alike(a, b) && Alike(b, c)
    ensures Alike(a, c)
  {
    forall k: Kind ensures SameContexts(List(a, k), List(c, k)) {
      assert SameContexts(List(a, k), List(b, k)) && SameContexts(List(b, k), List(c, k));
      forall i | 0 <= i < |List(a, k)| ensures SameContext(List(a, k)[i], List(c, k)[i]) {
        assert SameContext(List(a, k)[i], List(b, k)[i]) && SameContext(List(b, k)[i], List(c, k)[i]);
        forall j | 0 <= j < |List(a, k)[i].dialogs| ensures SameButIds(List(a, k)[i].dialogs[j], List(c, k)[i].dialogs[j]) {
          assert SameButIds(List(a, k)[i].dialogs[j], List(b, k)[i].dialogs[j]);
        }
      }
    }
  }

  /** The record of a call whose counter has paid for sending `t` again: that of a live dialog, or
      else that of the call. */
  function Paid(c: Context, jd: Option<nat>, t: nat): Context
    requires jd.Some? ==> jd.value < |c.dialogs|
  {
    var c1 := Paying(c, jd);
    if c.out == Some(t) then c1.(resent := c1.resent + 1) else c1
  }

  /** The counter of a live dialog is one up, or else that of the record. */
  function Paying(c: Context, jd: Option<nat>): Context
    requires jd.Some? ==> jd.value < |c.dialogs|
  {
    if jd.Some? && c.dialogs[jd.value].leg != NoLeg
    then c.(dialogs := c.dialogs[jd.value := c.dialogs[jd.value].(retry := c.dialogs[jd.value].retry + 1)])
    else c.(retry := c.retry + 1)
  }

  lemma PaidState(s: State, i: nat, jd: Option<nat>, t: nat)
    requires i < |s.calls| && (jd.Some? ==> jd.value < |s.calls[i].dialogs|) && t in s.trs
    ensures var c := s.calls[i];
            var live := jd.Some? && c.dialogs[jd.value].leg != NoLeg;
            var s1 := if live
                      then SetDialog(s, Call, i, jd.value, c.dialogs[jd.value].(retry := c.dialogs[jd.value].retry + 1))
                      else SetContext(s, Call, i, c.(retry := c.retry + 1));
            i < |s1.calls| && CountResend(s1, i, c.out == Some(t)) == SetContext(s, Call, i, Paid(c, jd, t))
  {
    var c := s.calls[i];
    var c1 := Paying(c, jd);
    assert s.calls[i := c1][i := Paid(c, jd, t)] == s.calls[i := Paid(c, jd, t)];
  }

  lemma PaidResend(s: State, i: nat, jd: Option<nat>, t: nat)
    requires i < |s.calls| && (jd.Some? ==> jd.value < |s.calls[i].dialogs|) && t in s.trs
    ensures var c := s.calls[i];
            var s' := CallResend(SetContext(s, Call, i, Paid(c, jd, t)), i, jd, t);
            && Alike(SetContext(s, Call, i, Again(Paid(c, jd, t), jd, t, s.nextTid)), s')
            && (if c.out == Some(t) then t in s'.garbage else s'.garbage == s.garbage)
  {
    hide Alike, CallResend, Again;
    var c := s.calls[i];
    var c2 := Paid(c, jd, t);
    var s2 := SetContext(s, Call, i, c2);
    CallResendFate(s2, i, jd, t);
    var again := Again(c2, jd, t, s.nextTid);
    assert s.calls[i := c2][i := again] == s.calls[i := again];
    AlikeEqual(SetContext(s, Call, i, again), SetContext(s2, Call, i, again), CallResend(s2, i, jd, t));
  }

  /** A challenged request of a call is sent again while its counter allows: an initial INVITE
      replaces the old one, which goes to the garbage list, and costs the dialog it was reported
      with; any other request joins the list of its dialog. */
  lemma ChallengeFate(s: State, t: nat)
    requires t in s.trs && Challenge(s.trs[t].response)
    ensures var s' := Next(s, DoDefaultAction(Of(Call), t));
            match FindTransaction(s.calls, t)
            case Some((i, jd)) =>
              var c := s.calls[i];
              if RetryLeft(c, jd) then
                && Alike(SetContext(s, Call, i, Again(Paid(c, jd, t), jd, t, s.nextTid)), s')
                && (if c.out == Some(t) then t in s'.garbage else s'.garbage == s.garbage)
              else s' == s
            case None => s' == s
  {
    hide Alike, CallResend, FindTransaction, CountResend, Again, Paid;
    match FindTransaction(s.calls, t)
    case None =>
    case Some((i, jd)) =>
      PaidState(s, i, jd, t);
      PaidResend(s, i, jd, t);
      assert Next(s, DoDefaultAction(Of(Call), t)) == RetryCall(s, t);
  }

  /** A redirected INVITE is sent again in the same way, and no counter pays. */
  lemma RedirectFate(s: State, t: nat)
    requires t in s.trs && 300 <= s.trs[t].response < 400 && s.trs[t].verb == INVITE
    ensures var s' := Next(s, DoDefaultAction(Of(Call), t));
            match FindTransaction(s.calls, t)
            case Some((i, jd)) => Alike(SetContext(s, Call, i, Again(s.calls[i], jd, t, s.nextTid)), s')
            case None => s' == s
  {
    hide Alike, CallResend, FindTransaction;
    match FindTransaction(s.calls, t)
    case None =>
    case Some((i, jd)) => CallResendFate(s, i, jd, t);
  }

  /** The record of a subscription after `t` was sent again. */
  function SubscribedAgain(c: Context, jd: Option<nat>, t: nat, tid: nat): Context
    requires jd.Some? ==> jd.value < |c.dialogs|
  {
    if c.out == Some(t) then c.(out := Some(tid)) else Again(c, jd, t, tid)
  }

  lemma SubscribeResendFate(s: State, i: nat, jd: Option<nat>, t: nat)
    requires i < |s.subs| && (jd.Some? ==> jd.value < |s.subs[i].dialogs|) && t in s.trs
    ensures var s' := SubscribeResend(s, i, jd, t);
            && Alike(SetContext(s, Subscription, i, SubscribedAgain(s.subs[i], jd, t, s.nextTid)), s')
            && s'.garbage == if s.subs[i].out == Some(t) then [t] + s.garbage else s.garbage
  {
    hide Update, Alike;
    var c := s.subs[i];
    var goal := SetContext(s, Subscription, i, SubscribedAgain(c, jd, t, s.nextTid));
    if c.out == Some(t) {
      var ref := if jd.Some? then Some(c.dialogs[jd.value].ref) else None;
      var s2 := SetContext(Discard(Launch(s, Outgoing(s, s.trs[t].verb, Some(Jinfo(Subscription, c.ref, ref)))), t),
                           Subscription, i, c.(out := Some(s.nextTid)));
      AlikeUpdate(s2);
      AlikeEqual(goal, s2, Update(s2));
    } else if jd.Some? {
      var s2 := SendInDialog(s, Subscription, i, jd.value, s.trs[t].verb);
      AlikeUpdate(s2);
      AlikeEqual(goal, s2, Update(s2));
    } else {
      assert s.subs[i := c] == s.subs;
      AlikeSelf(s);
      AlikeEqual(goal, s, s);
    }
  }

  /** A challenged SUBSCRIBE of a subscription: the initial one is replaced and its dialogs stay,
      any other request joins the list of its dialog; a live dialog pays, or else the record. */
  lemma SubscribeChallengeFate(s: State, t: nat)
    requires t in s.trs && Challenge(s.trs[t].response)
    ensures var s' := Next(s, DoDefaultAction(Of(Subscription), t));
            match FindTransaction(s.subs, t)
            case None => s' == s
            case Some((i, jd)) =>
              var c := s.subs[i];
              if !RetryLeft(c, jd) then s' == s
              else
                && Alike(SetContext(s, Subscription, i, SubscribedAgain(Paying(c, jd), jd, t, s.nextTid)), s')
                && s'.garbage == if c.out == Some(t) then [t] + s.garbage else s.garbage
  {
    hide Alike, FindTransaction, SubscribeResend, SubscribedAgain;
    match FindTransaction(s.subs, t)
    case None =>
    case Some((i, jd)) =>
      var c := s.subs[i];
      if RetryLeft(c, jd) {
        var c1 := Paying(c, jd);
        var s1 := SetContext(s, Subscription, i, c1);
        SubscribeResendFate(s1, i, jd, t);
        var again := SubscribedAgain(c1, jd, t, s.nextTid);
        assert s.subs[i := c1][i := again] == s.subs[i := again];
        AlikeEqual(SetContext(s, Subscription, i, again), SetContext(s1, Subscription, i, again), SubscribeResend(s1, i, jd, t));
      }
  }

  /** The last SUBSCRIBE of a subscription: the newest one in the dialog, else the initial one. */
  predicate LastRefresh(trs: map<nat, Transaction>, c: Context, j: nat, t: nat)
    requires j < |c.dialogs|
  {
    NewestOf(trs, c.dialogs[j].out, SUBSCRIBE, t) || (NoneOf(trs, c.dialogs[j].out, SUBSCRIBE) && c.out == Some(t))
  }

  predicate Answered(trs: map<nat, Transaction>, t: nat) {
    t in trs ==> trs[t].phase in {Terminated, Completed}
  }

  /** eXosip_subscribe_send_refresh_request puts a SUBSCRIBE in the dialog when the last one is
      answered; an id of the subscription itself names no dialog. */
  lemma RefreshFate(s: State, did: int)
    ensures var s' := Next(s, DoSendRefresh(did));
            match if did > 0 then FindSubscription(s.subs, did) else None
            case Some((i, Some(j))) =>
              var c, d := s.subs[i], s.subs[i].dialogs[j];
              if forall t: nat :: LastRefresh(s.trs, c, j, t) ==> Answered(s.trs, t) then
                && Created(s, s', Transaction(SUBSCRIBE, false, Pending, 0, s.now, Some(Jinfo(Subscription, c.ref, Some(d.ref)))), false)
                && OnlyDialog(s, s', Subscription, i, j, d.(out := [s.nextTid] + d.out))
              else s' == s
            case _ => s' == s
  {
    hide Latest, NewestOf, NoneOf, FindSubscription;
    match if did > 0 then FindSubscription(s.subs, did) else None
    case Some((i, Some(j))) =>
      var c, d := s.subs[i], s.subs[i].dialogs[j];
      LatestIsNewest(s.trs, d.out, SUBSCRIBE);
      var l := OrElse(Latest(s.trs, d.out, SUBSCRIBE), c.out);
      assert forall t: nat :: LastRefresh(s.trs, c, j, t) <==> l == Some(t);
      assert l.Some? ==> LastRefresh(s.trs, c, j, l.value);
      var phase := PhaseOf(s.trs, l);
      assert (forall t: nat :: LastRefresh(s.trs, c, j, t) ==> Answered(s.trs, t)) <==> (phase == Terminated || phase == Completed);
    case _ =>
  }

  /** eXosip_insubscription_send_request puts a request in the dialog when its last outgoing NOTIFY
      is answered. */
  lemma NotifyRequestFate(s: State, did: int, verb: Method)
    ensures var s' := Next(s, DoNotifySendRequest(did, verb));
            match if did > 0 then FindDialog(s.notifies, did) else None
            case Some((i, j)) =>
              var c, d := s.notifies[i], s.notifies[i].dialogs[j];
              if forall t: nat :: NewestOf(s.trs, d.out, NOTIFY, t) ==> Answered(s.trs, t) then
                && Created(s, s', Transaction(verb, false, Pending, 0, s.now, Some(Jinfo(Notification, c.ref, Some(d.ref)))), false)
                && OnlyDialog(s, s', Notification, i, j, d.(out := [s.nextTid] + d.out))
              else s' == s
            case None => s' == s
  {
    hide Latest, NewestOf, FindDialog;
    match if did > 0 then FindDialog(s.notifies, did) else None
    case Some((i, j)) =>
      var d := s.notifies[i].dialogs[j];
      LatestIsNewest(s.trs, d.out, NOTIFY);
      var l := Latest(s.trs, d.out, NOTIFY);
      assert forall t: nat :: NewestOf(s.trs, d.out, NOTIFY, t) <==> l == Some(t);
      assert l.Some? ==> NewestOf(s.trs, d.out, NOTIFY, l.value);
      var phase := PhaseOf(s.trs, l);
      assert (forall t: nat :: NewestOf(s.trs, d.out, NOTIFY, t) ==> Answered(s.trs, t)) <==> (phase == Terminated || phase == Completed);
    case None =>
  }

  /** A timed refresh repeats the last request of a live dialog, else the initial SUBSCRIBE, once it
      was answered at all. */
  lemma TimedRefreshFate(s: State, i: nat, j: nat)
    ensures var s' := Next(s, DoRefreshSubscription(i, j));
            match Repeated(s, i, j)
            case None => s' == s
            case Some(t) =>
              && Alike(SetContext(s, Subscription, i, SubscribedAgain(s.subs[i], Some(j), t, s.nextTid)), s')
              && s'.garbage == if s.subs[i].out == Some(t) then [t] + s.garbage else s.garbage
  {
    hide Alike, SubscribeResend, SubscribedAgain;
    match Repeated(s, i, j)
    case None =>
    case Some(t) => SubscribeResendFate(s, i, Some(j), t);
  }

  /** A challenged NOTIFY joins the list of its dialog, a challenged request outside of every
      context the garbage list; no counter pays. */
  lemma UncountedChallengeFate(s: State, t: nat)
    requires t in s.trs && Challenge(s.trs[t].response)
    ensures var s' := Next(s, DoDefaultAction(Of(Notification), t));
            match FindTransaction(s.notifies, t)
            case Some((i, Some(j))) =>
              var d := s.notifies[i].dialogs[j];
              && Alike(SetDialog(s, Notification, i, j, d.(out := [s.nextTid] + d.out)), s')
              && s'.garbage == s.garbage
            case _ => s' == s
    ensures var s' := Next(s, DoDefaultAction(OfNone, t));
            if (t in s.garbage || t in s.doubles) && s.trs[t].jinfo.None? then
              Alike(s, s') && Created(s, s', Transaction(s.trs[t].verb, false, Pending, 0, s.now, None), true)
            else s' == s
  {
    hide Update, Alike, FindTransaction;
    var s1 := SendOutside(s, s.trs[t].verb);
    AlikeUpdate(s1);
    AlikeEqual(s, s1, Update(s1));
    match FindTransaction(s.notifies, t)
    case Some((i, Some(j))) =>
      var d := s.notifies[i].dialogs[j];
      var s2 := SendInDialog(s, Notification, i, j, s.trs[t].verb);
      AlikeUpdate(s2);
      AlikeEqual(SetDialog(s, Notification, i, j, d.(out := [s.nextTid] + d.out)), s2, Update(s2));
    case _ =>
  }

  // ---------------------------------------------------------------- releases

  /** A released call, or dialog of a call, leaves its list; no other record changes. */
  lemma ReleaseFate(s: State, i: nat, j: nat)
    requires HasDialog(s, Call, i, j)
    ensures Similar(RemoveContext(s, Call, i), Next(s, DoReleaseCall(i)))
    ensures Alike(RemoveDialog(s, Call, i, j), Next(s, DoReleaseDialog(i, j)))
  {
    hide Update, Similar, Alike, FreeContext, Unlink;
    FreedIsGone(s, Call, i);
    var c, ref := s.calls[i], s.calls[i].dialogs[j].ref;
    UnlinkKeepsRecords(s, c.inc, ref);
    UnlinkKeepsRecords(Unlink(s, c.inc, ref), c.out, ref);
    var s1 := Unlink(Unlink(s, c.inc, ref), c.out, ref);
    var d, s2 := s1.calls[i].dialogs[j], RemoveDialog(s1, Call, i, j);
    var s3 := s2.(garbage := Reversed(d.out) + Reversed(d.inc) + s2.garbage, trs := ForgetAll(s2.trs, d.inc + d.out));
    AlikeUpdate(s3);
    AlikeEqual(RemoveDialog(s, Call, i, j), s3, Update(s3));
  }

  lemma UnlinkKeepsRecords(s: State, slot: Option<nat>, ref: nat)
    ensures Unlink(s, slot, ref) == s.(trs := Unlink(s, slot, ref).trs)
  {
  }

  /** A transaction of the garbage list is freed exactly when it is over or older than 180 s. */
  lemma FreedFate(s: State, p: nat)
    requires p < |s.garbage| && s.garbage[p] in s.trs
    ensures var s' := Next(s, DoReleaseTransaction(p));
            var tr := s.trs[s.garbage[p]];
            if tr.phase == Terminated || s.now - tr.birth > 180 then
              s' == s.(garbage := s.garbage[..p] + s.garbage[p + 1..], released := [s.garbage[p]] + s.released)
            else s' == s
  {
  }

  /** A stuck BYE or REFER leaves the dialog that keeps it for the garbage list; nothing else is
      taken off a dialog. */
  lemma StuckFate(s: State, i: nat, t: nat)
    requires i < |s.calls| && t in s.trs && s.calls[i].inc != Some(t) && s.calls[i].out != Some(t)
    ensures var s' := Next(s, DoDropTransaction(i, t));
            match HolderOf(s.calls[i].dialogs, t)
            case Some(j) =>
              if s.trs[t].verb == BYE || s.trs[t].verb == OTHER("REFER") then
                && s'.garbage == [t] + s.garbage
                && HasDialog(s', Call, i, j)
                && var d, d' := s.calls[i].dialogs[j], s'.calls[i].dialogs[j];
                   OnlyDialog(s, s', Call, i, j, d') && d' == d.(inc := d'.inc, out := d'.out) && OneLess(d, d'.inc, d'.out, t)
              else s' == s
            case None => s' == s
  {
    hide HolderOf, Removed, OnlyDialog, OneLess;
    match HolderOf(s.calls[i].dialogs, t)
    case None =>
    case Some(j) => TakenOff(s, i, j, t);
  }

  lemma TakenOff(s: State, i: nat, j: nat, t: nat)
    requires HasDialog(s, Call, i, j) && (t in s.calls[i].dialogs[j].inc || t in s.calls[i].dialogs[j].out)
    ensures var d := s.calls[i].dialogs[j];
            var d' := if t in d.inc then d.(inc := Removed(d.inc, t)) else d.(out := Removed(d.out, t));
            var s' := Discard(SetDialog(s, Call, i, j, d'), t);
            && s'.garbage == [t] + s.garbage && HasDialog(s', Call, i, j) && s'.calls[i].dialogs[j] == d'
            && OnlyDialog(s, s', Call, i, j, d') && d' == d.(inc := d'.inc, out := d'.out) && OneLess(d, d'.inc, d'.out, t)
  {
    hide Removed;
    var d := s.calls[i].dialogs[j];
    RemovedOnce(if t in d.inc then d.inc else d.out, t);
  }

  /** One entry of `t` is gone from the dialog's lists, the incoming one first. */
  predicate OneLess(d: Dialog, inc: seq<nat>, out: seq<nat>, t: nat) {
    if t in d.inc then out == d.out && multiset(inc) + multiset{t} == multiset(d.inc)
    else inc == d.inc && multiset(out) + multiset{t} == multiset(d.out)
  }

  lemma RemovedOnce(ts: seq<nat>, t: nat)
    requires t in ts
    ensures multiset(Removed(ts, t)) + multiset{t} == multiset(ts)
  {
    var p := Position(ts, t).value;
    assert ts == ts[..p] + [t] + ts[p + 1..];
  }

  /** The ACK of a negative answer confirms its INVITE, and does nothing else. */
  lemma AckFate(s: State, t: nat)
    requires t in s.trs
    ensures var s', tr := Next(s, DoAckReceived(t)), s.trs[t];
            if tr.incoming && tr.verb == INVITE && tr.phase == Completed then s' == s.(trs := s.trs[t := tr.(phase := Confirmed)])
            else s' == s
  {
  }

  /** The search of eXosip_process_cancel finds the initial INVITE of any call, with its first dialog,
      or an INVITE in the last call's dialogs behind which no dialog has an incoming request. */
  lemma CancelledLaw(s: State, target: Target, i: nat, t: nat, jd: Option<nat>)
    ensures Cancelled(s, target) == Some((i, t, jd)) <==>
              t in s.trs && i < |s.calls| &&
              match target
              case NoInvite => false
              case InitialInvite(x) => x == i && s.calls[i].inc == Some(t) && jd == (if s.calls[i].dialogs == [] then None else Some(0))
              case InviteInDialog(j, p) =>
                && i == |s.calls| - 1 && jd == None && j < |s.calls[i].dialogs| && p < |s.calls[i].dialogs[j].inc|
                && s.calls[i].dialogs[j].inc[p] == t && forall x :: j < x < |s.calls[i].dialogs| ==> s.calls[i].dialogs[x].inc == []
  {
    match target
    case NoInvite =>
    case InitialInvite(x) =>
    case InviteInDialog(j, p) =>
      if s.calls != [] {
        var n := |s.calls| - 1;
        var ds := s.calls[n].dialogs;
        var found := j < |ds| && p < |ds[j].inc| && ds[j].inc[p] in s.trs && forall x :: j < x < |ds| ==> ds[x].inc == [];
        assert Cancelled(s, target) == if found then Some((n, ds[j].inc[p], None)) else None;
      }
  }

  /** A CANCEL whose INVITE is found, and both of which can be answered, is kept by the dialog that
      the INVITE was reported with; without one, or without INVITE, it is only kept until it ends. */
  lemma CancelledFate(s: State, target: Target)
    ensures var s' := Next(s, DoCancel(target, true, true));
            var tr := Transaction(CANCEL, true, Pending, 0, s.now, None);
            match Cancelled(s, target)
            case Some((i, _, Some(j))) =>
              var d := s.calls[i].dialogs[j];
              Created(s, s', tr, false) && OnlyDialog(s, s', Call, i, j, d.(inc := [s.nextTid] + d.inc))
            case _ => Created(s, s', tr, true) && s'.calls == s.calls && s'.subs == s.subs && s'.notifies == s.notifies
  {
    hide Cancelled;
    match Cancelled(s, target)
    case Some((i, t, Some(j))) => assert KeepCancel(s, i, Some(j)) == Receive(s, Call, i, j, Incoming(s, CANCEL, None));
    case Some((i, t, None)) =>
    case None =>
  }
}
