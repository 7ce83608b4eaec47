/** Runs that show where the bounds of ContextTheorems are sharp. */
module ContextWitnesses {
  import opened Wrappers
  import opened Sequences
  import opened Sip
  import opened ContextStore
  import opened ContextAccounting
  import opened ContextRuns
  import opened ContextHistory
  import opened ContextRetirement
  import opened ContextTheorems

  // ---------------------------------------------------------------- the id counter starts over

  predicate Settled(cs: seq<Context>) {
    forall i :: 0 <= i < |cs| ==> cs[i].id >= 1 && cs[i].dialogs == []
  }

  lemma UpdateSettled(cs: seq<Context>, id: int)
    requires Settled(cs)
    ensures UpdateContexts(cs, id) == (cs, id)
  {
    if cs != [] {
      UpdateSettled(cs[1..], id);
      assert UpdateDialogs(cs[0].dialogs, id) == ([], id);
      assert cs == [cs[0]] + cs[1..];
    }
  }

  lemma UpdateNewCall(s: State, c: Context)
    requires s.calls != [] && s.calls[0] == c && c.id < 1 && c.dialogs == [] && Settled(s.calls[1..])
    requires s.subs == [] && s.notifies == []
    ensures var id := if s.staticId > MAX_STATIC_ID then 1 else s.staticId;
            Update(s) == s.(calls := [c.(id := id)] + s.calls[1..], staticId := id + 1,
                            wrapped := s.wrapped || s.staticId > MAX_STATIC_ID)
  {
    var id := if s.staticId > MAX_STATIC_ID then 1 else s.staticId;
    UpdateSettled(s.calls[1..], id + 1);
    assert UpdateDialogs(c.dialogs, id + 1) == ([], id + 1);
    assert UpdateContexts(s.calls, id) == ([c.(id := id)] + s.calls[1..], id + 1);
  }

  function Invites(n: nat): seq<Step> {
    seq(n, _ => DoSendInitialInvite)
  }

  predicate AfterCalls(s: State, n: nat) {
    && |s.calls| == n && s.subs == [] && s.notifies == []
    && Settled(s.calls)
    && (forall i :: 0 <= i < n ==> s.calls[i].id == if n - i <= MAX_STATIC_ID then n - i else 1)
    && s.staticId == (if n <= MAX_STATIC_ID then n + 1 else 2)
    && s.wrapped == (n > MAX_STATIC_ID)
  }

  lemma OneMoreCall(s: State, n: nat)
    requires AfterCalls(s, n) && n <= MAX_STATIC_ID
    ensures AfterCalls(SendInitialInvite(s), n + 1)
  {
    hide UpdateContexts, UpdateDialogs, Update;
    var c := Context(s.nextRef, -1, [], None, Some(s.nextTid), 0, 0, false);
    var tr := Outgoing(s, INVITE, Some(Jinfo(Call, s.nextRef, None)));
    var s1 := AddContext(Launch(s, tr), Call, c).(nextRef := s.nextRef + 1);
    assert s1.calls[1..] == s.calls;
    UpdateNewCall(s1, c);
  }

  lemma {:induction false} CallsInARow(now: int, n: nat)
    requires n <= MAX_STATIC_ID + 1
    ensures AfterCalls(Run(Init(now), Invites(n)), n)
  {
    hide SendInitialInvite;
    if n > 0 {
      CallsInARow(now, n - 1);
      OneMoreCall(Run(Init(now), Invites(n - 1)), n - 1);
      assert Invites(n) == Invites(n - 1) + [DoSendInitialInvite];
      RunSnoc(Init(now), Invites(n - 1), DoSendInitialInvite);
    }
  }

  /** Once the counter has started over, two calls can share an id, and a lookup finds the
      younger one. */
  lemma SharedIdAfterWrap(now: int)
    ensures var s := Run(Init(now), Invites(MAX_STATIC_ID + 1));
            && s.wrapped && |s.calls| == MAX_STATIC_ID + 1 == 100001
            && s.calls[0].id == 1 && s.calls[MAX_STATIC_ID].id == 1
            && FindContext(s.calls, 1) == Some(0)
  {
    hide Run;
    CallsInARow(now, MAX_STATIC_ID + 1);
  }

  // ---------------------------------------------------------------- stores with one call

  lemma UpdateOneDialog(d: Dialog, id: int)
    ensures UpdateDialogs([d], id) ==
              if d.leg == NoLeg then ([d.(id := -1)], id)
              else if d.id < 1 then ([d.(id := id)], id + 1) else ([d], id)
  {
    var ds := [d];
    var isNew := d.leg != NoLeg && d.id < 1;
    var d' := d.(id := if d.leg == NoLeg then -1 else if isNew then id else d.id);
    var id' := if isNew then id + 1 else id;
    assert ds[0] == d && ds[1..] == [];
    assert UpdateDialogs(ds[1..], id') == ([], id');
    assert [d'] + [] == [d'];
  }

  lemma UpdateOneContext(c: Context, id: int)
    ensures var (ds, id') := UpdateDialogs(c.dialogs, if c.id < 1 then id + 1 else id);
            UpdateContexts([c], id) == ([c.(id := if c.id < 1 then id else c.id, dialogs := ds)], id')
  {
    var cs := [c];
    var (ds, id') := UpdateDialogs(c.dialogs, if c.id < 1 then id + 1 else id);
    var c' := c.(id := if c.id < 1 then id else c.id, dialogs := ds);
    assert cs[0] == c && cs[1..] == [];
    assert UpdateContexts(cs[1..], id') == ([], id');
    assert [c'] + [] == [c'];
  }

  lemma SetOneContext(s: State, c: Context, c': Context)
    requires s.calls == [c]
    ensures SetContext(s, Call, 0, c') == s.(calls := [c'])
  {
    assert s.calls[0 := c'] == [c'];
  }

  lemma SetOneDialog(s: State, c: Context, d: Dialog, d': Dialog)
    requires s.calls == [c] && c.dialogs == [d]
    ensures SetDialog(s, Call, 0, 0, d') == s.(calls := [c.(dialogs := [d'])])
  {
    assert c.dialogs[0 := d'] == [d'];
    SetOneContext(s, c, c.(dialogs := [d']));
  }

  /** What an update makes of a store with one call and at most one dialog. */
  lemma UpdateOneCall(s: State, c: Context)
    requires s.calls == [c] && s.subs == [] && s.notifies == [] && s.staticId <= MAX_STATIC_ID && c.id >= 1
    ensures c.dialogs == [] ==> Update(s) == s
    ensures |c.dialogs| == 1 ==>
              var d, id := c.dialogs[0], s.staticId;
              Update(s) == if d.leg == NoLeg then s.(calls := [c.(dialogs := [d.(id := -1)])])
                           else if d.id < 1 then s.(calls := [c.(dialogs := [d.(id := id)])], staticId := id + 1)
                           else s
  {
    UpdateOneContext(c, s.staticId);
    if |c.dialogs| == 1 {
      assert c.dialogs == [c.dialogs[0]];
      UpdateOneDialog(c.dialogs[0], s.staticId);
    }
  }

  lemma UpdateNewOneCall(s: State, c: Context)
    requires s.calls == [c] && s.subs == [] && s.notifies == [] && s.staticId <= MAX_STATIC_ID && c.id < 1
    requires |c.dialogs| == 1 && c.dialogs[0].leg != NoLeg && c.dialogs[0].id < 1
    ensures Update(s) == s.(calls := [c.(id := s.staticId, dialogs := [c.dialogs[0].(id := s.staticId + 1)])],
                            staticId := s.staticId + 2)
  {
    UpdateOneContext(c, s.staticId);
    assert c.dialogs == [c.dialogs[0]];
    UpdateOneDialog(c.dialogs[0], s.staticId + 1);
  }

  const NOTHING := Facts(false, None, false, false)
  const RINGING := Facts(true, None, true, false)

  /** A store whose only content is one call. */
  function OneCall(now: int, c: Context, trs: map<nat, Transaction>, tid: nat, ref: nat, id: int): State {
    State([c], [], [], [], [], [], trs, tid, ref, id, false, [], [], [], [], now)
  }

  // ---------------------------------------------------------------- a BYE that is sent twice

  function Caller(leg: Leg, id: int, out: seq<nat>, retry: int): Context {
    Context(0, 1, [Dialog(1, id, leg, [], out, 0)], Some(1), None, retry, 0, false)
  }

  function Invited(now: int, phase: Phase, code: nat): Transaction {
    Transaction(INVITE, true, phase, code, now, Some(Jinfo(Call, 0, Some(1))))
  }

  function Bye(now: int, phase: Phase, code: nat): Transaction {
    Transaction(BYE, false, phase, code, now, Some(Jinfo(Call, 0, Some(1))))
  }

  lemma AnsweredCall(now: int)
    ensures NewIncoming(Init(now), Call, true) == OneCall(now, Caller(EarlyLeg, 2, [], 0), map[1 := Invited(now, Pending, 0)], 2, 2, 3)
    ensures Answer(OneCall(now, Caller(EarlyLeg, 2, [], 0), map[1 := Invited(now, Pending, 0)], 2, 2, 3), Call, 1, 200)
            == OneCall(now, Caller(ConfirmedLeg, 2, [], 0), map[1 := Invited(now, Pending, 0)], 2, 2, 3)
    ensures AnswerSent(OneCall(now, Caller(ConfirmedLeg, 2, [], 0), map[1 := Invited(now, Pending, 0)], 2, 2, 3), 1, 200)
            == OneCall(now, Caller(ConfirmedLeg, 2, [], 0), map[1 := Invited(now, Terminated, 200)], 2, 2, 3)
  {
    hide Update, UpdateContexts;
    var c := Caller(EarlyLeg, -1, [], 0).(id := -1);
    var s := OneCall(now, c, map[1 := Invited(now, Pending, 0)], 2, 2, 1);
    assert [c] + [] == [c];
    assert NewIncoming(Init(now), Call, true) == Update(s);
    UpdateNewOneCall(s, c);
    var s1 := OneCall(now, Caller(EarlyLeg, 2, [], 0), map[1 := Invited(now, Pending, 0)], 2, 2, 3);
    SetOneDialog(s1, s1.calls[0], s1.calls[0].dialogs[0], Caller(ConfirmedLeg, 2, [], 0).dialogs[0]);
    UpdateOneCall(OneCall(now, Caller(ConfirmedLeg, 2, [], 0), map[1 := Invited(now, Pending, 0)], 2, 2, 3), Caller(ConfirmedLeg, 2, [], 0));
  }

  lemma ByeOfCall(now: int, trs: map<nat, Transaction>, out: seq<nat>, tid: nat, byes: seq<nat>)
    ensures SendBye(OneCall(now, Caller(ConfirmedLeg, 2, out, 0), trs, tid, 2, 3).(byes := byes), 0, 0)
            == OneCall(now, Caller(NoLeg, -1, [tid] + out, 0), trs[tid := Bye(now, Pending, 0)], tid + 1, 2, 3)
                 .(hangups := [1], byes := [1] + byes)
  {
    hide Update, UpdateContexts;
    var s := OneCall(now, Caller(ConfirmedLeg, 2, out, 0), trs, tid, 2, 3).(byes := byes);
    var d := s.calls[0].dialogs[0];
    var s1 := OneCall(now, Caller(NoLeg, 2, [tid] + out, 0), trs[tid := Bye(now, Pending, 0)], tid + 1, 2, 3)
                .(hangups := [1], byes := [1] + byes);
    var s' := Launch(s, Bye(now, Pending, 0));
    var c' := Caller(ConfirmedLeg, 2, [tid] + out, 0);
    SetOneDialog(s', s.calls[0], d, c'.dialogs[0]);
    SetOneDialog(s'.(calls := [c'], byes := [1] + byes), c', c'.dialogs[0], c'.dialogs[0].(leg := NoLeg));
    assert [d.ref] + s.hangups == [1];
    assert SendBye(s, 0, 0) == Update(s1);
    UpdateOneCall(s1, Caller(NoLeg, 2, [tid] + out, 0));
  }

  /** The call is hung up, after the requests `out`, none of them an INVITE. */
  lemma HungUpCall(now: int, trs: map<nat, Transaction>, out: seq<nat>, tid: nat, byes: seq<nat>)
    requires 1 in trs && trs[1] == Invited(now, Terminated, 200) && Latest(trs, out, INVITE).None?
    ensures Terminate(OneCall(now, Caller(ConfirmedLeg, 2, out, 0), trs, tid, 2, 3).(byes := byes), 0, 2)
            == OneCall(now, Caller(NoLeg, -1, [tid] + out, 0), trs[tid := Bye(now, Pending, 0)], tid + 1, 2, 3)
                 .(hangups := [1], byes := [1] + byes)
  {
    hide SendBye, CancelCall, Latest;
    var s := OneCall(now, Caller(ConfirmedLeg, 2, out, 0), trs, tid, 2, 3).(byes := byes);
    assert FindDialog(s.calls, 2) == Some((0, 0));
    NoneLatest(trs);
    ByeOfCall(now, trs, out, tid, byes);
  }

  lemma NoneLatest(trs: map<nat, Transaction>)
    ensures Latest(trs, [], INVITE).None?
  {
  }

  lemma ChallengedBye(now: int)
    ensures var trs := map[1 := Invited(now, Terminated, 200)];
            var s := OneCall(now, Caller(NoLeg, -1, [2], 0), trs[2 := Bye(now, Pending, 0)], 3, 2, 3).(hangups := [1], byes := [1]);
            var s' := OneCall(now, Caller(NoLeg, -1, [2], 0), trs[2 := Bye(now, Completed, 401)], 3, 2, 3).(hangups := [1], byes := [1]);
            && Respond(s, 2, 401, NOTHING) == s'
            && DefaultAction(s', Of(Call), 2)
               == OneCall(now, Caller(NoLeg, -1, [3, 2], 1), s'.trs[3 := Bye(now, Pending, 0)], 4, 2, 3).(hangups := [1], byes := [1, 1])
  {
    hide Update, UpdateContexts;
    var trs := map[1 := Invited(now, Terminated, 200)];
    var s := OneCall(now, Caller(NoLeg, -1, [2], 0), trs[2 := Bye(now, Pending, 0)], 3, 2, 3).(hangups := [1], byes := [1]);
    var s' := OneCall(now, Caller(NoLeg, -1, [2], 0), trs[2 := Bye(now, Completed, 401)], 3, 2, 3).(hangups := [1], byes := [1]);
    assert Respond(s, 2, 401, NOTHING) == s';
    var s1 := OneCall(now, Caller(NoLeg, -1, [3, 2], 1), s'.trs[3 := Bye(now, Pending, 0)], 4, 2, 3).(hangups := [1], byes := [1, 1]);
    assert FindTransaction(s'.calls, 2) == Some((0, Some(0)));
    var c := Caller(NoLeg, -1, [2], 1);
    var s2 := SetContext(s', Call, 0, c);
    SetOneContext(s', s'.calls[0], c);
    SetOneDialog(Launch(s2, Bye(now, Pending, 0)), c, c.dialogs[0], c.dialogs[0].(out := [3, 2]));
    assert [3] + c.dialogs[0].out == [3, 2] && [1] + [1] == [1, 1];
    assert RetryCall(s', 2) == CallResend(s2, 0, Some(0), 2);
    assert SendInDialog(s2, Call, 0, 0, BYE) == s1;
    UpdateOneCall(s1, Caller(NoLeg, -1, [3, 2], 1));
  }

  lemma Run3(s: State, a: Step, b: Step, c: Step)
    ensures Run(s, [a, b]) == Next(Next(s, a), b)
    ensures Run(s, [a, b, c]) == Next(Next(Next(s, a), b), c)
  {
    hide Next;
    assert [a] == [] + [a];
    RunSnoc(s, [], a);
    assert [a, b] == [a] + [b];
    RunSnoc(s, [a], b);
    assert [a, b, c] == [a, b] + [c];
    RunSnoc(s, [a, b], c);
  }

  lemma Run5(s: State, a: Step, b: Step, c: Step, d: Step, e: Step)
    ensures Run(s, [a, b, c, d, e]) == Next(Next(Next(Next(Next(s, a), b), c), d), e)
  {
    hide Next, Run;
    Run3(s, a, b, c);
    assert [a, b, c, d] == [a, b, c] + [d];
    RunSnoc(s, [a, b, c], d);
    assert [a, b, c, d, e] == [a, b, c, d] + [e];
    RunSnoc(s, [a, b, c, d], e);
  }

  lemma Run6(s: State, a: Step, b: Step, c: Step, d: Step, e: Step, f: Step)
    ensures Run(s, [a, b, c, d, e, f]) == Next(Next(Next(Next(Next(Next(s, a), b), c), d), e), f)
  {
    hide Next, Run;
    Run5(s, a, b, c, d, e);
    assert [a, b, c, d, e, f] == [a, b, c, d, e] + [f];
    RunSnoc(s, [a, b, c, d, e], f);
  }

  /** Two BYEs, transactions 2 and 3, in the only dialog; eXosip_call_terminate sent one of them. */
  predicate TwoByes(s: State) {
    && s.hangups == [1] && s.byes == [1, 1]
    && |s.calls| == 1 && |s.calls[0].dialogs| == 1 && s.calls[0].dialogs[0].ref == 1 && s.calls[0].dialogs[0].out == [3, 2]
    && 2 in s.trs && 3 in s.trs && s.trs[2].verb == BYE && s.trs[3].verb == BYE
  }

  /** An incoming call that was answered. */
  const ANSWERED := [DoNewIncoming(Call, true), DoAnswer(Call, 1, 200), DoAnswerSent(1, 200)]

  function Connected(now: int): State {
    OneCall(now, Caller(ConfirmedLeg, 2, [], 0), map[1 := Invited(now, Terminated, 200)], 2, 2, 3)
  }

  lemma ConnectedCall(now: int, es: seq<Step>)
    ensures Run(Init(now), ANSWERED + es) == Run(Connected(now), es)
  {
    hide Run, NewIncoming, Answer, AnswerSent;
    AnsweredCall(now);
    Run3(Init(now), ANSWERED[0], ANSWERED[1], ANSWERED[2]);
    RunSplit(Init(now), ANSWERED + es, 3);
    assert (ANSWERED + es)[..3] == ANSWERED && (ANSWERED + es)[3..] == es;
  }

  /** An incoming call is answered and hung up; the BYE is challenged and sent again with
      credentials. */
  lemma ChallengedByeIsResent(now: int)
    ensures TwoByes(Run(Init(now), ANSWERED + [DoTerminate(0, 2), DoRespond(2, 401, NOTHING), DoDefaultAction(Of(Call), 2)]))
  {
    hide Run, Next, ANSWERED;
    ConnectedCall(now, [DoTerminate(0, 2), DoRespond(2, 401, NOTHING), DoDefaultAction(Of(Call), 2)]);
    Run3(Connected(now), DoTerminate(0, 2), DoRespond(2, 401, NOTHING), DoDefaultAction(Of(Call), 2));
    ConnectedHangup(now);
    ChallengedBye(now);
    NextIs();
  }

  lemma ConnectedHangup(now: int)
    ensures Next(Connected(now), DoTerminate(0, 2))
            == OneCall(now, Caller(NoLeg, -1, [2], 0), map[1 := Invited(now, Terminated, 200)][2 := Bye(now, Pending, 0)], 3, 2, 3)
                 .(hangups := [1], byes := [1])
  {
    hide Terminate, Latest;
    var trs := map[1 := Invited(now, Terminated, 200)];
    NoneLatest(trs);
    HungUpCall(now, trs, [], 2, []);
    assert [2] + [] == [2] && [1] + [] == [1];
  }

  lemma NextIs()
    ensures forall s: State :: Next(s, DoRespond(2, 401, NOTHING)) == Respond(s, 2, 401, NOTHING)
    ensures forall s: State :: Next(s, DoDefaultAction(Of(Call), 2)) == DefaultAction(s, Of(Call), 2)
  {
    hide Respond, DefaultAction;
  }

  lemma RequestedBye(now: int)
    ensures var trs := map[1 := Invited(now, Terminated, 200)];
            CallSendRequest(OneCall(now, Caller(ConfirmedLeg, 2, [], 0), trs, 2, 2, 3), 2, BYE)
            == OneCall(now, Caller(ConfirmedLeg, 2, [2], 0), trs[2 := Bye(now, Pending, 0)], 3, 2, 3).(byes := [1])
  {
    var trs := map[1 := Invited(now, Terminated, 200)];
    var s := OneCall(now, Caller(ConfirmedLeg, 2, [], 0), trs, 2, 2, 3);
    var d := s.calls[0].dialogs[0];
    assert FindDialog(s.calls, 2) == Some((0, 0));
    assert [2] + d.out == [2] && [1] + s.byes == [1];
    SetOneDialog(Launch(s, Bye(now, Pending, 0)), s.calls[0], d, d.(out := [2]));
  }

  /** Without any challenge: the application sends a BYE by itself, then hangs up. */
  lemma RequestedByeThenHangup(now: int)
    ensures TwoByes(Run(Init(now), ANSWERED + [DoCallSendRequest(2, BYE), DoTerminate(0, 2)]))
  {
    hide Run, Terminate, CallSendRequest;
    var trs := map[1 := Invited(now, Terminated, 200), 2 := Bye(now, Pending, 0)];
    ConnectedCall(now, [DoCallSendRequest(2, BYE), DoTerminate(0, 2)]);
    Run3(Connected(now), DoCallSendRequest(2, BYE), DoTerminate(0, 2), Tick(0));
    RequestedBye(now);
    assert map[1 := Invited(now, Terminated, 200)][2 := Bye(now, Pending, 0)] == trs;
    OnlyBye(trs);
    HungUpCall(now, trs, [2], 3, [1]);
    assert [3] + [2] == [3, 2] && [1] + [1] == [1, 1];
  }

  lemma OnlyBye(trs: map<nat, Transaction>)
    requires 2 in trs && trs[2].verb == BYE
    ensures Latest(trs, [2], INVITE).None?
  {
  }

  // ---------------------------------------------------------------- hanging up while it rings

  /** An outgoing call that rings is terminated by CANCEL, transaction 2, with or without its early
      dialog, which dies only when it is named. */
  lemma RingingIsCancelled(now: int)
    ensures var s := Run(Init(now), [DoSendInitialInvite, DoRespond(1, 180, RINGING), DoTerminate(1, 2)]);
            && s.nextTid == 3 && s.garbage == [2] && s.byes == []
            && 2 in s.trs && s.trs[2] == Transaction(CANCEL, false, Pending, 0, now, None)
            && HasDialog(s, Call, 0, 0) && s.calls[0].dialogs[0].leg == NoLeg && s.calls[0].dialogs[0].id == -1
    ensures var s := Run(Init(now), [DoSendInitialInvite, DoRespond(1, 180, RINGING), DoTerminate(1, 0)]);
            && s.nextTid == 3 && s.garbage == [2] && s.byes == []
            && 2 in s.trs && s.trs[2] == Transaction(CANCEL, false, Pending, 0, now, None)
            && s.calls == Ringing(now).calls
  {
    hide SendInitialInvite, Respond, Terminate;
    RingingCall(now);
    Run3(Init(now), DoSendInitialInvite, DoRespond(1, 180, RINGING), DoTerminate(1, 2));
    Run3(Init(now), DoSendInitialInvite, DoRespond(1, 180, RINGING), DoTerminate(1, 0));
    CancelWithDialog(now);
    CancelWithoutDialog(now);
  }

  lemma CancelWithDialog(now: int)
    ensures var s := Terminate(Ringing(now), 1, 2);
            && s.nextTid == 3 && s.garbage == [2] && s.byes == []
            && 2 in s.trs && s.trs[2] == Transaction(CANCEL, false, Pending, 0, now, None)
            && HasDialog(s, Call, 0, 0) && s.calls[0].dialogs[0].leg == NoLeg && s.calls[0].dialogs[0].id == -1
  {
    hide Update;
    var s := Ringing(now);
    assert FindDialog(s.calls, 2) == Some((0, 0));
    assert Latest(s.trs, [], INVITE).None?;
    var c, d := s.calls[0], s.calls[0].dialogs[0];
    var s1 := Discard(Launch(s, Outgoing(s, CANCEL, None)), s.nextTid);
    var c1 := c.(dialogs := [d.(leg := NoLeg)]);
    SetOneDialog(s1, c, d, d.(leg := NoLeg));
    UpdateOneCall(s1.(calls := [c1]), c1);
  }

  lemma CancelWithoutDialog(now: int)
    ensures var s := Terminate(Ringing(now), 1, 0);
            && s.nextTid == 3 && s.garbage == [2] && s.byes == []
            && 2 in s.trs && s.trs[2] == Transaction(CANCEL, false, Pending, 0, now, None)
            && s.calls == Ringing(now).calls
  {
    hide Update;
    assert FindContext(Ringing(now).calls, 1) == Some(0);
  }

  // ---------------------------------------------------------------- a request while one is open

  const OPTIONS := OTHER("OPTIONS")

  function Asked(now: int, incoming: bool, phase: Phase, code: nat): Transaction {
    Transaction(OPTIONS, incoming, phase, code, now, Some(Jinfo(Call, 0, Some(1))))
  }

  /** An answered call with these requests in its dialog. */
  function Asking(now: int, inc: seq<nat>, out: seq<nat>, trs: map<nat, Transaction>, tid: nat): State {
    OneCall(now, Caller(ConfirmedLeg, 2, [], 0).(dialogs := [Dialog(1, 2, ConfirmedLeg, inc, out, 0)]), trs, tid, 2, 3)
  }

  lemma AskedOnce(now: int, trs: map<nat, Transaction>)
    ensures Next(Asking(now, [], [], trs, 2), DoCallSendRequest(2, OPTIONS))
            == Asking(now, [], [2], trs[2 := Asked(now, false, Pending, 0)], 3)
  {
    var s := Asking(now, [], [], trs, 2);
    assert FindDialog(s.calls, 2) == Some((0, 0));
    assert [2] + s.calls[0].dialogs[0].out == [2];
    SetOneDialog(Launch(s, Asked(now, false, Pending, 0)), s.calls[0], s.calls[0].dialogs[0], Dialog(1, 2, ConfirmedLeg, [], [2], 0));
  }

  lemma AskedBack(now: int, trs: map<nat, Transaction>)
    requires 2 in trs && trs[2] == Asked(now, false, Pending, 0)
    ensures Next(Asking(now + 1, [], [2], trs, 3), DoRequestInDialog(Call, 0, 0, OPTIONS, true, false))
            == Asking(now + 1, [3], [2], trs[3 := Asked(now + 1, true, Pending, 0)], 4)
  {
    var s := Asking(now + 1, [], [2], trs, 3);
    assert Latest(trs, [2], BYE).None? && Latest(trs, [], BYE).None?;
    assert [3] + s.calls[0].dialogs[0].inc == [3];
    SetOneDialog(Launch(s, Asked(now + 1, true, Pending, 0)), s.calls[0], s.calls[0].dialogs[0], Dialog(1, 2, ConfirmedLeg, [3], [2], 0));
  }

  lemma AskedAgain(now: int, trs: map<nat, Transaction>)
    requires 2 in trs && trs[2] == Asked(now, false, Pending, 0) && 3 in trs && trs[3] == Asked(now + 1, true, Completed, 200)
    ensures Next(Asking(now + 1, [3], [2], trs, 4), DoCallSendRequest(2, OPTIONS))
            == Asking(now + 1, [3], [4, 2], trs[4 := Asked(now + 1, false, Pending, 0)], 5)
  {
    var s := Asking(now + 1, [3], [2], trs, 4);
    assert FindDialog(s.calls, 2) == Some((0, 0));
    assert Latest(trs, [2], OPTIONS) == Some(2) && Latest(trs, [3], OPTIONS) == Some(3);
    assert [4] + s.calls[0].dialogs[0].out == [4, 2];
    SetOneDialog(Launch(s, Asked(now + 1, false, Pending, 0)), s.calls[0], s.calls[0].dialogs[0], Dialog(1, 2, ConfirmedLeg, [3], [4, 2], 0));
  }

  /** A request is accepted although an older one of the same method is still open, because a
      younger one from the remote party is answered. */
  lemma OlderRequestStaysOpen(now: int)
    ensures var s := Run(Init(now), ANSWERED + [DoCallSendRequest(2, OPTIONS), Tick(1),
                           DoRequestInDialog(Call, 0, 0, OPTIONS, true, false), DoAnswerSent(3, 200), DoCallSendRequest(2, OPTIONS)]);
            && |s.calls| == 1 && |s.calls[0].dialogs| == 1 && s.calls[0].dialogs[0].out == [4, 2]
            && 2 in s.trs && s.trs[2].verb == OPTIONS && s.trs[2].phase == Pending && s.trs[2].response == 0
  {
    hide Run, Next, ANSWERED;
    var es := [DoCallSendRequest(2, OPTIONS), Tick(1), DoRequestInDialog(Call, 0, 0, OPTIONS, true, false), DoAnswerSent(3, 200),
               DoCallSendRequest(2, OPTIONS)];
    ConnectedCall(now, es);
    Run5(Connected(now), es[0], es[1], es[2], es[3], es[4]);
    var trs0 := map[1 := Invited(now, Terminated, 200)];
    var trs1 := trs0[2 := Asked(now, false, Pending, 0)];
    var trs2 := trs1[3 := Asked(now + 1, true, Pending, 0)];
    var trs3 := trs1[3 := Asked(now + 1, true, Completed, 200)];
    AskedOnce(now, trs0);
    SecondPasses(now, trs1);
    AskedBack(now, trs1);
    AnsweredBack(now, trs1);
    AskedAgain(now, trs3);
  }

  lemma SecondPasses(now: int, trs: map<nat, Transaction>)
    ensures Next(Asking(now, [], [2], trs, 3), Tick(1)) == Asking(now + 1, [], [2], trs, 3)
  {
  }

  lemma AnsweredBack(now: int, trs: map<nat, Transaction>)
    ensures Next(Asking(now + 1, [3], [2], trs[3 := Asked(now + 1, true, Pending, 0)], 4), DoAnswerSent(3, 200))
            == Asking(now + 1, [3], [2], trs[3 := Asked(now + 1, true, Completed, 200)], 4)
  {
    hide FindRef;
    assert trs[3 := Asked(now + 1, true, Pending, 0)][3 := Asked(now + 1, true, Completed, 200)] == trs[3 := Asked(now + 1, true, Completed, 200)];
  }

  // ---------------------------------------------------------------- an id that outlives its dialog

  /** An outgoing call rings, then is accepted by another party from whose answer no dialog can
      be built: the dialog is dead, and its id 2 is still found. */
  lemma FailedReplacementIsFound(now: int)
    ensures var s := Run(Init(now), [DoSendInitialInvite, DoRespond(1, 180, RINGING)]);
            var s' := Run(Init(now), [DoSendInitialInvite, DoRespond(1, 180, RINGING), DoRespond(1, 200, NOTHING)]);
            && FailedReplacement(s, DoRespond(1, 200, NOTHING), 2)
            && FindDialog(s'.calls, 2) == Some((0, 0)) && s'.calls[0].dialogs[0].leg == NoLeg
  {
    hide SendInitialInvite, Respond;
    RingingCall(now);
    ReplacedCall(now);
    Run3(Init(now), DoSendInitialInvite, DoRespond(1, 180, RINGING), DoRespond(1, 200, NOTHING));
  }

  lemma ReplacedCall(now: int)
    ensures FailedReplacement(Ringing(now), DoRespond(1, 200, NOTHING), 2)
    ensures var s := Respond(Ringing(now), 1, 200, NOTHING);
            FindDialog(s.calls, 2) == Some((0, 0)) && s.calls[0].dialogs[0].leg == NoLeg
  {
    var s := Ringing(now);
    var s1 := SetProgress(s, 1, Terminated, 200);
    var c, ji := s.calls[0], Jinfo(Call, 0, Some(1));
    assert FindRef(s.calls, 0) == Some(0) && FindDialogRef(c.dialogs, 1) == Some(0);
    var c1 := c.(success := true);
    assert c.dialogs[0 := c.dialogs[0]] == c.dialogs;
    SetOneContext(s1, c, c1);
    assert ResetRetries(s1, 0, ji) == s1.(calls := [c1]);
    SetOneDialog(s1.(calls := [c1]), c1, c1.dialogs[0], c1.dialogs[0].(leg := NoLeg));
    assert Respond(s, 1, 200, NOTHING).calls == [c1.(dialogs := [c1.dialogs[0].(leg := NoLeg)])];
  }

  // ---------------------------------------------------------------- misplaced transactions

  /** The CANCEL of an incoming call cannot be answered: its INVITE, transaction 1, ends up in
      two places, its own transaction, 2, in none. */
  lemma CancelMisplaces(now: int)
    ensures var s := Run(Init(now), [DoNewIncoming(Call, true), DoCancel(InitialInvite(0), false, true)]);
            s.nextTid == 3 && multiset(Holdings(s))[1] == 2 && multiset(Holdings(s))[2] == 0
  {
    hide Next, Holdings, Run, Count;
    var es := [DoNewIncoming(Call, true), DoCancel(InitialInvite(0), false, true)];
    Run3(Init(now), es[0], es[1], Tick(0));
    CancelledStore(now);
    TransactionsAccounted(now, es, 1);
    TransactionsAccounted(now, es, 2);
    CountOne(1, 1);
    CountOne(1, 2);
    CountOne(2, 1);
    CountOne(2, 2);
  }

  lemma CancelledStore(now: int)
    ensures var s := Next(Next(Init(now), DoNewIncoming(Call, true)), DoCancel(InitialInvite(0), false, true));
            s.doubles == [1] && s.lost == [2] && s.nextTid == 3
  {
    hide NewIncoming, ProcessCancel;
    AnsweredCall(now);
    UnansweredCancel(OneCall(now, Caller(EarlyLeg, 2, [], 0), map[1 := Invited(now, Pending, 0)], 2, 2, 3));
  }

  lemma UnansweredCancel(s: State)
    requires |s.calls| == 1 && s.calls[0].inc == Some(1) && 1 in s.trs && s.doubles == [] && s.lost == [] && s.nextTid == 2
    ensures var s' := ProcessCancel(s, InitialInvite(0), false, true);
            s'.doubles == [1] && s'.lost == [2] && s'.nextTid == 3
  {
    assert [1] + s.doubles == [1] && [2] + s.lost == [2];
  }

  lemma CountOne(x: nat, y: nat)
    ensures Count([x], y) == Bit(x == y)
  {
    assert [x][1..] == [];
  }

  /** A first NOTIFY for which no dialog can be built: its transaction, 2, is in no place. */
  lemma NotifyMisplaces(now: int)
    ensures var s := Run(Init(now), [DoSendInitialSubscribe, DoFirstNotify(0, NoLeg, true, false)]);
            s.nextTid == 3 && multiset(Holdings(s))[1] == 1 && multiset(Holdings(s))[2] == 0
  {
    hide Holdings, Update;
    var es := [DoSendInitialSubscribe, DoFirstNotify(0, NoLeg, true, false)];
    Run3(Init(now), es[0], es[1], Tick(0));
    var s1 := Next(Init(now), es[0]);
    SubscribedStore(now);
    var s := Run(Init(now), es);
    assert s.doubles == [] && s.lost == [2] && s.nextTid == 3;
    TransactionsAccounted(now, es, 1);
    TransactionsAccounted(now, es, 2);
    CountOne(2, 1);
    CountOne(2, 2);
  }

  lemma SubscribedStore(now: int)
    ensures var s := SendInitialSubscribe(Init(now));
            |s.subs| == 1 && s.nextTid == 2 && s.doubles == [] && s.lost == []
  {
    hide Update;
    var c := Context(0, 0, [], None, Some(1), 0, 0, false);
    var tr := Outgoing(Init(now), SUBSCRIBE, Some(Jinfo(Subscription, 0, None)));
    var s := AddContext(Launch(Init(now), tr), Subscription, c).(nextRef := 1);
    UpdateKeepsShape(s);
    assert SameContexts(List(s, Subscription), List(Update(s), Subscription));
  }

  // ---------------------------------------------------------------- a fourth resend

  /** An outgoing call whose initial INVITE, transaction `t`, awaits its answer. */
  predicate Calling(s: State, t: nat, retry: int, resent: int) {
    && s.subs == [] && s.notifies == [] && 1 <= s.staticId <= MAX_STATIC_ID && s.nextTid == t + 1
    && t in s.trs && s.trs[t].verb == INVITE && !s.trs[t].incoming && s.trs[t].phase == Pending
    && s.trs[t].jinfo == Some(Jinfo(Call, 0, None))
    && s.calls == [Context(0, 1, [], None, Some(t), retry, resent, true)]
  }

  /** A challenge and its retry, charged to the call. */
  lemma ChallengedInvite(s: State, t: nat, retry: int, resent: int)
    requires Calling(s, t, retry, resent) && retry < MAX_RETRY
    ensures Calling(DefaultAction(Respond(s, t, 401, NOTHING), Of(Call), t), t + 1, retry + 1, resent + 1)
  {
    hide Update, UpdateContexts, UpdateDialogs;
    var s1 := Respond(s, t, 401, NOTHING);
    var c := s.calls[0];
    assert s1 == SetProgress(s, t, Completed, 401);
    assert FindTransaction(s1.calls, t) == Some((0, None));
    var c1 := c.(retry := retry + 1);
    SetOneContext(s1, c, c1);
    var s2 := s1.(calls := [c1]);
    SetOneContext(s2, c1, c1.(resent := resent + 1));
    var c3 := c1.(resent := resent + 1);
    var s3 := s2.(calls := [c3]);
    assert RetryCall(s1, t) == CallResend(s3, 0, None, t);
    var s4 := Discard(Launch(s3, Outgoing(s3, INVITE, Some(Jinfo(Call, 0, None)))), t);
    SetOneContext(s4, c3, c3.(out := Some(t + 1)));
    UpdateOneCall(s4.(calls := [c3.(out := Some(t + 1))]), c3.(out := Some(t + 1)));
  }

  /** The early dialog of the call got confirmed by a SUBSCRIBE sent inside it, so the first
      retry is charged to the dialog and the call still has three left. */
  function Subscribed(now: int, leg: Leg, phase: Phase, code: nat, dphase: Phase, dcode: nat): State {
    OneCall(now, Context(0, 1, [Dialog(1, 2, leg, [], [2], 0)], None, Some(1), 0, 0, leg == ConfirmedLeg),
            map[1 := Transaction(INVITE, false, phase, code, now, Some(Jinfo(Call, 0, Some(1)))),
                2 := Transaction(SUBSCRIBE, false, dphase, dcode, now, Some(Jinfo(Call, 0, Some(1))))],
            3, 2, 3)
  }

  function Ringing(now: int): State {
    OneCall(now, Context(0, 1, [Dialog(1, 2, EarlyLeg, [], [], 0)], None, Some(1), 0, 0, false),
            map[1 := Transaction(INVITE, false, Pending, 180, now, Some(Jinfo(Call, 0, Some(1))))], 2, 2, 3)
  }

  lemma RingingCall(now: int)
    ensures Respond(SendInitialInvite(Init(now)), 1, 180, RINGING) == Ringing(now)
  {
    hide Update, UpdateContexts, UpdateDialogs;
    var c := Context(0, -1, [], None, Some(1), 0, 0, false);
    var tr := Transaction(INVITE, false, Pending, 0, now, Some(Jinfo(Call, 0, None)));
    var s0 := OneCall(now, c, map[1 := tr], 2, 1, 1);
    assert [c] + [] == [c];
    assert SendInitialInvite(Init(now)) == Update(s0);
    assert s0.calls[1..] == [];
    UpdateNewCall(s0, c);
    var c1 := c.(id := 1);
    assert [c1] + [] == [c1];
    var s1 := OneCall(now, c1, map[1 := tr], 2, 1, 2);
    assert SendInitialInvite(Init(now)) == s1;
    var d := Dialog(1, -1, EarlyLeg, [], [], 0);
    var tr1 := tr.(response := 180, jinfo := Some(Jinfo(Call, 0, Some(1))));
    var c2 := c1.(dialogs := [d]);
    var s2 := OneCall(now, c2, map[1 := tr1], 2, 2, 2);
    assert [d] + [] == [d];
    var s1' := SetProgress(s1, 1, Pending, 180);
    SetOneContext(s1', c1, c2);
    var ji := Jinfo(Call, 0, None);
    assert SetJinfo(AddDialog(s1', Call, 0, EarlyLeg), 1, Some(ji.(dialog := Some(1)))).trs == s2.trs;
    assert StartDialog(s1', 1, 0, ji, EarlyLeg) == Update(s2);
    assert FindRef(s1'.calls, 0) == Some(0);
    assert Respond(s1, 1, 180, RINGING) == Update(s2);
    UpdateOneCall(s2, c2);
  }

  lemma SubscribingCall(now: int)
    ensures CallSendRequest(Ringing(now), 2, SUBSCRIBE) == Subscribed(now, EarlyLeg, Pending, 180, Pending, 0)
  {
    var s := Ringing(now);
    var d := s.calls[0].dialogs[0];
    assert FindDialog(s.calls, 2) == Some((0, 0));
    assert [2] + d.out == [2];
    SetOneDialog(Launch(s, Outgoing(s, SUBSCRIBE, Some(Jinfo(Call, 0, Some(1))))), s.calls[0], d, d.(out := [2]));
  }

  lemma SubscribedCall(now: int)
    ensures Respond(Subscribed(now, EarlyLeg, Pending, 180, Pending, 0), 2, 200, NOTHING)
            == Subscribed(now, ConfirmedLeg, Pending, 180, Completed, 200)
  {
    var s := SetProgress(Subscribed(now, EarlyLeg, Pending, 180, Pending, 0), 2, Completed, 200);
    var c := s.calls[0];
    var d := c.dialogs[0];
    var c1 := c.(success := true);
    assert c.dialogs[0 := d] == [d];
    SetOneContext(s, c, c1);
    SetOneDialog(s.(calls := [c1]), c1, d, d.(leg := ConfirmedLeg));
  }

  lemma ChallengedSubscribed(now: int)
    ensures Respond(Subscribed(now, ConfirmedLeg, Pending, 180, Completed, 200), 1, 401, NOTHING)
            == Subscribed(now, ConfirmedLeg, Completed, 401, Completed, 200)
  {
  }

  lemma FirstRetry(now: int)
    ensures Calling(DefaultAction(Subscribed(now, ConfirmedLeg, Completed, 401, Completed, 200), Of(Call), 1), 3, 0, 1)
  {
    hide Update, UpdateContexts, UpdateDialogs;
    var s := Subscribed(now, ConfirmedLeg, Completed, 401, Completed, 200);
    var c := s.calls[0];
    var d := c.dialogs[0];
    assert FindTransaction(s.calls, 1) == Some((0, Some(0)));
    SetOneDialog(s, c, d, d.(retry := 1));
    var c1 := c.(dialogs := [d.(retry := 1)]);
    SetOneContext(s.(calls := [c1]), c1, c1.(resent := 1));
    var s1 := s.(calls := [c1.(resent := 1)]);
    assert RetryCall(s, 1) == CallResend(s1, 0, Some(0), 1);
    var s2 := Discard(Launch(s1, Outgoing(s1, INVITE, Some(Jinfo(Call, 0, None)))), 1);
    var c2 := c1.(resent := 1, out := Some(3));
    SetOneContext(s2, c1.(resent := 1), c2);
    var s3 := s2.(calls := [c2]);
    assert Without(c2.dialogs, 0) == [];
    SetOneContext(s3, c2, c2.(dialogs := []));
    var s4 := s3.(calls := [c2.(dialogs := [])], garbage := Reversed([2]) + Reversed([]) + s3.garbage,
                  trs := ForgetAll(s3.trs, [] + [2]));
    assert DropDialog(s3, Call, 0, 0) == Update(s4);
    UpdateOneCall(s4, c2.(dialogs := []));
  }

  const CHALLENGED := [
    DoSendInitialInvite, DoRespond(1, 180, RINGING), DoCallSendRequest(2, SUBSCRIBE),
    DoRespond(2, 200, NOTHING), DoRespond(1, 401, NOTHING), DoDefaultAction(Of(Call), 1)]

  const CHALLENGED_TRICE := [
    DoRespond(3, 401, NOTHING), DoDefaultAction(Of(Call), 3), DoRespond(4, 401, NOTHING),
    DoDefaultAction(Of(Call), 4), DoRespond(5, 401, NOTHING), DoDefaultAction(Of(Call), 5)]

  /** The bound of ResendsBounded is reached: an initial INVITE that is resent four times. */
  lemma FourResends(now: int)
    ensures var s := Run(Init(now), CHALLENGED + CHALLENGED_TRICE);
            |s.calls| == 1 && s.calls[0].resent == 4
  {
    hide SendInitialInvite, Respond, CallSendRequest, DefaultAction;
    RingingCall(now);
    SubscribingCall(now);
    SubscribedCall(now);
    ChallengedSubscribed(now);
    FirstRetry(now);
    var s := Init(now);
    Run6(s, CHALLENGED[0], CHALLENGED[1], CHALLENGED[2], CHALLENGED[3], CHALLENGED[4], CHALLENGED[5]);
    var s1 := Run(s, CHALLENGED);
    assert Calling(s1, 3, 0, 1);
    var es := CHALLENGED_TRICE;
    Run6(s1, es[0], es[1], es[2], es[3], es[4], es[5]);
    ChallengedInvite(s1, 3, 0, 1);
    var s2 := DefaultAction(Respond(s1, 3, 401, NOTHING), Of(Call), 3);
    ChallengedInvite(s2, 4, 1, 2);
    var s3 := DefaultAction(Respond(s2, 4, 401, NOTHING), Of(Call), 4);
    ChallengedInvite(s3, 5, 2, 3);
    RunSplit(s, CHALLENGED + es, 6);
    assert (CHALLENGED + es)[..6] == CHALLENGED && (CHALLENGED + es)[6..] == es;
  }
}
