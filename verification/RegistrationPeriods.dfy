/** When a REGISTER is sent and for how long it registers: every one asks for the period that was
    in force when it was built. */
module RegistrationPeriods {
  import opened Wrappers
  import opened Registration
  import opened RegistrationTheorems

  // ---------------------------------------------------------------- the period

  function Distance(a: int, b: int): nat {
    if a < b then b - a else a - b
  }

  /** A period of 0, to unregister, is left alone; any other becomes the nearest one from 200 to
      3600 seconds. */
  lemma ClampNearest(expires: int, other: int)
    ensures ClampPeriod(0) == 0
    ensures expires != 0 ==> 200 <= ClampPeriod(expires) <= 3600
    ensures expires != 0 && 200 <= other <= 3600 ==> Distance(expires, ClampPeriod(expires)) <= Distance(expires, other)
  {
  }

  // ---------------------------------------------------------------- what a step sends

  /** The timers ask for a refresh: a REGISTER older than 15 minutes, within a minute of its
      period, or older than two minutes without a 2xx. */
  predicate TimerUp(r: Reg)
    requires Valid(r)
  {
    r.last.Some? && r.period != 0 &&
    var tr := r.trs[r.last.value];
    var age := r.now - tr.birth;
    age > 900 || age + 60 > r.period || (age > 120 && (tr.code < 200 || tr.code > 299))
  }

  predicate ChallengedLately(r: Reg)
    requires Valid(r)
  {
    r.last.Some? && r.now - r.trs[r.last.value].birth < 120 && r.trs[r.last.value].code in {401, 407}
  }

  /** The REGISTER that can be built: none while one is unfinished; the successor of the last one,
      or the first of a new Call-ID. */
  function Buildable(r: Reg, luck: Luck): Option<Message>
    requires Valid(r)
  {
    match r.last
    case Some(i) =>
      var m := r.trs[i].message;
      if r.trs[i].done && luck.viaOk then Some(Message(m.callId, m.cseq + 1, r.period)) else None
    case None => if luck.generateOk then Some(Message(r.nextCallId, 1, r.period)) else None
  }

  function LuckOf(e: Step): Luck {
    if e.DoSendDraft? || e.DoSendNew? || e.DoRetry? || e.DoRefresh? || e.DoAction? then e.luck else Luck(false, false, false)
  }

  /** The REGISTER that a step sends. */
  function Sending(w: World, e: Step): Option<Message>
    requires Valid(w.reg)
  {
    var r := w.reg;
    if !LuckOf(e).initOk then None
    else match e
      case DoSendDraft(k, _) => if k < |w.drafts| && !Pending(r) then Some(w.drafts[k]) else None
      case DoSendNew(luck) => Buildable(r, luck)
      case DoRetry(luck) => if r.retry < 3 then Buildable(r, luck) else None
      case DoRefresh(luck) => if TimerUp(r) then Buildable(r, luck) else None
      case DoAction(luck) => if TimerUp(r) || (ChallengedLately(r) && r.retry < 3) then Buildable(r, luck) else None
      case _ => None
  }

  function Messages(trs: seq<Sent>): (r: seq<Message>)
    ensures |r| == |trs| && forall i :: 0 <= i < |trs| ==> r[i] == trs[i].message
  {
    seq(|trs|, i requires 0 <= i < |trs| => trs[i].message)
  }

  function Appended(ms: seq<Message>, m: Option<Message>): seq<Message> {
    if m.Some? then ms + [m.value] else ms
  }

  lemma SendSends(r: Reg, luck: Luck)
    requires Valid(r)
    ensures Messages(Send(r, None, luck).trs) == Appended(Messages(r.trs), if luck.initOk then Buildable(r, luck) else None)
    ensures Send(r, None, luck).period == r.period && Send(r, None, luck).now == r.now
  {
    hide Messages;
    if r.last.Some? && luck.viaOk {
      var m := r.trs[r.last.value].message;
      MessagesSnoc(r.trs, Sent(Message(m.callId, m.cseq + 1, r.period), false, 0, r.now));
    }
    if r.last.None? && luck.generateOk {
      MessagesSnoc(r.trs, Sent(Message(r.nextCallId, 1, r.period), false, 0, r.now));
    }
  }

  lemma MessagesSnoc(trs: seq<Sent>, x: Sent)
    ensures Messages(trs + [x]) == Messages(trs) + [x.message]
  {
  }

  /** A step sends the REGISTER that the state before it decides, behind those sent before, and no
      other. */
  lemma StepSends(w: World, e: Step)
    requires Valid(w.reg)
    ensures Messages(Next(w, e).reg.trs) == Appended(Messages(w.reg.trs), Sending(w, e))
  {
    hide Messages, Send, Buildable;
    var r := w.reg;
    match e
    case DoBuild(expires, luck) =>
    case DoSendDraft(k, luck) => if k < |w.drafts| { DraftSends(r, w.drafts[k], luck); }
    case DoSendNew(luck) => SendSends(r, luck);
    case DoRetry(luck) =>
      SendSends(r.(retry := r.retry + 1), luck);
      SameBuildable(r, r.(retry := r.retry + 1), luck);
    case DoRefresh(luck) => SendSends(r, luck);
    case DoAction(luck) => SendSends(r, luck);
    case DoRespond(i, code) => if i < |r.trs| { MessagesUpdate(r.trs, i, r.trs[i].(done := code >= 200, code := code)); }
    case DoExpire(i) => if i < |r.trs| { MessagesUpdate(r.trs, i, r.trs[i].(done := true)); }
    case _ =>
  }

  lemma SameBuildable(r: Reg, r': Reg, luck: Luck)
    requires Valid(r) && r' == r.(retry := r'.retry)
    ensures Buildable(r', luck) == Buildable(r, luck)
  {
  }

  lemma DraftSends(r: Reg, m: Message, luck: Luck)
    requires Valid(r)
    ensures Messages(Send(r, Some(m), luck).trs)
            == Appended(Messages(r.trs), if luck.initOk && !Pending(r) then Some(m) else None)
  {
    hide Messages;
    MessagesSnoc(r.trs, Sent(m, false, 0, r.now));
  }

  lemma MessagesUpdate(trs: seq<Sent>, i: nat, x: Sent)
    requires i < |trs| && x.message == trs[i].message
    ensures Messages(trs[i := x]) == Messages(trs)
  {
  }

  /** The period after a step: the clamped one of a build, 0 once the registration is removed. */
  lemma StepPeriod(w: World, e: Step)
    requires Valid(w.reg)
    ensures Next(w, e).reg.period == match e case DoBuild(expires, _) => ClampPeriod(expires) case DoRemove => 0 case _ => w.reg.period
  {
    hide Send, ClampPeriod;
    match e
    case DoSendDraft(k, luck) => if k < |w.drafts| { DraftPeriod(w.reg, w.drafts[k], luck); }
    case DoSendNew(luck) => SendSends(w.reg, luck);
    case DoRetry(luck) => SendSends(w.reg.(retry := w.reg.retry + 1), luck);
    case DoRefresh(luck) => SendSends(w.reg, luck);
    case DoAction(luck) => SendSends(w.reg, luck);
    case _ =>
  }

  lemma DraftPeriod(r: Reg, m: Message, luck: Luck)
    requires Valid(r)
    ensures Send(r, Some(m), luck).period == r.period
  {
  }

  /** A build hands out a draft that asks for the clamped period. */
  lemma DraftAsks(w: World, expires: int, luck: Luck)
    requires Valid(w.reg)
    ensures var w' := Next(w, DoBuild(expires, luck));
            w'.drafts == Appended(w.drafts, Buildable(w.reg.(period := ClampPeriod(expires)), luck))
            && (|w'.drafts| > |w.drafts| ==> w'.drafts[|w.drafts|].expires == ClampPeriod(expires) == w'.reg.period)
  {
    hide ClampPeriod;
  }

  // ---------------------------------------------------------------- runs

  /** The message was built, and asks for the period that was in force just then: by the step
      before state `y` of the run, or with the registration when `y` is 0. */
  ghost predicate BuiltAt(start: World, es: seq<Step>, m: Message, y: nat)
    requires Valid(start.reg) && y <= |es|
  {
    m.expires == Run(start, es[..y]).reg.period && (y == 0 || es[y - 1].DoBuild?)
  }

  ghost predicate Built(start: World, es: seq<Step>, m: Message)
    requires Valid(start.reg)
  {
    exists y :: 0 <= y <= |es| && BuiltAt(start, es, m, y)
  }

  /** REGISTER number `i` was sent by step `x`, and asks for the period in force then, or, as a
      draft, at the time it was built. */
  ghost predicate SentAt(start: World, es: seq<Step>, i: nat, x: nat)
    requires Valid(start.reg) && x < |es|
  {
    var w, w' := Run(start, es[..x]), Run(start, es[..x + 1]);
    && |w.reg.trs| == i && i < |w'.reg.trs|
    && var m := w'.reg.trs[i].message;
       if es[x].DoSendDraft? then Built(start, es[..x], m) else m.expires == w.reg.period
  }

  ghost predicate DraftsBuilt(start: World, es: seq<Step>)
    requires Valid(start.reg)
  {
    forall m :: m in Run(start, es).drafts ==> Built(start, es, m)
  }

  lemma {:induction false} RunSnoc(w: World, es: seq<Step>, e: Step)
    requires Valid(w.reg)
    ensures Run(w, es + [e]) == Next(Run(w, es), e)
    decreases |es|
  {
    hide Next;
    if es == [] { assert [] + [e] == [e] && [e][1..] == []; }
    else {
      assert (es + [e])[1..] == es[1..] + [e] && (es + [e])[0] == es[0];
      RunSnoc(Next(w, es[0]), es[1..], e);
    }
  }

  lemma BuiltLater(start: World, es: seq<Step>, e: Step, m: Message, y: nat)
    requires Valid(start.reg) && y <= |es|
    ensures BuiltAt(start, es + [e], m, y) <==> BuiltAt(start, es, m, y)
  {
    assert (es + [e])[..y] == es[..y];
    assert y > 0 ==> (es + [e])[y - 1] == es[y - 1];
  }

  lemma DraftsBuiltStep(start: World, es: seq<Step>, e: Step)
    requires Valid(start.reg) && DraftsBuilt(start, es)
    ensures DraftsBuilt(start, es + [e])
  {
    hide Run, Next, BuiltAt;
    var w, w', es' := Run(start, es), Run(start, es + [e]), es + [e];
    RunSnoc(start, es, e);
    forall m | m in w'.drafts ensures Built(start, es', m) {
      DraftsOfStep(w, e, m);
      if m in w.drafts {
        var y :| 0 <= y <= |es| && BuiltAt(start, es, m, y);
        BuiltLater(start, es, e, m, y);
      } else {
        NewDraftBuilt(start, es, e, m);
      }
    }
  }

  lemma NewDraftBuilt(start: World, es: seq<Step>, e: Step, m: Message)
    requires Valid(start.reg) && e.DoBuild? && m.expires == Run(start, es + [e]).reg.period
    ensures Built(start, es + [e], m)
  {
    hide Run;
    assert (es + [e])[..|es + [e]|] == es + [e];
    assert BuiltAt(start, es + [e], m, |es + [e]|);
  }

  lemma DraftsOfStep(w: World, e: Step, m: Message)
    requires Valid(w.reg) && m in Next(w, e).drafts
    ensures m in w.drafts || (e.DoBuild? && m.expires == Next(w, e).reg.period)
  {
    hide Send, ClampPeriod, RetryWithAuth, AutomaticRefresh, AutomaticAction;
    if e.DoBuild? { DraftAsks(w, e.expires, e.luck); }
  }

  lemma {:induction false} DraftsBuiltRun(start: World, es: seq<Step>)
    requires Valid(start.reg) && DraftsBuilt(start, [])
    ensures DraftsBuilt(start, es)
    decreases |es|
  {
    hide DraftsBuilt;
    if es != [] {
      var n := |es| - 1;
      DraftsBuiltRun(start, es[..n]);
      DraftsBuiltStep(start, es[..n], es[n]);
      assert es == es[..n] + [es[n]];
    }
  }

  lemma StartDrafts(expires: int, now: int, luck: Luck)
    ensures DraftsBuilt(Start(expires, now, luck), [])
  {
    var start := Start(expires, now, luck);
    var none: seq<Step> := [];
    assert none[..0] == [] && Run(start, []) == start;
    forall m | m in start.drafts ensures Built(start, none, m) {
      assert BuiltAt(start, none, m, 0);
    }
  }

  /** The step of a run that sends REGISTER number `i`. */
  lemma {:induction false} WhenSent(start: World, es: seq<Step>, i: nat) returns (x: nat)
    requires Valid(start.reg) && start.reg.trs == [] && i < |Run(start, es).reg.trs|
    ensures x < |es|
    ensures Messages(Run(start, es[..x + 1]).reg.trs) == Messages(Run(start, es[..x]).reg.trs) + [Run(start, es).reg.trs[i].message]
    ensures |Run(start, es[..x]).reg.trs| == i
    decreases |es|
  {
    hide Run, Next, Messages;
    assert Run(start, []) == start by { RunNone(start); }
    var n := |es| - 1;
    var w, ms := Run(start, es[..n]), Messages(Run(start, es[..n]).reg.trs);
    assert es == es[..n] + [es[n]];
    RunSnoc(start, es[..n], es[n]);
    StepSends(w, es[n]);
    MessagesAt(w.reg.trs);
    MessagesAt(Run(start, es).reg.trs);
    if i < |w.reg.trs| {
      x := WhenSent(start, es[..n], i);
      assert es[..n][..x] == es[..x] && es[..n][..x + 1] == es[..x + 1];
    } else {
      x := n;
      assert es[..x + 1] == es;
    }
  }

  lemma RunNone(w: World)
    requires Valid(w.reg)
    ensures Run(w, []) == w
  {
  }

  lemma MessagesAt(trs: seq<Sent>)
    ensures |Messages(trs)| == |trs| && forall i :: 0 <= i < |trs| ==> Messages(trs)[i] == trs[i].message
  {
  }

  /** Over every run, each REGISTER ever sent asks for the period that was in force when it was
      sent, or, when the application sent a draft, when the draft was built. */
  lemma {:induction false} PeriodSent(expires: int, now: int, luck: Luck, es: seq<Step>, i: nat)
    requires i < |Run(Start(expires, now, luck), es).reg.trs|
    ensures exists x :: 0 <= x < |es| && SentAt(Start(expires, now, luck), es, i, x)
  {
    hide Run, Start, Sending, Built, Messages, Next;
    var start := Start(expires, now, luck);
    NothingSent(expires, now, luck);
    var x := WhenSent(start, es, i);
    var w, w' := Run(start, es[..x]), Run(start, es[..x + 1]);
    assert es[..x + 1] == es[..x] + [es[x]];
    RunSnoc(start, es[..x], es[x]);
    StepSends(w, es[x]);
    MessagesAt(w.reg.trs);
    MessagesAt(w'.reg.trs);
    SendingAsks(w, es[x]);
    if es[x].DoSendDraft? {
      StartDrafts(expires, now, luck);
      DraftsBuiltRun(start, es[..x]);
    }
    assert w'.reg.trs[i].message == Messages(w'.reg.trs)[i];
    assert SentAt(start, es, i, x);
  }

  lemma NothingSent(expires: int, now: int, luck: Luck)
    ensures Valid(Start(expires, now, luck).reg) && Start(expires, now, luck).reg.trs == []
  {
  }

  lemma SendingAsks(w: World, e: Step)
    requires Valid(w.reg) && Sending(w, e).Some?
    ensures if e.DoSendDraft? then Sending(w, e).value in w.drafts else Sending(w, e).value.expires == w.reg.period
  {
  }
}
