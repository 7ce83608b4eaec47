/** What every run of builds, sends, refreshes and retries keeps, and the refresh bound. */
module RegistrationTheorems {
  import opened Wrappers
  import opened Registration

  // ---------------------------------------------------------------- what every run keeps

  /** How many REGISTERs were sent with this Call-ID. */
  function Count(trs: seq<Sent>, callId: nat): nat {
    if trs == [] then 0 else Count(trs[..|trs| - 1], callId) + if trs[|trs| - 1].message.callId == callId then 1 else 0
  }

  /** The REGISTERs of a Call-ID carry the CSeqs 1, 2, 3, ... in the order they are sent. */
  predicate Consecutive(trs: seq<Sent>) {
    forall i :: 0 <= i < |trs| ==> trs[i].message.cseq == FIRST_CSEQ + Count(trs[..i], trs[i].message.callId)
  }

  /** Only r_last_tr can be unfinished. */
  predicate Serialised(r: Reg) {
    forall i :: 0 <= i < |r.trs| && !r.trs[i].done ==> r.last == Some(i)
  }

  /** A draft is the next REGISTER of its Call-ID, no two are of the same Call-ID, and r_last_tr
      is of yet another one. */
  predicate DraftsOk(w: World)
    requires Valid(w.reg)
  {
    && (forall k :: 0 <= k < |w.drafts| ==>
          w.drafts[k].callId < w.reg.nextCallId
          && w.drafts[k].cseq == FIRST_CSEQ + Count(w.reg.trs, w.drafts[k].callId))
    && (forall k, l :: 0 <= k < l < |w.drafts| ==> w.drafts[k].callId != w.drafts[l].callId)
    && (w.reg.last.Some? ==> forall k :: 0 <= k < |w.drafts| ==>
          w.drafts[k].callId != w.reg.trs[w.reg.last.value].message.callId)
  }

  /** r_last_tr is the latest of its Call-ID. */
  predicate LastOk(r: Reg)
    requires Valid(r)
  {
    r.last.Some? ==>
      var m := r.trs[r.last.value].message;
      m.cseq + 1 == FIRST_CSEQ + Count(r.trs, m.callId)
  }

  ghost predicate Inv(w: World) {
    && Valid(w.reg) && Consecutive(w.reg.trs) && Serialised(w.reg) && LastOk(w.reg) && DraftsOk(w)
    && (forall i :: 0 <= i < |w.reg.trs| ==> w.reg.trs[i].message.callId < w.reg.nextCallId)
    && 0 <= w.reg.retry <= MAX_RETRY && 0 <= w.resent <= w.reg.retry
  }

  lemma CountSnoc(trs: seq<Sent>, x: Sent, c: nat)
    ensures Count(trs + [x], c) == Count(trs, c) + if x.message.callId == c then 1 else 0
  {
    assert (trs + [x])[..|trs|] == trs;
  }

  lemma CountUpdate(trs: seq<Sent>, i: nat, x: Sent, c: nat)
    requires i < |trs| && x.message == trs[i].message
    ensures Count(trs[i := x], c) == Count(trs, c)
  {
    var n := |trs| - 1;
    if i == n { assert trs[i := x][..n] == trs[..n]; }
    else {
      assert trs[i := x][..n] == trs[..n][i := x];
      CountUpdate(trs[..n], i, x, c);
    }
  }

  lemma CountFresh(trs: seq<Sent>, c: nat)
    requires forall i :: 0 <= i < |trs| ==> trs[i].message.callId != c
    ensures Count(trs, c) == 0
  {
    if trs != [] { CountFresh(trs[..|trs| - 1], c); }
  }

  lemma CountSplit(trs: seq<Sent>, i: nat, c: nat)
    requires i <= |trs|
    ensures Count(trs[..i], c) <= Count(trs, c)
    ensures i < |trs| && trs[i].message.callId == c ==> Count(trs[..i], c) < Count(trs, c)
  {
    if i == |trs| { assert trs[..i] == trs; }
    else {
      var n := |trs| - 1;
      if i < n {
        assert trs[..n][..i] == trs[..i];
        CountSplit(trs[..n], i, c);
      }
    }
  }

  lemma ConsecutiveUpdate(trs: seq<Sent>, i: nat, x: Sent)
    requires i < |trs| && x.message == trs[i].message && Consecutive(trs)
    ensures Consecutive(trs[i := x])
  {
    var ts := trs[i := x];
    forall j | 0 <= j < |ts| ensures ts[j].message.cseq == FIRST_CSEQ + Count(ts[..j], ts[j].message.callId) {
      if i < j {
        assert ts[..j] == trs[..j][i := x];
        CountUpdate(trs[..j], i, x, ts[j].message.callId);
      } else {
        assert ts[..j] == trs[..j];
      }
    }
  }

  lemma ConsecutiveSnoc(trs: seq<Sent>, x: Sent)
    requires Consecutive(trs) && x.message.cseq == FIRST_CSEQ + Count(trs, x.message.callId)
    ensures Consecutive(trs + [x])
  {
    var ts := trs + [x];
    forall j | 0 <= j < |ts| ensures ts[j].message.cseq == FIRST_CSEQ + Count(ts[..j], ts[j].message.callId) {
      assert j < |trs| ==> ts[..j] == trs[..j];
      assert j == |trs| ==> ts[..j] == trs;
    }
  }

  /** A message that may be sent next: the next one of its Call-ID, of which no draft is left. */
  predicate Ready(w: World, m: Message) {
    && m.callId < w.reg.nextCallId && m.cseq == FIRST_CSEQ + Count(w.reg.trs, m.callId)
    && forall k :: 0 <= k < |w.drafts| ==> w.drafts[k].callId != m.callId
  }

  lemma TransmitKeeps(w: World, m: Message, luck: Luck)
    requires Inv(w) && Ready(w, m) && !Pending(w.reg)
    ensures Inv(w.(reg := Transmit(w.reg, m, luck)))
  {
    hide Count;
    if luck.initOk {
      var x := Sent(m, false, 0, w.reg.now);
      var trs := w.reg.trs + [x];
      ConsecutiveSnoc(w.reg.trs, x);
      forall c: nat ensures Count(trs, c) == Count(w.reg.trs, c) + if m.callId == c then 1 else 0 {
        CountSnoc(w.reg.trs, x, c);
      }
    }
  }

  lemma BuildKeeps(w: World, luck: Luck)
    requires Inv(w)
    ensures var (r, m) := Build(w.reg, luck);
            Inv(w.(reg := r)) && (m.Some? ==> r.last == None && Ready(w.(reg := r), m.value))
  {
    hide Count;
    if w.reg.last.None? { CountFresh(w.reg.trs, w.reg.nextCallId); }
  }

  lemma SendNewKeeps(w: World, luck: Luck)
    requires Inv(w)
    ensures Inv(w.(reg := Send(w.reg, None, luck)))
  {
    BuildKeeps(w, luck);
    var (r, m) := Build(w.reg, luck);
    if m.Some? { TransmitKeeps(w.(reg := r), m.value, luck); }
  }

  lemma DraftOut(w: World, k: nat)
    requires Inv(w) && k < |w.drafts|
    ensures var w' := w.(drafts := w.drafts[..k] + w.drafts[k + 1..]);
            Inv(w') && Ready(w', w.drafts[k])
  {
    hide Count, Consecutive;
  }

  lemma SendDraftKeeps(w: World, k: nat, luck: Luck)
    requires Inv(w) && k < |w.drafts|
    ensures Inv(Next(w, DoSendDraft(k, luck)))
  {
    DraftOut(w, k);
    if !Pending(w.reg) { TransmitKeeps(w.(drafts := w.drafts[..k] + w.drafts[k + 1..]), w.drafts[k], luck); }
  }

  lemma BuildRegisterKeeps(w: World, expires: int, luck: Luck)
    requires Inv(w)
    ensures Inv(Next(w, DoBuild(expires, luck)))
  {
    hide Count, Consecutive;
    var w1 := w.(reg := w.reg.(period := ClampPeriod(expires)));
    BuildKeeps(w1, luck);
  }

  lemma ProgressKeeps(w: World, i: nat, x: Sent, retry: int, resent: int)
    requires Inv(w) && i < |w.reg.trs| && x.message == w.reg.trs[i].message && (w.reg.trs[i].done ==> x.done)
    requires 0 <= resent <= retry <= MAX_RETRY
    ensures Inv(World(w.reg.(trs := w.reg.trs[i := x], retry := retry), w.drafts, resent))
  {
    hide Count;
    ConsecutiveUpdate(w.reg.trs, i, x);
    forall c: nat ensures Count(w.reg.trs[i := x], c) == Count(w.reg.trs, c) {
      CountUpdate(w.reg.trs, i, x, c);
    }
  }

  /** A send adds at most one REGISTER and leaves the counter alone. */
  lemma SendAdds(r: Reg, luck: Luck)
    requires Valid(r)
    ensures |r.trs| <= |Send(r, None, luck).trs| <= |r.trs| + 1 && Send(r, None, luck).retry == r.retry
  {
  }

  lemma RetryKeeps(w: World, luck: Luck)
    requires Inv(w)
    ensures Inv(Next(w, DoRetry(luck)))
  {
    hide Count, Consecutive, Send;
    var r := w.reg.(retry := w.reg.retry + 1);
    if w.reg.retry < MAX_RETRY {
      SendNewKeeps(w.(reg := r), luck);
      SendAdds(r, luck);
    }
  }

  lemma ActionKeeps(w: World, luck: Luck)
    requires Inv(w)
    ensures Inv(Next(w, DoAction(luck)))
  {
    hide Count, Consecutive, Send;
    SendNewKeeps(w, luck);
    SendAdds(w.reg, luck);
  }

  lemma RespondKeeps(w: World, i: nat, code: nat)
    requires Inv(w)
    ensures Inv(Next(w, DoRespond(i, code)))
  {
    hide Count, Consecutive;
    var r := w.reg;
    if i < |r.trs| && !r.trs[i].done && 100 <= code < 700 {
      var x := r.trs[i].(done := code >= 200, code := code);
      if Success(code) && r.last == Some(i) { ProgressKeeps(w, i, x, 0, 0); }
      else { ProgressKeeps(w, i, x, r.retry, w.resent); }
    }
  }

  lemma StepKeeps(w: World, e: Step)
    requires Inv(w)
    ensures Inv(Next(w, e))
  {
    hide Count, Consecutive, Build, Transmit, Send;
    var r := w.reg;
    match e
    case Tick(n) =>
    case DoBuild(expires, luck) => BuildRegisterKeeps(w, expires, luck);
    case DoSendDraft(k, luck) => if k < |w.drafts| { SendDraftKeeps(w, k, luck); }
    case DoDropDraft(k) => if k < |w.drafts| { DraftOut(w, k); }
    case DoSendNew(luck) => SendNewKeeps(w, luck);
    case DoRemove =>
    case DoRetry(luck) => RetryKeeps(w, luck);
    case DoRefresh(luck) => SendNewKeeps(w, luck);
    case DoAction(luck) => ActionKeeps(w, luck);
    case DoRespond(i, code) => RespondKeeps(w, i, code);
    case DoExpire(i) =>
      if i < |r.trs| { ProgressKeeps(w, i, r.trs[i].(done := true), r.retry, w.resent); }
  }

  lemma RunKeeps(w: World, es: seq<Step>)
    requires Inv(w)
    ensures Inv(Run(w, es))
    decreases |es|
  {
    hide Next;
    if es != [] {
      StepKeeps(w, es[0]);
      RunKeeps(Next(w, es[0]), es[1..]);
    }
  }

  lemma StartKeeps(expires: int, now: int, luck: Luck)
    ensures Inv(Start(expires, now, luck))
  {
    var w := World(Reg([], None, [], 0, expires, 0, now), [], 0);
    BuildKeeps(w, luck);
  }

  // ---------------------------------------------------------------- theorems

  /** At most one REGISTER is unfinished, and it is r_last_tr. */
  lemma OneUnfinished(expires: int, now: int, luck: Luck, es: seq<Step>, i: nat)
    requires var r := Run(Start(expires, now, luck), es).reg; i < |r.trs| && !r.trs[i].done
    ensures Run(Start(expires, now, luck), es).reg.last == Some(i)
  {
    StartKeeps(expires, now, luck);
    RunKeeps(Start(expires, now, luck), es);
  }

  /** The k-th REGISTER sent with a Call-ID has CSeq k. */
  lemma CSeqsConsecutive(expires: int, now: int, luck: Luck, es: seq<Step>, i: nat)
    requires i < |Run(Start(expires, now, luck), es).reg.trs|
    ensures var trs := Run(Start(expires, now, luck), es).reg.trs;
            trs[i].message.cseq == FIRST_CSEQ + Count(trs[..i], trs[i].message.callId)
  {
    StartKeeps(expires, now, luck);
    RunKeeps(Start(expires, now, luck), es);
  }

  /** So no Call-ID and CSeq are sent together twice. */
  lemma CSeqsNotRepeated(expires: int, now: int, luck: Luck, es: seq<Step>, i: nat, j: nat)
    requires i < j < |Run(Start(expires, now, luck), es).reg.trs|
    ensures var trs := Run(Start(expires, now, luck), es).reg.trs;
            trs[i].message.callId == trs[j].message.callId ==> trs[i].message.cseq < trs[j].message.cseq
  {
    hide Run;
    CSeqsConsecutive(expires, now, luck, es, i);
    CSeqsConsecutive(expires, now, luck, es, j);
    var trs := Run(Start(expires, now, luck), es).reg.trs;
    CountSplit(trs[..j], i, trs[i].message.callId);
    assert trs[..j][..i] == trs[..i];
  }

  /** The retry counter stays in 0..3, and so does the number of retries since the last 2xx. */
  lemma RegisterRetriesBounded(expires: int, now: int, luck: Luck, es: seq<Step>)
    ensures var w := Run(Start(expires, now, luck), es);
            0 <= w.reg.retry <= MAX_RETRY && 0 <= w.resent <= w.reg.retry
  {
    StartKeeps(expires, now, luck);
    RunKeeps(Start(expires, now, luck), es);
  }

  lemma LastOccurrence(trs: seq<Sent>, c: nat) returns (j: nat)
    requires Count(trs, c) > 0
    ensures j < |trs| && trs[j].message.callId == c && Count(trs[..j], c) == Count(trs, c) - 1
  {
    var n := |trs| - 1;
    if trs[n].message.callId == c { j := n; }
    else {
      j := LastOccurrence(trs[..n], c);
      assert trs[..n][..j] == trs[..j];
    }
  }

  /** Every REGISTER that is not the first of its Call-ID was preceded by one with the same
      Call-ID and the CSeq before, which is over. */
  lemma DerivedFromFinished(expires: int, now: int, luck: Luck, es: seq<Step>, i: nat)
    requires var trs := Run(Start(expires, now, luck), es).reg.trs;
             i < |trs| && trs[i].message.cseq != FIRST_CSEQ
    ensures var trs := Run(Start(expires, now, luck), es).reg.trs;
            exists j :: 0 <= j < i && trs[j].done && trs[j].message.callId == trs[i].message.callId
                        && trs[j].message.cseq + 1 == trs[i].message.cseq
  {
    hide Run, Start;
    StartKeeps(expires, now, luck);
    RunKeeps(Start(expires, now, luck), es);
    var r := Run(Start(expires, now, luck), es).reg;
    var c := r.trs[i].message.callId;
    var j := LastOccurrence(r.trs[..i], c);
    assert r.trs[..i][..j] == r.trs[..j] && r.trs[..i][j] == r.trs[j];
    CountSplit(r.trs, i, c);
  }

  // ---------------------------------------------------------------- the refresh bound

  /** A registered client left alone: time passes, the REGISTER is answered, and the refresh is
      polled.  `polled` is the time of the last poll. */
  datatype Timed = Timed(reg: Reg, polled: int)

  datatype TimedStep = Second | Answer(code: nat) | Poll

  const GOOD := Luck(true, true, true)

  /** A second may pass unless the answer is due (120 s) or a poll is (`gap` s). */
  predicate Allowed(t: Timed, e: TimedStep, gap: int)
    requires Valid(t.reg) && t.reg.last.Some?
  {
    var tr := t.reg.trs[t.reg.last.value];
    match e
    case Second => t.reg.now + 1 - t.polled <= gap && (!tr.done ==> t.reg.now + 1 - tr.birth <= 120)
    case Answer(code) => !tr.done && Success(code)
    case Poll => true
  }

  function TimedNext(t: Timed, e: TimedStep): Timed
    requires Valid(t.reg) && t.reg.last.Some?
  {
    match e
    case Second => t.(reg := t.reg.(now := t.reg.now + 1))
    case Answer(code) => t.(reg := Respond(t.reg, t.reg.last.value, code))
    case Poll => Timed(AutomaticRefresh(t.reg, GOOD), t.reg.now)
  }

  predicate TimedStepOk(t: Timed, e: TimedStep, t': Timed, gap: int) {
    Valid(t.reg) && t.reg.last.Some? ==> Allowed(t, e, gap) && t' == TimedNext(t, e)
  }

  /** The states of a run in which the environment keeps its promises. */
  ghost predicate TimedRun(ts: seq<Timed>, es: seq<TimedStep>, gap: int) {
    |ts| == |es| + 1 && forall i :: 0 <= i < |es| ==> TimedStepOk(ts[i], es[i], ts[i + 1], gap)
  }

  function Age(r: Reg): int
    requires Valid(r) && r.last.Some?
  {
    r.now - r.trs[r.last.value].birth
  }

  /** The REGISTER asked for the period, was young enough at the last poll, and its answer is a
      2xx or not due. */
  predicate Fresh(t: Timed) {
    && Valid(t.reg) && t.reg.last.Some?
    && 200 <= t.reg.period <= 3600
    && var tr := t.reg.trs[t.reg.last.value];
       && t.polled <= t.reg.now <= t.polled + 59
       && tr.message.expires == t.reg.period
       && t.polled - tr.birth <= t.reg.period - 60 && t.polled - tr.birth <= 900
       && tr.birth <= t.reg.now
       && (if tr.done then Success(tr.code) else !Success(tr.code) && t.reg.now - tr.birth <= 120)
  }

  lemma FreshStep(t: Timed, e: TimedStep)
    requires Fresh(t) && Allowed(t, e, 59)
    ensures Fresh(TimedNext(t, e)) && Age(TimedNext(t, e).reg) < t.reg.period && TimedNext(t, e).reg.period == t.reg.period
    ensures |TimedNext(t, e).reg.trs| > |t.reg.trs| ==> Age(t.reg) < t.reg.period
  {
  }

  /** Polled at least every 59 s and answered 2xx within 120 s, the registration is never as
      old as its period, nor older than 959 s: each refresh goes out before the previous REGISTER
      expires, and asks for the same period. */
  lemma {:induction false} NeverLapses(ts: seq<Timed>, es: seq<TimedStep>, i: nat)
    requires TimedRun(ts, es, 59) && Fresh(ts[0]) && i < |ts|
    ensures Fresh(ts[i]) && ts[i].reg.period == ts[0].reg.period
    ensures Age(ts[i].reg) < ts[0].reg.period && Age(ts[i].reg) <= 959
    ensures ts[i].reg.trs[ts[i].reg.last.value].message.expires == ts[0].reg.period
  {
    if i > 0 {
      NeverLapses(ts, es, i - 1);
      assert TimedStepOk(ts[i - 1], es[i - 1], ts[i - 1 + 1], 59);
      FreshStep(ts[i - 1], es[i - 1]);
    }
  }

  /** The bound is sharp: with polls 60 s apart a registration of 200 s reaches its period. */
  lemma LapsesAtSixty(callId: nat, cseq: int)
    ensures exists ts, es :: TimedRun(ts, es, 60) && Fresh(ts[0]) && Lapsed(ts)
  {
    var r := Reg([Sent(Message(callId, cseq, 200), true, 200, 0)], Some(0), [], 1, 200, 0, 140);
    var ts := seq(61, i => Timed(r.(now := 140 + i), 140));
    var es := seq(60, _ => Second);
    assert TimedRun(ts, es, 60);
    assert Lapsed(ts);
  }

  ghost predicate Lapsed(ts: seq<Timed>) {
    ts != [] && var r := ts[|ts| - 1].reg; Valid(r) && r.last.Some? && Age(r) >= r.period
  }
}
