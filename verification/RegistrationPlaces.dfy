/** Where the REGISTERs of a registration are kept, and how they and the retry counter progress. */
module RegistrationPlaces {
  import opened Wrappers
  import opened Registration
  import opened RegistrationTheorems
  import opened RegistrationPeriods

  // ---------------------------------------------------------------- progress

  /** A REGISTER changes only by a response to it while it is unfinished, which is recorded and
      ends it when final, and by its end. */
  lemma StepProgress(w: World, e: Step, i: nat)
    requires Valid(w.reg) && i < |w.reg.trs|
    ensures var trs, trs' := w.reg.trs, Next(w, e).reg.trs;
            && i < |trs'| && trs'[i].birth == trs[i].birth
            && var responds := e.DoRespond? && e.i == i && !trs[i].done && 100 <= e.code <= 699;
               && trs'[i].code == (if responds then e.code else trs[i].code)
               && (trs'[i].done <==> trs[i].done || (responds && e.code >= 200) || (e.DoExpire? && e.i == i))
  {
    hide Build;
    match e
    case DoSendDraft(k, luck) => if k < |w.drafts| { SendKeepsOld(w.reg, Some(w.drafts[k]), luck, i); }
    case DoSendNew(luck) => SendKeepsOld(w.reg, None, luck, i);
    case DoRetry(luck) => SendKeepsOld(w.reg.(retry := w.reg.retry + 1), None, luck, i);
    case DoRefresh(luck) => SendKeepsOld(w.reg, None, luck, i);
    case DoAction(luck) => SendKeepsOld(w.reg, None, luck, i);
    case DoBuild(expires, luck) => BuildKeepsOld(w.reg.(period := ClampPeriod(expires)), luck);
    case _ =>
  }

  lemma BuildKeepsOld(r: Reg, luck: Luck)
    requires Valid(r)
    ensures Build(r, luck).0.trs == r.trs
  {
  }

  lemma SendKeepsOld(r: Reg, m: Option<Message>, luck: Luck, i: nat)
    requires Valid(r) && i < |r.trs|
    ensures i < |Send(r, m, luck).trs| && Send(r, m, luck).trs[i] == r.trs[i]
  {
  }

  /** A retry by credentials costs one of three, whether or not it can be sent; a 2xx to r_last_tr
      gives them all back; nothing else touches the counter. */
  lemma StepRetry(w: World, e: Step)
    requires Valid(w.reg)
    ensures var r := w.reg;
            Next(w, e).reg.retry ==
              if e.DoRetry? && r.retry < 3 then r.retry + 1
              else if e.DoAction? && !TimerUp(r) && ChallengedLately(r) && r.retry < 3 then r.retry + 1
              else if e.DoRespond? && r.last == Some(e.i) && !r.trs[e.i].done && 200 <= e.code <= 299 then 0
              else r.retry
  {
    hide Send;
    match e
    case DoSendDraft(k, luck) => if k < |w.drafts| { SendKeepsRetry(w.reg, Some(w.drafts[k]), luck); }
    case DoSendNew(luck) => SendKeepsRetry(w.reg, None, luck);
    case DoRetry(luck) => SendKeepsRetry(w.reg.(retry := w.reg.retry + 1), None, luck);
    case DoRefresh(luck) => SendKeepsRetry(w.reg, None, luck);
    case DoAction(luck) => SendKeepsRetry(w.reg, None, luck);
    case _ =>
  }

  lemma SendKeepsRetry(r: Reg, m: Option<Message>, luck: Luck)
    requires Valid(r)
    ensures Send(r, m, luck).retry == r.retry
  {
  }

  // ---------------------------------------------------------------- places

  function Bit(b: bool): nat { if b then 1 else 0 }

  /** How often REGISTER number `i` is kept, as r_last_tr or in j_transactions. */
  function Kept(r: Reg, i: nat): nat {
    multiset(r.garbage)[i] + Bit(r.last == Some(i))
  }

  ghost predicate KeptAtMostOnce(r: Reg) {
    forall i: nat :: Kept(r, i) <= Bit(i < |r.trs|)
  }

  ghost predicate AllKept(r: Reg) {
    forall i: nat :: Kept(r, i) == Bit(i < |r.trs|)
  }

  /** A draft is sent while a finished REGISTER is still r_last_tr. */
  predicate Overwrites(w: World, e: Step)
    requires Valid(w.reg)
  {
    e.DoSendDraft? && e.k < |w.drafts| && e.luck.initOk && w.reg.last.Some? && !Pending(w.reg)
  }

  lemma GarbageCons(r: Reg, r': Reg, i: nat)
    requires r'.garbage == [i] + r.garbage
    ensures forall x: nat :: multiset(r'.garbage)[x] == multiset(r.garbage)[x] + Bit(x == i)
  {
    assert multiset(r'.garbage) == multiset{i} + multiset(r.garbage);
  }

  lemma BuildKeepsPlaces(r: Reg, luck: Luck)
    requires Valid(r) && KeptAtMostOnce(r)
    ensures var r' := Build(r, luck).0;
            && KeptAtMostOnce(r') && (AllKept(r') <==> AllKept(r)) && r'.trs == r.trs
            && (Build(r, luck).1.Some? ==> r'.last.None?)
  {
    var r' := Build(r, luck).0;
    if r.last.Some? && r.trs[r.last.value].done { GarbageCons(r, r', r.last.value); }
    assert forall i: nat :: Kept(r', i) == Kept(r, i);
  }

  lemma TransmitPlaces(r: Reg, m: Message, luck: Luck)
    requires Valid(r) && KeptAtMostOnce(r)
    ensures var r' := Transmit(r, m, luck);
            && KeptAtMostOnce(r')
            && (AllKept(r') <==> AllKept(r) && !(luck.initOk && r.last.Some?))
  {
    var r' := Transmit(r, m, luck);
    if luck.initOk {
      forall i: nat ensures Kept(r', i) == Kept(r, i) - Bit(r.last == Some(i)) + Bit(i == |r.trs|) {
      }
      assert Kept(r, |r.trs|) == 0;
      if r.last.Some? { assert Kept(r', r.last.value) == 0; }
      else {
        if AllKept(r') { assert forall i: nat :: Kept(r, i) == Kept(r', i) - Bit(i == |r.trs|); }
      }
    }
  }

  lemma SendNewPlaces(r: Reg, luck: Luck)
    requires Valid(r) && KeptAtMostOnce(r)
    ensures KeptAtMostOnce(Send(r, None, luck)) && (AllKept(Send(r, None, luck)) <==> AllKept(r))
  {
    hide KeptAtMostOnce, AllKept, Transmit;
    BuildKeepsPlaces(r, luck);
    var (r', m) := Build(r, luck);
    if m.Some? { TransmitPlaces(r', m.value, luck); }
  }

  lemma SamePlaces(r: Reg, r': Reg)
    requires r'.garbage == r.garbage && r'.last == r.last && |r'.trs| == |r.trs|
    ensures KeptAtMostOnce(r) ==> KeptAtMostOnce(r')
    ensures AllKept(r') <==> AllKept(r)
  {
    assert forall i: nat :: Kept(r', i) == Kept(r, i);
  }

  lemma PlacesStep(w: World, e: Step)
    requires Valid(w.reg) && KeptAtMostOnce(w.reg)
    ensures KeptAtMostOnce(Next(w, e).reg)
    ensures AllKept(Next(w, e).reg) <==> AllKept(w.reg) && !Overwrites(w, e)
  {
    hide KeptAtMostOnce, AllKept, Build, Send;
    var r, r' := w.reg, Next(w, e).reg;
    match e
    case DoBuild(expires, luck) =>
      var r1 := r.(period := ClampPeriod(expires));
      SamePlaces(r, r1);
      BuildKeepsPlaces(r1, luck);
    case DoSendDraft(k, luck) => if k < |w.drafts| { DraftPlaces(r, w.drafts[k], luck); }
    case DoSendNew(luck) => SendNewPlaces(r, luck);
    case DoRetry(luck) =>
      var r1 := r.(retry := r.retry + 1);
      SamePlaces(r, r1);
      SendNewPlaces(r1, luck);
    case DoRefresh(luck) => SendNewPlaces(r, luck);
    case DoAction(luck) =>
      SendNewPlaces(r, luck);
      SamePlaces(Send(r, None, luck), Send(r, None, luck).(retry := r.retry + 1));
    case _ => SamePlaces(r, r');
  }

  lemma DraftPlaces(r: Reg, m: Message, luck: Luck)
    requires Valid(r) && KeptAtMostOnce(r)
    ensures KeptAtMostOnce(Send(r, Some(m), luck))
    ensures AllKept(Send(r, Some(m), luck)) <==> AllKept(r) && (luck.initOk ==> r.last.None? || Pending(r))
  {
    hide KeptAtMostOnce, AllKept;
    TransmitPlaces(r, m, luck);
  }

  lemma StartPlaces(expires: int, now: int, luck: Luck)
    ensures var r := Start(expires, now, luck).reg; Valid(r) && KeptAtMostOnce(r) && AllKept(r)
  {
  }

  ghost predicate NothingOverwritten(start: World, es: seq<Step>)
    requires Valid(start.reg)
  {
    forall x :: 0 <= x < |es| ==> !Overwrites(Run(start, es[..x]), es[x])
  }

  lemma {:induction false} PlacesRun(start: World, es: seq<Step>)
    requires Valid(start.reg) && KeptAtMostOnce(start.reg) && AllKept(start.reg)
    ensures KeptAtMostOnce(Run(start, es).reg)
    ensures AllKept(Run(start, es).reg) <==> NothingOverwritten(start, es)
    decreases |es|
  {
    hide Next, KeptAtMostOnce, AllKept, Overwrites;
    if es != [] {
      var n := |es| - 1;
      PlacesRun(start, es[..n]);
      assert es == es[..n] + [es[n]];
      RunSnoc(start, es[..n], es[n]);
      PlacesStep(Run(start, es[..n]), es[n]);
      assert forall x :: 0 <= x < n ==> es[..n][..x] == es[..x] && es[..n][x] == es[x];
    }
  }

  /** After any run each REGISTER ever sent is kept in one place, r_last_tr or j_transactions, if and
      only if no draft was sent while a finished REGISTER was still r_last_tr. */
  lemma RegistersConserved(expires: int, now: int, luck: Luck, es: seq<Step>)
    ensures var start := Start(expires, now, luck);
            AllKept(Run(start, es).reg) <==> NothingOverwritten(start, es)
  {
    hide Run, Start, KeptAtMostOnce, AllKept, NothingOverwritten;
    StartPlaces(expires, now, luck);
    PlacesRun(Start(expires, now, luck), es);
  }

  /** A draft is built, another REGISTER is sent and answered, then the draft is sent: the answered
      one is kept nowhere. */
  lemma DraftOverwrites(now: int)
    ensures var es := [DoSendNew(GOOD), DoRespond(0, 200), DoSendDraft(0, GOOD)];
            var r := Run(Start(3600, now, GOOD), es).reg;
            |r.trs| == 2 && Kept(r, 0) == 0 && Kept(r, 1) == 1
  {
    hide Run;
    var es := [DoSendNew(GOOD), DoRespond(0, 200), DoSendDraft(0, GOOD)];
    var w := Start(3600, now, GOOD);
    var m, m' := Message(0, 1, 3600), Message(1, 1, 3600);
    assert [] + [m] == [m];
    assert w == World(Reg([], None, [], 1, 3600, 0, now), [m], 0);
    var w1 := World(Reg([Sent(m', false, 0, now)], Some(0), [], 2, 3600, 0, now), [m], 0);
    assert [] + [Sent(m', false, 0, now)] == [Sent(m', false, 0, now)];
    assert Next(w, es[0]) == w1;
    var w2 := World(Reg([Sent(m', true, 200, now)], Some(0), [], 2, 3600, 0, now), [m], 0);
    assert w1.reg.trs[0 := Sent(m', true, 200, now)] == w2.reg.trs;
    assert Next(w1, es[1]) == w2;
    var w3 := Next(w2, es[2]);
    assert w3.reg.garbage == [] && w3.reg.last == Some(1) && |w3.reg.trs| == 2;
    assert es == [es[0], es[1]] + [es[2]] && [es[0], es[1]] == [es[0]] + [es[1]] && [es[0]] == [] + [es[0]];
    RunNone(w);
    RunSnoc(w, [], es[0]);
    RunSnoc(w, [es[0]], es[1]);
    RunSnoc(w, [es[0], es[1]], es[2]);
  }
}
