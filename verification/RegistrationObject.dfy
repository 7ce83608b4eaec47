/** The registration as the library runs it: one record, updated in place. */
module RegistrationObject {
  import opened Wrappers
  import opened Registration
  import opened RegistrationTheorems

  class Registrar {
    var trs: seq<Sent>
    var last: Option<nat>
    var garbage: seq<nat>
    var nextCallId: nat
    var period: int
    var retry: int
    var now: int

    function View(): Reg
      reads this
    {
      Reg(trs, last, garbage, nextCallId, period, retry, now)
    }

    constructor (expires: int, now: int)
      ensures View() == Reg([], None, [], 0, expires, 0, now)
    {
      trs, last, garbage, nextCallId, period, retry := [], None, [], 0, expires, 0;
      this.now := now;
    }

    method Make(luck: Luck) returns (code: int, m: Option<Message>)
      requires Valid(View())
      modifies this`last, this`garbage, this`nextCallId
      ensures Valid(View()) && (View(), m) == Build(old(View()), luck)
      ensures code == 0 <==> m.Some?
    {
      m := None;
      if last.Some? {
        var tr := trs[last.value];
        if !tr.done { return -1, None; }
        garbage := [last.value] + garbage;
        last := None;
        if !luck.viaOk { return -1, None; }
        m := Some(Message(tr.message.callId, tr.message.cseq + 1, period));
      }
      if m.None? {
        if !luck.generateOk { return -2, None; }
        m := Some(Message(nextCallId, FIRST_CSEQ, period));
        nextCallId := nextCallId + 1;
      }
      code := 0;
    }

    method BuildNext(expires: int, luck: Luck) returns (code: int, m: Option<Message>)
      requires Valid(View())
      modifies this`last, this`garbage, this`nextCallId, this`period
      ensures Valid(View()) && (View(), m) == BuildRegister(old(View()), expires, luck)
      ensures code == 0 <==> m.Some?
    {
      period := expires;
      if period == 0 {
      } else if period > 3600 {
        period := 3600;
      } else if period < 200 {
        period := 200;
      }
      if last.Some? && !trs[last.value].done { return -1, None; }
      code, m := Make(luck);
    }

    method SendRegister(draft: Option<Message>, luck: Luck) returns (code: int)
      requires Valid(View())
      modifies this`trs, this`last, this`garbage, this`nextCallId
      ensures Valid(View()) && View() == Send(old(View()), draft, luck)
      ensures code == 0 <==> |trs| == |old(trs)| + 1
    {
      if last.Some? && !trs[last.value].done { return -1; }
      var m := draft;
      if m.None? {
        code, m := Make(luck);
        if code != 0 { return; }
      }
      if !luck.initOk { return -2; }
      trs, last := trs + [Sent(m.value, false, 0, now)], Some(|trs|);
      code := 0;
    }

    method RetryCredentials(luck: Luck) returns (code: int)
      requires Valid(View())
      modifies this
      ensures Valid(View()) && View() == RetryWithAuth(old(View()), luck)
    {
      if retry < MAX_RETRY {
        retry := retry + 1;
        code := SendRegister(None, luck);
      } else {
        code := -1;
      }
    }

    method ActAutomatically(luck: Luck)
      requires Valid(View())
      modifies this
      ensures Valid(View()) && View() == AutomaticAction(old(View()), luck)
    {
      if last.Some? {
        var tr := trs[last.value];
        if (period != 0 && now - tr.birth > 900) || (period != 0 && now - tr.birth > period - 60)
           || (period != 0 && now - tr.birth > 120 && !Success(tr.code)) {
          var code := SendRegister(None, luck);
        } else if now - tr.birth < 120 && (tr.code == 401 || tr.code == 407) {
          if retry < MAX_RETRY {
            var code := SendRegister(None, luck);
            retry := retry + 1;
          }
        }
      }
    }

    /** eXosip_automatic_refresh, for the registration */
    method RefreshAutomatically(luck: Luck)
      requires Valid(View())
      modifies this
      ensures Valid(View()) && View() == AutomaticRefresh(old(View()), luck)
    {
      if last.Some? && period != 0 {
        var tr := trs[last.value];
        if now - tr.birth > 900 || now - tr.birth > period - 60 || (now - tr.birth > 120 && !Success(tr.code)) {
          var code := SendRegister(None, luck);
        }
      }
    }

    /** A response or a timeout reaches REGISTER number `i`. */
    method Progress(i: nat, code: nat, timeout: bool)
      requires Valid(View())
      modifies this
      ensures Valid(View()) && View() == if timeout then Expire(old(View()), i) else Respond(old(View()), i, code)
    {
      if i >= |trs| { return; }
      if timeout {
        trs := trs[i := trs[i].(done := true)];
      } else if !trs[i].done && 100 <= code < 700 {
        trs := trs[i := trs[i].(done := code >= 200, code := code)];
        if Success(code) && last == Some(i) { retry := 0; }
      }
    }

    /** One step of a run; the application keeps `drafts`. */
    method Handle(drafts: seq<Message>, e: Step) returns (left: seq<Message>)
      requires Valid(View())
      modifies this
      ensures Valid(View())
      ensures forall resent :: var w := Next(World(old(View()), drafts, resent), e); View() == w.reg && left == w.drafts
    {
      left := drafts;
      match e
      case Tick(n) => now := now + n;
      case DoBuild(expires, luck) =>
        var code, m := BuildNext(expires, luck);
        if m.Some? { left := drafts + [m.value]; }
      case DoSendDraft(k, luck) =>
        if k < |drafts| {
          var code := SendRegister(Some(drafts[k]), luck);
          left := drafts[..k] + drafts[k + 1..];
        }
      case DoDropDraft(k) => if k < |drafts| { left := drafts[..k] + drafts[k + 1..]; }
      case DoSendNew(luck) => var code := SendRegister(None, luck);
      case DoRemove => period := 0;
      case DoRetry(luck) => var code := RetryCredentials(luck);
      case DoRefresh(luck) => RefreshAutomatically(luck);
      case DoAction(luck) => ActAutomatically(luck);
      case DoRespond(i, code) => Progress(i, code, false);
      case DoExpire(i) => Progress(i, 0, true);
    }
  }

  /** Any run on a new registration: at most one REGISTER is unfinished, and it is the last one;
      those of a Call-ID carry the CSeqs 1, 2, 3, ... in the order they are sent; the retry
      counter stays in 0..3. */
  method RunAll(expires: int, now: int, luck: Luck, es: seq<Step>) returns (r: Registrar, drafts: seq<Message>)
    ensures fresh(r) && r.View() == Run(Start(expires, now, luck), es).reg && drafts == Run(Start(expires, now, luck), es).drafts
    ensures forall i :: 0 <= i < |r.trs| && !r.trs[i].done ==> r.last == Some(i)
    ensures forall i :: 0 <= i < |r.trs| ==>
              r.trs[i].message.cseq == FIRST_CSEQ + Count(r.trs[..i], r.trs[i].message.callId)
    ensures 0 <= r.retry <= MAX_RETRY
  {
    hide Next;
    r := new Registrar(expires, now);
    var code, m := r.Make(luck);
    drafts := if m.Some? then [m.value] else [];
    ghost var w := Start(expires, now, luck);
    assert [] + drafts == drafts;
    var n := 0;
    while n < |es|
      invariant 0 <= n <= |es| && fresh(r) && Valid(w.reg)
      invariant Run(Start(expires, now, luck), es) == Run(w, es[n..])
      invariant r.View() == w.reg && drafts == w.drafts
    {
      assert es[n..][0] == es[n] && es[n..][1..] == es[n + 1..];
      drafts := r.Handle(drafts, es[n]);
      w := Next(w, es[n]);
      n := n + 1;
    }
    assert es[n..] == [];
    StartKeeps(expires, now, luck);
    RunKeeps(Start(expires, now, luck), es);
  }
}
