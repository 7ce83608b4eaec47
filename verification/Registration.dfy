/** One registration (eXosip_reg_t): the REGISTERs built and sent for it, its retry counter
    and its automatic refresh. */
module Registration {
  import opened Wrappers

  /** A REGISTER request. */
  datatype Message = Message(callId: nat, cseq: int, expires: int)

  /** A REGISTER that was sent: `done` once its transaction is completed or terminated, `code`
      the status of the last response (0 when there is none). */
  datatype Sent = Sent(message: Message, done: bool, code: nat, birth: int)

  /** `trs` holds every REGISTER sent for the registration, oldest first; `last` is r_last_tr,
      `garbage` what was moved to j_transactions. */
  datatype Reg = Reg(
    trs: seq<Sent>, last: Option<nat>, garbage: seq<nat>, nextCallId: nat, period: int, retry: int, now: int)

  /** What can go wrong outside: updating the Via, generating a request, opening a transaction. */
  datatype Luck = Luck(viaOk: bool, generateOk: bool, initOk: bool)

  const FIRST_CSEQ := 1
  const MAX_RETRY := 3

  predicate Valid(r: Reg) {
    r.last.Some? ==> r.last.value < |r.trs|
  }

  predicate Pending(r: Reg)
    requires Valid(r)
  {
    r.last.Some? && !r.trs[r.last.value].done
  }

  /** _eXosip_register_build_register: derived from the last REGISTER when that is over, which
      costs the registration its link to it; a fresh one when there is none. */
  function Build(r: Reg, luck: Luck): (Reg, Option<Message>)
    requires Valid(r)
  {
    match r.last
    case Some(i) =>
      if !r.trs[i].done then (r, None)
      else
        var m := r.trs[i].message;
        (r.(last := None, garbage := [i] + r.garbage),
         if luck.viaOk then Some(Message(m.callId, m.cseq + 1, r.period)) else None)
    case None =>
      if luck.generateOk
      then (r.(nextCallId := r.nextCallId + 1), Some(Message(r.nextCallId, FIRST_CSEQ, r.period)))
      else (r, None)
  }

  function ClampPeriod(expires: int): int {
    if expires == 0 then 0 else if expires > 3600 then 3600 else if expires < 200 then 200 else expires
  }

  /** eXosip_register_build_initial_register, for a registration that does not exist yet */
  function BuildInitial(expires: int, now: int, luck: Luck): (Reg, Option<Message>) {
    Build(Reg([], None, [], 0, expires, 0, now), luck)
  }

  /** eXosip_register_build_register */
  function BuildRegister(r: Reg, expires: int, luck: Luck): (Reg, Option<Message>)
    requires Valid(r)
  {
    var r1 := r.(period := ClampPeriod(expires));
    if Pending(r1) then (r1, None) else Build(r1, luck)
  }

  /** osip_transaction_init and the send itself */
  function Transmit(r: Reg, m: Message, luck: Luck): Reg {
    if luck.initOk then r.(trs := r.trs + [Sent(m, false, 0, r.now)], last := Some(|r.trs|)) else r
  }

  /** eXosip_register_send_register: the application's message, or one built on the spot. */
  function Send(r: Reg, draft: Option<Message>, luck: Luck): Reg
    requires Valid(r)
  {
    if Pending(r) then r
    else match draft
      case Some(m) => Transmit(r, m, luck)
      case None =>
        match Build(r, luck)
        case (r1, None) => r1
        case (r1, Some(m)) => Transmit(r1, m, luck)
  }

  /** eXosip_register_remove */
  function Remove(r: Reg): Reg {
    r.(period := 0)
  }

  /** _eXosip_retry_register_with_auth */
  function RetryWithAuth(r: Reg, luck: Luck): Reg
    requires Valid(r)
  {
    if r.retry < MAX_RETRY then Send(r.(retry := r.retry + 1), None, luck) else r
  }

  predicate Success(code: nat) {
    200 <= code < 300
  }

  /** The three timers that eXosip_automatic_refresh and eXosip_automatic_action share. */
  predicate RefreshDue(r: Reg)
    requires Valid(r)
  {
    r.last.Some? && r.period != 0 &&
    var tr := r.trs[r.last.value];
    r.now - tr.birth > 900 || r.now - tr.birth > r.period - 60 || (r.now - tr.birth > 120 && !Success(tr.code))
  }

  /** eXosip_automatic_refresh, for the registration */
  function AutomaticRefresh(r: Reg, luck: Luck): Reg
    requires Valid(r)
  {
    if RefreshDue(r) then Send(r, None, luck) else r
  }

  /** eXosip_automatic_action, for the registration */
  function AutomaticAction(r: Reg, luck: Luck): Reg
    requires Valid(r)
  {
    if RefreshDue(r) then Send(r, None, luck)
    else if r.last.Some? && r.now - r.trs[r.last.value].birth < 120
            && (r.trs[r.last.value].code == 401 || r.trs[r.last.value].code == 407) && r.retry < MAX_RETRY
    then Send(r, None, luck).(retry := r.retry + 1)
    else r
  }

  /** A response reaches REGISTER number `i`; cb_rcv2xx resets the counter only for r_last_tr. */
  function Respond(r: Reg, i: nat, code: nat): Reg {
    if i >= |r.trs| || r.trs[i].done || !(100 <= code < 700) then r
    else
      var r1 := r.(trs := r.trs[i := r.trs[i].(done := code >= 200, code := code)]);
      if Success(code) && r.last == Some(i) then r1.(retry := 0) else r1
  }

  /** The transaction of REGISTER number `i` ends, answered or not. */
  function Expire(r: Reg, i: nat): Reg {
    if i >= |r.trs| then r else r.(trs := r.trs[i := r.trs[i].(done := true)])
  }

  // ---------------------------------------------------------------- runs

  /** `drafts` are the messages the application has built and not yet sent; `resent` counts the
      credential retries since the last 2xx for the current REGISTER. */
  datatype World = World(reg: Reg, drafts: seq<Message>, resent: int)

  datatype Step =
    | Tick(seconds: nat)
    | DoBuild(expires: int, luck: Luck)
    | DoSendDraft(k: nat, luck: Luck)
    | DoDropDraft(k: nat)
    | DoSendNew(luck: Luck)
    | DoRemove
    | DoRetry(luck: Luck)
    | DoRefresh(luck: Luck)
    | DoAction(luck: Luck)
    | DoRespond(i: nat, code: nat)
    | DoExpire(i: nat)

  function Keep(drafts: seq<Message>, m: Option<Message>): seq<Message> {
    if m.Some? then drafts + [m.value] else drafts
  }

  function Next(w: World, e: Step): (w': World)
    requires Valid(w.reg)
    ensures Valid(w'.reg)
  {
    var r := w.reg;
    match e
    case Tick(n) => w.(reg := r.(now := r.now + n))
    case DoBuild(expires, luck) =>
      var (r1, m) := BuildRegister(r, expires, luck);
      w.(reg := r1, drafts := Keep(w.drafts, m))
    case DoSendDraft(k, luck) =>
      if k < |w.drafts|
      then w.(reg := Send(r, Some(w.drafts[k]), luck), drafts := w.drafts[..k] + w.drafts[k + 1..])
      else w
    case DoDropDraft(k) => if k < |w.drafts| then w.(drafts := w.drafts[..k] + w.drafts[k + 1..]) else w
    case DoSendNew(luck) => w.(reg := Send(r, None, luck))
    case DoRemove => w.(reg := Remove(r))
    case DoRetry(luck) =>
      w.(reg := RetryWithAuth(r, luck),
         resent := w.resent + |RetryWithAuth(r, luck).trs| - |r.trs|)
    case DoRefresh(luck) => w.(reg := AutomaticRefresh(r, luck))
    case DoAction(luck) =>
      w.(reg := AutomaticAction(r, luck),
         resent := if RefreshDue(r) then w.resent else w.resent + |AutomaticAction(r, luck).trs| - |r.trs|)
    case DoRespond(i, code) =>
      w.(reg := Respond(r, i, code),
         resent := if i < |r.trs| && !r.trs[i].done && Success(code) && r.last == Some(i) then 0 else w.resent)
    case DoExpire(i) => w.(reg := Expire(r, i))
  }

  function Start(expires: int, now: int, luck: Luck): World {
    var (r, m) := BuildInitial(expires, now, luck);
    World(r, Keep([], m), 0)
  }

  function Run(w: World, es: seq<Step>): (w': World)
    requires Valid(w.reg)
    ensures Valid(w'.reg)
    decreases |es|
  {
    if es == [] then w else Run(Next(w, es[0]), es[1..])
  }
}
