/** The eXosip context store as a state machine: calls, outgoing subscriptions, incoming
    subscriptions and publications, the dialogs of the first three, and the transactions
    all of them own.  Every function here is one operation or one callback of the library;
    what the application, the network and the oSIP stack decide is a parameter. */
module ContextStore {
  import opened Wrappers
  import opened Sequences
  import opened Text
  import opened Sip

  /** `d_dialog`: freed, or an oSIP dialog in state EARLY or CONFIRMED. */
  datatype Leg = NoLeg | EarlyLeg | ConfirmedLeg

  /** `ref` stands for the address of the record: it is never reused. */
  datatype Dialog = Dialog(ref: nat, id: int, leg: Leg, inc: seq<nat>, out: seq<nat>, retry: int)

  /** A call, a subscription or a notification.  Two history variables: `resent` counts how
      often the initial INVITE was resent with credentials since the last 2xx, `success` tells
      whether the context ever saw a 2xx. */
  datatype Context = Context(
    ref: nat, id: int, dialogs: seq<Dialog>, inc: Option<nat>, out: Option<nat>,
    retry: int, resent: int, success: bool)

  datatype Publication = Publication(aor: string, expires: int, last: Option<nat>)

  /** `garbage` is `j_transactions`; `released` lists the transactions freed from it.  The rest
      is history: `wrapped` records whether the id counter was ever reset, `hangups` the dialogs
      for which eXosip_call_terminate sent a BYE, `byes` the dialog of every BYE that was sent,
      `doubles` the second entries that a failed CANCEL makes in `j_transactions`, and `lost` the
      transactions that were put nowhere. */
  datatype State = State(
    calls: seq<Context>, subs: seq<Context>, notifies: seq<Context>, pubs: seq<Publication>,
    garbage: seq<nat>, released: seq<nat>,
    trs: map<nat, Transaction>, nextTid: nat, nextRef: nat,
    staticId: int, wrapped: bool,
    hangups: seq<nat>, byes: seq<nat>, doubles: seq<nat>, lost: seq<nat>, now: int)

  const MAX_STATIC_ID := 100000
  const MAX_RETRY := 3

  function Init(now: int): State {
    State([], [], [], [], [], [], map[], 1, 0, 1, false, [], [], [], [], now)
  }

  function List(s: State, k: Kind): seq<Context> {
    match k
    case Call => s.calls
    case Subscription => s.subs
    case Notification => s.notifies
  }

  function WithList(s: State, k: Kind, cs: seq<Context>): State {
    match k
    case Call => s.(calls := cs)
    case Subscription => s.(subs := cs)
    case Notification => s.(notifies := cs)
  }

  // ---------------------------------------------------------------- primitive changes

  function AddContext(s: State, k: Kind, c: Context): State {
    WithList(s, k, [c] + List(s, k))
  }

  function SetContext(s: State, k: Kind, i: nat, c: Context): State
    requires i < |List(s, k)|
  {
    WithList(s, k, List(s, k)[i := c])
  }

  function RemoveContext(s: State, k: Kind, i: nat): State
    requires i < |List(s, k)|
  {
    WithList(s, k, Without(List(s, k), i))
  }

  predicate HasDialog(s: State, k: Kind, i: nat, j: nat) {
    i < |List(s, k)| && j < |List(s, k)[i].dialogs|
  }

  function DialogAt(s: State, k: Kind, i: nat, j: nat): Dialog
    requires HasDialog(s, k, i, j)
  {
    List(s, k)[i].dialogs[j]
  }

  function SetDialog(s: State, k: Kind, i: nat, j: nat, d: Dialog): State
    requires HasDialog(s, k, i, j)
  {
    var c := List(s, k)[i];
    SetContext(s, k, i, c.(dialogs := c.dialogs[j := d]))
  }

  function RemoveDialog(s: State, k: Kind, i: nat, j: nat): State
    requires HasDialog(s, k, i, j)
  {
    var c := List(s, k)[i];
    SetContext(s, k, i, c.(dialogs := Without(c.dialogs, j)))
  }

  /** eXosip_dialog_init_as_uac / _as_uas followed by ADD_ELEMENT. */
  function AddDialog(s: State, k: Kind, i: nat, leg: Leg): State
    requires i < |List(s, k)|
  {
    var c := List(s, k)[i];
    SetContext(s, k, i, c.(dialogs := [Dialog(s.nextRef, -1, leg, [], [], 0)] + c.dialogs))
      .(nextRef := s.nextRef + 1)
  }

  /** osip_list_add (eXosip.j_transactions, tr, 0) */
  function Discard(s: State, t: nat): State {
    s.(garbage := [t] + s.garbage)
  }

  /** A transaction that no list and no context keeps. */
  function Lose(s: State, t: nat): State {
    s.(lost := [t] + s.lost)
  }

  /** osip_list_add (eXosip.j_transactions, tr, 0), although a context keeps `tr`. */
  function Double(s: State, t: nat): State {
    SetJinfo(s, t, None).(doubles := [t] + s.doubles)
  }

  /** osip_transaction_init: the new transaction gets the number `s.nextTid`. */
  function Launch(s: State, tr: Transaction): State {
    s.(trs := s.trs[s.nextTid := tr], nextTid := s.nextTid + 1)
  }

  function Outgoing(s: State, verb: Method, jinfo: Option<Jinfo>): Transaction {
    Transaction(verb, false, Pending, 0, s.now, jinfo)
  }

  function Incoming(s: State, verb: Method, jinfo: Option<Jinfo>): Transaction {
    Transaction(verb, true, Pending, 0, s.now, jinfo)
  }

  function SetJinfo(s: State, t: nat, jinfo: Option<Jinfo>): State {
    if t in s.trs then s.(trs := s.trs[t := s.trs[t].(jinfo := jinfo)]) else s
  }

  function SetProgress(s: State, t: nat, phase: Phase, code: nat): State
    requires t in s.trs
  {
    s.(trs := s.trs[t := s.trs[t].(phase := phase, response := code)])
  }

  /** __eXosip_delete_jinfo on every transaction of a list. */
  function ForgetAll(trs: map<nat, Transaction>, ts: seq<nat>): map<nat, Transaction> {
    map t | t in trs :: if t in ts then trs[t].(jinfo := None) else trs[t]
  }

  // ---------------------------------------------------------------- eXosip_update

  function UpdateDialogs(ds: seq<Dialog>, id: int): (seq<Dialog>, int) {
    if ds == [] then ([], id)
    else
      var isNew := ds[0].leg != NoLeg && ds[0].id < 1;
      var d := ds[0].(id := if ds[0].leg == NoLeg then -1 else if isNew then id else ds[0].id);
      var (rest, id') := UpdateDialogs(ds[1..], if isNew then id + 1 else id);
      ([d] + rest, id')
  }

  function UpdateContexts(cs: seq<Context>, id: int): (seq<Context>, int) {
    if cs == [] then ([], id)
    else
      var isNew := cs[0].id < 1;
      var (ds, id1) := UpdateDialogs(cs[0].dialogs, if isNew then id + 1 else id);
      var (rest, id2) := UpdateContexts(cs[1..], id1);
      ([cs[0].(id := if isNew then id else cs[0].id, dialogs := ds)] + rest, id2)
  }

  function Update(s: State): State {
    var wrap := s.staticId > MAX_STATIC_ID;
    var (calls, id1) := UpdateContexts(s.calls, if wrap then 1 else s.staticId);
    var (subs, id2) := UpdateContexts(s.subs, id1);
    var (notifies, id3) := UpdateContexts(s.notifies, id2);
    s.(calls := calls, subs := subs, notifies := notifies, staticId := id3, wrapped := s.wrapped || wrap)
  }

  // ---------------------------------------------------------------- teardown

  /** eXosip_dialog_free: both transaction lists are drained, oldest entry last, into the
      garbage list; then the ids are updated. */
  function FreeDialog(s: State, d: Dialog): State {
    Update(s.(garbage := Reversed(d.out) + Reversed(d.inc) + s.garbage,
              trs := ForgetAll(s.trs, d.inc + d.out)))
  }

  function FreeDialogs(s: State, ds: seq<Dialog>): State
    decreases |ds|
  {
    if ds == [] then s else FreeDialogs(FreeDialog(s, ds[0]), ds[1..])
  }

  function DiscardSlot(s: State, slot: Option<nat>): State {
    match slot
    case None => s
    case Some(t) => Discard(SetJinfo(s, t, None), t)
  }

  /** REMOVE_ELEMENT, then eXosip_call_free, eXosip_subscribe_free or eXosip_notify_free. */
  function FreeContext(s: State, k: Kind, i: nat): State
    requires i < |List(s, k)|
  {
    var c := List(s, k)[i];
    DiscardSlot(DiscardSlot(FreeDialogs(RemoveContext(s, k, i), c.dialogs), c.inc), c.out)
  }

  /** REMOVE_ELEMENT on the dialog list, then eXosip_dialog_free. */
  function DropDialog(s: State, k: Kind, i: nat, j: nat): State
    requires HasDialog(s, k, i, j)
  {
    FreeDialog(RemoveDialog(s, k, i, j), DialogAt(s, k, i, j))
  }

  // ---------------------------------------------------------------- lookups

  /** Position of the record with this address. */
  function FindRef(cs: seq<Context>, ref: nat): (r: Option<nat>)
    ensures r.Some? ==> r.value < |cs| && cs[r.value].ref == ref
    ensures r.None? ==> forall i :: 0 <= i < |cs| ==> cs[i].ref != ref
  {
    if cs == [] then None
    else if cs[0].ref == ref then Some(0)
    else match FindRef(cs[1..], ref) case None => None case Some(i) => Some(i + 1)
  }

  function FindDialogRef(ds: seq<Dialog>, ref: nat): (r: Option<nat>)
    ensures r.Some? ==> r.value < |ds| && ds[r.value].ref == ref
    ensures r.None? ==> forall j :: 0 <= j < |ds| ==> ds[j].ref != ref
  {
    if ds == [] then None
    else if ds[0].ref == ref then Some(0)
    else match FindDialogRef(ds[1..], ref) case None => None case Some(j) => Some(j + 1)
  }

  /** eXosip_call_find */
  function FindContext(cs: seq<Context>, id: int): (r: Option<nat>)
    ensures r.Some? ==> r.value < |cs| && cs[r.value].id == id
    ensures r.None? ==> forall i :: 0 <= i < |cs| ==> cs[i].id != id
  {
    if cs == [] then None
    else if cs[0].id == id then Some(0)
    else match FindContext(cs[1..], id) case None => None case Some(i) => Some(i + 1)
  }

  function FindDialogId(ds: seq<Dialog>, id: int): (r: Option<nat>)
    ensures r.Some? ==> r.value < |ds| && ds[r.value].id == id
    ensures r.None? ==> forall j :: 0 <= j < |ds| ==> ds[j].id != id
  {
    if ds == [] then None
    else if ds[0].id == id then Some(0)
    else match FindDialogId(ds[1..], id) case None => None case Some(j) => Some(j + 1)
  }

  /** eXosip_call_dialog_find and eXosip_notify_dialog_find */
  function FindDialog(cs: seq<Context>, id: int): (r: Option<(nat, nat)>)
    ensures r.Some? ==> r.value.0 < |cs| && r.value.1 < |cs[r.value.0].dialogs|
                        && cs[r.value.0].dialogs[r.value.1].id == id
    ensures r.None? ==> forall i, j :: 0 <= i < |cs| && 0 <= j < |cs[i].dialogs| ==> cs[i].dialogs[j].id != id
  {
    if cs == [] then None
    else match FindDialogId(cs[0].dialogs, id)
      case Some(j) => Some((0, j))
      case None => match FindDialog(cs[1..], id) case None => None case Some(p) => Some((p.0 + 1, p.1))
  }

  /** eXosip_subscribe_dialog_find: the id may be that of the subscription itself. */
  function FindSubscription(cs: seq<Context>, id: int): (r: Option<(nat, Option<nat>)>)
    ensures r.Some? ==> r.value.0 < |cs|
    ensures r.Some? && r.value.1.None? ==> cs[r.value.0].id == id
    ensures r.Some? && r.value.1.Some? ==> r.value.1.value < |cs[r.value.0].dialogs|
                                           && cs[r.value.0].dialogs[r.value.1.value].id == id
    ensures r.None? ==> forall i :: 0 <= i < |cs| ==> cs[i].id != id
    ensures r.None? ==> forall i, j :: 0 <= i < |cs| && 0 <= j < |cs[i].dialogs| ==> cs[i].dialogs[j].id != id
  {
    if cs == [] then None
    else if cs[0].id == id then Some((0, None))
    else match FindDialogId(cs[0].dialogs, id)
      case Some(j) => Some((0, Some(j)))
      case None => match FindSubscription(cs[1..], id) case None => None case Some(p) => Some((p.0 + 1, p.1))
  }

  function HolderOf(ds: seq<Dialog>, t: nat): (r: Option<nat>)
    ensures r.Some? ==> r.value < |ds| && (t in ds[r.value].inc || t in ds[r.value].out)
    ensures r.None? ==> forall j :: 0 <= j < |ds| ==> t !in ds[j].inc && t !in ds[j].out
  {
    if ds == [] then None
    else if t in ds[0].inc || t in ds[0].out then Some(0)
    else match HolderOf(ds[1..], t) case None => None case Some(j) => Some(j + 1)
  }

  predicate Owns(c: Context, t: nat) {
    c.inc == Some(t) || c.out == Some(t) || HolderOf(c.dialogs, t).Some?
  }

  /** _eXosip_call_transaction_find and its two siblings: a transaction in one of the
      context's own slots is reported with the first dialog of the list. */
  function FindTransaction(cs: seq<Context>, t: nat): (r: Option<(nat, Option<nat>)>)
    ensures r.Some? ==> r.value.0 < |cs| && Owns(cs[r.value.0], t)
    ensures r.Some? && r.value.1.Some? ==> r.value.1.value < |cs[r.value.0].dialogs|
    ensures r.None? ==> forall i :: 0 <= i < |cs| ==> !Owns(cs[i], t)
  {
    if cs == [] then None
    else if cs[0].inc == Some(t) || cs[0].out == Some(t) then
      Some((0, if cs[0].dialogs == [] then None else Some(0)))
    else match HolderOf(cs[0].dialogs, t)
      case Some(j) => Some((0, Some(j)))
      case None => match FindTransaction(cs[1..], t) case None => None case Some(p) => Some((p.0 + 1, p.1))
  }

  /** The most recent transaction of a list with a given method (lists grow at the front). */
  function Latest(trs: map<nat, Transaction>, ts: seq<nat>, verb: Method): (r: Option<nat>)
    ensures r.Some? ==> r.value in ts && r.value in trs && trs[r.value].verb == verb
    ensures r.None? ==> forall t :: t in ts && t in trs ==> trs[t].verb != verb
  {
    if ts == [] then None
    else if ts[0] in trs && trs[ts[0]].verb == verb then Some(ts[0])
    else Latest(trs, ts[1..], verb)
  }

  function OrElse(a: Option<nat>, b: Option<nat>): Option<nat> {
    if a.Some? then a else b
  }

  /** Of an incoming and an outgoing transaction, the younger one; ties go to the outgoing. */
  function Younger(trs: map<nat, Transaction>, inc: Option<nat>, out: Option<nat>): Option<nat> {
    if inc.None? then out
    else if out.None? then inc
    else if inc.value in trs && out.value in trs && trs[inc.value].birth > trs[out.value].birth then inc
    else out
  }

  /** eXosip_find_last_out_invite, eXosip_find_last_inc_invite */
  function LastOutInvite(trs: map<nat, Transaction>, c: Context, jd: Option<nat>): Option<nat>
    requires jd.Some? ==> jd.value < |c.dialogs|
  {
    OrElse(if jd.Some? then Latest(trs, c.dialogs[jd.value].out, INVITE) else None, c.out)
  }

  function LastIncInvite(trs: map<nat, Transaction>, c: Context, jd: Option<nat>): Option<nat>
    requires jd.Some? ==> jd.value < |c.dialogs|
  {
    OrElse(if jd.Some? then Latest(trs, c.dialogs[jd.value].inc, INVITE) else None, c.inc)
  }

  function PhaseOf(trs: map<nat, Transaction>, t: Option<nat>): Phase {
    if t.Some? && t.value in trs then trs[t.value].phase else Terminated
  }

  // ---------------------------------------------------------------- calls: API

  /** eXosip_call_send_initial_invite */
  function SendInitialInvite(s: State): State {
    var c := Context(s.nextRef, -1, [], None, Some(s.nextTid), 0, 0, false);
    var tr := Outgoing(s, INVITE, Some(Jinfo(Call, s.nextRef, None)));
    Update(AddContext(Launch(s, tr), Call, c).(nextRef := s.nextRef + 1))
  }

  /** The test that eXosip_call_send_request makes on the last transaction of the method. */
  predicate MaySend(s: State, i: nat, j: nat, verb: Method)
    requires HasDialog(s, Call, i, j)
  {
    var c, d := s.calls[i], s.calls[i].dialogs[j];
    if verb == INVITE then
      var last := Younger(s.trs, LastIncInvite(s.trs, c, Some(j)), LastOutInvite(s.trs, c, Some(j)));
      var phase := PhaseOf(s.trs, last);
      phase == Terminated || phase == Confirmed
      || (phase == Completed && last.Some? && last.value in s.trs && !s.trs[last.value].incoming)
    else
      var last := Younger(s.trs, Latest(s.trs, d.inc, verb), Latest(s.trs, d.out, verb));
      var phase := PhaseOf(s.trs, last);
      phase == Terminated || phase == Completed
  }

  /** Prepends a new outgoing transaction to the list of a dialog. */
  function SendInDialog(s: State, k: Kind, i: nat, j: nat, verb: Method): State
    requires HasDialog(s, k, i, j)
  {
    var c, d := List(s, k)[i], DialogAt(s, k, i, j);
    var tr := Outgoing(s, verb, Some(Jinfo(k, c.ref, Some(d.ref))));
    SetDialog(Launch(s, tr), k, i, j, d.(out := [s.nextTid] + d.out))
      .(byes := if verb == BYE then [d.ref] + s.byes else s.byes)
  }

  /** eXosip_call_send_request */
  function CallSendRequest(s: State, did: int, verb: Method): State {
    if did <= 0 then s
    else match FindDialog(s.calls, did)
      case None => s
      case Some(p) => if MaySend(s, p.0, p.1, verb) then SendInDialog(s, Call, p.0, p.1, verb) else s
  }

  function ClearLeg(s: State, k: Kind, i: nat, j: nat): State
    requires HasDialog(s, k, i, j)
  {
    SetDialog(s, k, i, j, DialogAt(s, k, i, j).(leg := NoLeg))
  }

  /** eXosip_create_cancel_transaction, then the dialog, when there is one, is dropped. */
  function CancelCall(s: State, i: nat, jd: Option<nat>): State
    requires i < |s.calls| && (jd.Some? ==> jd.value < |s.calls[i].dialogs|)
  {
    var s1 := Discard(Launch(s, Outgoing(s, CANCEL, None)), s.nextTid);
    if jd.Some? then Update(ClearLeg(s1, Call, i, jd.value)) else s1
  }

  function SendBye(s: State, i: nat, j: nat): State
    requires HasDialog(s, Call, i, j)
  {
    var s1 := ClearLeg(SendInDialog(s, Call, i, j, BYE), Call, i, j);
    Update(s1.(hangups := [s.calls[i].dialogs[j].ref] + s.hangups))
  }

  predicate Provisional(trs: map<nat, Transaction>, t: Option<nat>) {
    t.Some? && t.value in trs && 100 <= trs[t.value].response < 200
  }

  function TerminateAt(s: State, i: nat, jd: Option<nat>): State
    requires i < |s.calls| && (jd.Some? ==> jd.value < |s.calls[i].dialogs|)
  {
    var c := s.calls[i];
    var out := LastOutInvite(s.trs, c, jd);
    if Provisional(s.trs, out) then CancelCall(s, i, jd)
    else if jd.None? || c.dialogs[jd.value].leg == NoLeg then s
    else if out.None? && Provisional(s.trs, LastIncInvite(s.trs, c, jd)) then s   // a 603 is queued
    else SendBye(s, i, jd.value)
  }

  /** eXosip_call_terminate */
  function Terminate(s: State, cid: int, did: int): State {
    if did > 0 then
      match FindDialog(s.calls, did)
      case None => s
      case Some(p) => TerminateAt(s, p.0, Some(p.1))
    else
      match FindContext(s.calls, cid)
      case None => s
      case Some(i) => TerminateAt(s, i, None)
  }

  /** _eXosip_call_send_request_with_credential and _eXosip_call_redirect_request: the two
      place the new transaction in the same way.  A resent initial INVITE takes the slot of
      the old one and costs the dialog; any other request joins the list of its dialog. */
  function CallResend(s: State, i: nat, jd: Option<nat>, t: nat): State
    requires i < |s.calls| && (jd.Some? ==> jd.value < |s.calls[i].dialogs|)
    requires t in s.trs
  {
    var c := s.calls[i];
    var verb := s.trs[t].verb;
    if c.out == Some(t) then
      var s1 := Discard(Launch(s, Outgoing(s, verb, Some(Jinfo(Call, c.ref, None)))), t);
      var s2 := SetContext(s1, Call, i, c.(out := Some(s.nextTid)));
      Update(if jd.Some? then DropDialog(s2, Call, i, jd.value) else s2)
    else if jd.None? then s
    else Update(SendInDialog(s, Call, i, jd.value, verb))
  }

  /** _eXosip_retry_invite_with_auth */
  function RetryCall(s: State, t: nat): State
    requires t in s.trs
  {
    match FindTransaction(s.calls, t)
    case None => s
    case Some((i, jd)) =>
      var c := s.calls[i];
      var initial := c.out == Some(t);
      if jd.Some? && c.dialogs[jd.value].leg != NoLeg then
        var d := c.dialogs[jd.value];
        if d.retry < MAX_RETRY then
          var s1 := SetDialog(s, Call, i, jd.value, d.(retry := d.retry + 1));
          CallResend(CountResend(s1, i, initial), i, jd, t)
        else s
      else if c.retry < MAX_RETRY then
        var s1 := SetContext(s, Call, i, c.(retry := c.retry + 1));
        CallResend(CountResend(s1, i, initial), i, jd, t)
      else s
  }

  /** Keeps the history variable. */
  function CountResend(s: State, i: nat, initial: bool): State
    requires i < |s.calls|
  {
    if initial then SetContext(s, Call, i, s.calls[i].(resent := s.calls[i].resent + 1)) else s
  }

  /** _eXosip_redirect_invite */
  function Redirect(s: State, t: nat): State
    requires t in s.trs
  {
    match FindTransaction(s.calls, t)
    case None => s
    case Some((i, jd)) => CallResend(s, i, jd, t)
  }

  // ---------------------------------------------------------------- subscriptions, notifications, publications: API

  /** eXosip_subscribe_send_initial_request */
  function SendInitialSubscribe(s: State): State {
    var c := Context(s.nextRef, 0, [], None, Some(s.nextTid), 0, 0, false);
    var tr := Outgoing(s, SUBSCRIBE, Some(Jinfo(Subscription, s.nextRef, None)));
    Update(AddContext(Launch(s, tr), Subscription, c).(nextRef := s.nextRef + 1))
  }

  /** eXosip_subscribe_send_refresh_request */
  function SendRefresh(s: State, did: int): State {
    if did <= 0 then s
    else match FindSubscription(s.subs, did)
      case None => s
      case Some((i, None)) => s
      case Some((i, Some(j))) =>
        var phase := PhaseOf(s.trs, OrElse(Latest(s.trs, s.subs[i].dialogs[j].out, SUBSCRIBE), s.subs[i].out));
        if phase == Terminated || phase == Completed
        then SendInDialog(s, Subscription, i, j, SUBSCRIBE) else s
  }

  /** _eXosip_subscribe_send_request_with_credential */
  function SubscribeResend(s: State, i: nat, jd: Option<nat>, t: nat): State
    requires i < |s.subs| && (jd.Some? ==> jd.value < |s.subs[i].dialogs|)
    requires t in s.trs
  {
    var c := s.subs[i];
    if c.out == Some(t) then
      var ref := if jd.Some? then Some(c.dialogs[jd.value].ref) else None;
      var tr := Outgoing(s, s.trs[t].verb, Some(Jinfo(Subscription, c.ref, ref)));
      Update(SetContext(Discard(Launch(s, tr), t), Subscription, i, c.(out := Some(s.nextTid))))
    else if jd.None? then s
    else Update(SendInDialog(s, Subscription, i, jd.value, s.trs[t].verb))
  }

  /** _eXosip_retry_subscribe_with_auth */
  function RetrySubscribe(s: State, t: nat): State
    requires t in s.trs
  {
    match FindTransaction(s.subs, t)
    case None => s
    case Some((i, jd)) =>
      var c := s.subs[i];
      if jd.Some? && c.dialogs[jd.value].leg != NoLeg then
        var d := c.dialogs[jd.value];
        if d.retry < MAX_RETRY
        then SubscribeResend(SetDialog(s, Subscription, i, jd.value, d.(retry := d.retry + 1)), i, jd, t)
        else s
      else if c.retry < MAX_RETRY
      then SubscribeResend(SetContext(s, Subscription, i, c.(retry := c.retry + 1)), i, jd, t)
      else s
  }

  /** One dialog of the subscription loop of eXosip_automatic_refresh, once its timer is up. */
  function RefreshSubscription(s: State, i: nat, j: nat): State {
    if !HasDialog(s, Subscription, i, j) then s
    else
      var c, d := s.subs[i], s.subs[i].dialogs[j];
      var t := if d.out != [] then Some(d.out[0]) else c.out;
      if d.leg != NoLeg && d.id >= 1 && t.Some? && t.value in s.trs && s.trs[t.value].response != 0
      then SubscribeResend(s, i, Some(j), t.value) else s
  }

  /** eXosip_insubscription_send_request */
  function NotifySendRequest(s: State, did: int, verb: Method): State {
    if did <= 0 then s
    else match FindDialog(s.notifies, did)
      case None => s
      case Some(p) =>
        var phase := PhaseOf(s.trs, Latest(s.trs, s.notifies[p.0].dialogs[p.1].out, NOTIFY));
        if phase == Terminated || phase == Completed
        then SendInDialog(s, Notification, p.0, p.1, verb) else s
  }

  /** _eXosip_retry_notify_with_auth: no counter is consulted. */
  function RetryNotify(s: State, t: nat): State
    requires t in s.trs
  {
    match FindTransaction(s.notifies, t)
    case Some((i, Some(j))) => Update(SendInDialog(s, Notification, i, j, s.trs[t].verb))
    case _ => s
  }

  /** The sweep of _eXosip_pub_find_by_aor over expired publications. */
  function Sweep(s: State, pubs: seq<Publication>): State
    decreases |pubs|
  {
    if pubs == [] then s.(pubs := [])
    else if s.now - pubs[0].expires > 60 then
      Sweep(if pubs[0].last.Some? then Discard(s, pubs[0].last.value) else s, pubs[1..])
    else
      var r := Sweep(s, pubs[1..]);
      r.(pubs := [pubs[0]] + r.pubs)
  }

  function FindAor(pubs: seq<Publication>, aor: string): (r: Option<nat>)
    ensures r.Some? ==> r.value < |pubs| && EqualNoCase(aor, pubs[r.value].aor)
  {
    if pubs == [] then None
    else if EqualNoCase(aor, pubs[0].aor) then Some(0)
    else match FindAor(pubs[1..], aor) case None => None case Some(i) => Some(i + 1)
  }

  /** Puts the new transaction of a publication in place of the last one. */
  function ReplacePub(s: State, p: nat): State
    requires p < |s.pubs|
  {
    var prev := s.pubs[p].last;
    var s1 := Launch(s, Outgoing(s, PUBLISH, None));
    var s2 := if prev.Some? then Discard(s1, prev.value) else s1;
    s2.(pubs := s.pubs[p := s.pubs[p].(last := Some(s.nextTid))])
  }

  /** eXosip_publish, for a message with an Expires header of `period` seconds */
  function Publish(s: State, aor: string, period: int): State {
    var s1 := Sweep(s, s.pubs);
    match FindAor(s1.pubs, aor)
    case Some(p) => ReplacePub(s1, p)
    case None => ReplacePub(s1.(pubs := [Publication(aor, s.now + period, None)] + s1.pubs), 0)
  }

  function FindPub(pubs: seq<Publication>, t: nat): (r: Option<nat>)
    ensures r.Some? ==> r.value < |pubs| && pubs[r.value].last == Some(t)
  {
    if pubs == [] then None
    else if pubs[0].last == Some(t) then Some(0)
    else match FindPub(pubs[1..], t) case None => None case Some(i) => Some(i + 1)
  }

  /** _eXosip_retry_publish_with_auth */
  function RetryPublish(s: State, t: nat): State {
    match FindPub(s.pubs, t)
    case None => s
    case Some(p) => Update(ReplacePub(s, p))
  }

  /** Requests outside of any context, and their retry (_eXosip_retry_with_auth). */
  function SendOutside(s: State, verb: Method): State {
    Discard(Launch(s, Outgoing(s, verb, None)), s.nextTid)
  }

  function RetryOutside(s: State, t: nat): State
    requires t in s.trs
  {
    if (t in s.garbage || t in s.doubles) && s.trs[t].jinfo.None?
    then Update(Discard(Launch(s, Outgoing(s, s.trs[t].verb, None)), s.nextTid))
    else s
  }

  /** eXosip_default_action on an event of transaction `t` that belongs to a context of kind
      `k`, to a publication or to none. */
  datatype Owner = Of(kind: Kind) | OfPublication | OfNone

  function DefaultAction(s: State, owner: Owner, t: nat): State {
    if t !in s.trs then s
    else if Challenge(s.trs[t].response) then
      match owner
      case Of(Call) => RetryCall(s, t)
      case Of(Subscription) => RetrySubscribe(s, t)
      case Of(Notification) => RetryNotify(s, t)
      case OfPublication => RetryPublish(s, t)
      case OfNone => RetryOutside(s, t)
    else if 300 <= s.trs[t].response <= 399 && owner == Of(Call) && s.trs[t].verb == INVITE then Redirect(s, t)
    else s
  }

  // ---------------------------------------------------------------- requests from the network

  /** eXosip_process_new_invite and eXosip_process_new_subscribe.  When no answer can be
      built the first leaves an empty call behind, the second leaves nothing. */
  function NewIncoming(s: State, k: Kind, ok: bool): State {
    if k == Subscription then s
    else if ok then
      var jinfo := Jinfo(k, s.nextRef, Some(s.nextRef + 1));
      var d := Dialog(s.nextRef + 1, -1, EarlyLeg, [], [], 0);
      var c := Context(s.nextRef, if k == Call then -1 else 0, [d], Some(s.nextTid), None, 0, 0, false);
      var tr := Incoming(s, if k == Call then INVITE else SUBSCRIBE, Some(jinfo));
      Update(AddContext(Launch(s, tr), k, c).(nextRef := s.nextRef + 2))
    else
      var s1 := Discard(Launch(s, Incoming(s, if k == Call then INVITE else SUBSCRIBE, None)), s.nextTid);
      if k == Call
      then AddContext(s1, Call, Context(s.nextRef, -1, [], None, None, 0, 0, false)).(nextRef := s.nextRef + 1)
      else s1
  }

  /** A request that is answered with an error and only kept until it terminates. */
  function Reject(s: State, verb: Method): State {
    Discard(Launch(s, Incoming(s, verb, None)), s.nextTid)
  }

  /** Prepends an incoming transaction to the list of a dialog. */
  function Receive(s: State, k: Kind, i: nat, j: nat, tr: Transaction): State
    requires HasDialog(s, k, i, j)
  {
    var d := DialogAt(s, k, i, j);
    SetDialog(Launch(s, tr), k, i, j, d.(inc := [s.nextTid] + d.inc))
  }

  function AcceptInDialog(s: State, k: Kind, i: nat, j: nat, verb: Method, withDialog: bool): State
    requires HasDialog(s, k, i, j)
  {
    var c, d := List(s, k)[i], DialogAt(s, k, i, j);
    Receive(s, k, i, j, Incoming(s, verb, Some(Jinfo(k, c.ref, if withDialog then Some(d.ref) else None))))
  }

  /** Request within the dialog of a call (eXosip_process_newrequest); `valid` is false when
      the request itself is malformed. */
  function RequestInCall(s: State, i: nat, j: nat, verb: Method, valid: bool): State
    requires HasDialog(s, Call, i, j)
  {
    var c, d := s.calls[i], s.calls[i].dialogs[j];
    var byeIn := Latest(s.trs, d.inc, BYE);
    if verb == BYE then
      if byeIn.Some? || !valid then Reject(s, BYE)
      else Update(ClearLeg(AcceptInDialog(s, Call, i, j, BYE, false), Call, i, j))
    else if byeIn.Some? || Latest(s.trs, d.out, BYE).Some? then Reject(s, verb)
    else if verb == INVITE
            && (PhaseOf(s.trs, LastIncInvite(s.trs, c, Some(j))) != Terminated
                || PhaseOf(s.trs, LastOutInvite(s.trs, c, Some(j))) != Terminated) then Reject(s, INVITE)
    else if verb == SUBSCRIBE || !valid then Reject(s, verb)
    else AcceptInDialog(s, Call, i, j, verb, true)
  }

  /** NOTIFY for a subscription (eXosip_process_notify_within_dialog): a state of
      "terminated" ends the subscription. */
  function NotifyForSubscription(s: State, i: nat, j: nat, valid: bool, terminated: bool): State
    requires HasDialog(s, Subscription, i, j)
  {
    if !valid then Reject(s, NOTIFY)
    else if terminated then FreeContext(Reject(s, NOTIFY), Subscription, i)
    else AcceptInDialog(s, Subscription, i, j, NOTIFY, true)
  }

  function RequestInDialog(s: State, k: Kind, i: nat, j: nat, verb: Method, valid: bool, terminated: bool): State {
    if !HasDialog(s, k, i, j) || DialogAt(s, k, i, j).leg == NoLeg then s
    else match k
      case Call => RequestInCall(s, i, j, verb, valid)
      case Subscription =>
        var last := PhaseOf(s.trs, Latest(s.trs, s.subs[i].dialogs[j].out, NOTIFY));
        if verb == NOTIFY && last == Terminated then NotifyForSubscription(s, i, j, valid, terminated)
        else Reject(s, verb)
      case Notification =>
        var d := s.notifies[i].dialogs[j];
        var last := PhaseOf(s.trs, OrElse(Latest(s.trs, d.inc, SUBSCRIBE), s.notifies[i].inc));
        if verb == SUBSCRIBE && (last == Terminated || last == Completed)
        then AcceptInDialog(s, Notification, i, j, SUBSCRIBE, true)
        else Reject(s, verb)
  }

  /** A NOTIFY that matches a subscription but none of its dialogs creates one; when that fails
      (`leg` is NoLeg) its transaction is forgotten. */
  function FirstNotify(s: State, i: nat, leg: Leg, valid: bool, terminated: bool): State {
    if i >= |s.subs| then s
    else if leg == NoLeg then Lose(Launch(s, Incoming(s, NOTIFY, None)), s.nextTid)
    else
      var s1 := AddDialog(s, Subscription, i, leg);
      UpdateKeepsShape(s1);
      NotifyForSubscription(Update(s1), i, 0, valid, terminated)
  }

  /** The INVITE a CANCEL is about: none; the initial one of call `i`, reported with the first
      dialog; or, in the last call only, entry `p` of a dialog's list, reported without dialog. */
  datatype Target = NoInvite | InitialInvite(i: nat) | InviteInDialog(j: nat, p: nat)

  /** The call, the transaction and the dialog that the search of eXosip_process_cancel finds. */
  function Cancelled(s: State, target: Target): (r: Option<(nat, nat, Option<nat>)>)
    ensures r.Some? ==> r.value.0 < |s.calls| && r.value.1 in s.trs
    ensures r.Some? && r.value.2.Some? ==> HasDialog(s, Call, r.value.0, r.value.2.value)
  {
    match target
    case NoInvite => None
    case InitialInvite(i) =>
      if i < |s.calls| && s.calls[i].inc.Some? && s.calls[i].inc.value in s.trs
      then Some((i, s.calls[i].inc.value, if s.calls[i].dialogs == [] then None else Some(0)))
      else None
    case InviteInDialog(j, p) =>
      if s.calls == [] then None
      else
        var n, ds := |s.calls| - 1, s.calls[|s.calls| - 1].dialogs;
        if j < |ds| && p < |ds[j].inc| && ds[j].inc[p] in s.trs && forall x :: j < x < |ds| ==> ds[x].inc == []
        then Some((n, ds[j].inc[p], None))
        else None
  }

  /** Where the transaction of an answered CANCEL goes. */
  function KeepCancel(s: State, i: nat, jd: Option<nat>): State
    requires jd.Some? ==> HasDialog(s, Call, i, jd.value)
  {
    if jd.Some? then Receive(s, Call, i, jd.value, Incoming(s, CANCEL, None)) else Reject(s, CANCEL)
  }

  /** eXosip_process_cancel; `ok` and `ok487` tell whether the answers to the CANCEL and to the
      INVITE could be built.  The 487 itself leaves later (AnswerSent). */
  function ProcessCancel(s: State, target: Target, ok: bool, ok487: bool): State {
    match Cancelled(s, target)
    case None => if ok then Reject(s, CANCEL) else Lose(Launch(s, Incoming(s, CANCEL, None)), s.nextTid)
    case Some((i, t, jd)) =>
      if !ok then Double(Lose(Launch(s, Incoming(s, CANCEL, None)), s.nextTid), t)
      else if (s.trs[t].verb == INVITE && s.trs[t].phase != Pending) || ok487 then KeepCancel(s, i, jd)
      else Double(KeepCancel(s, i, jd), t)
  }

  // ---------------------------------------------------------------- oSIP callbacks

  /** What the callbacks read from a response: whether a dialog can be built from it, which
      existing dialog carries its To tag, whether that tag is the one on record, and whether
      the subscription it is about is over. */
  datatype Facts = Facts(dialogOk: bool, tagged: Option<nat>, sameTag: bool, over: bool)

  /** The dialog of a response: the one on record, else, for SUBSCRIBE, one that an earlier
      NOTIFY created. */
  function ResponseDialog(c: Context, ji: Jinfo, verb: Method, f: Facts): (r: Option<nat>)
    ensures r.Some? ==> r.value < |c.dialogs|
  {
    if ji.dialog.Some? then FindDialogRef(c.dialogs, ji.dialog.value)
    else if ji.kind == Subscription && verb == SUBSCRIBE && f.tagged.Some? && f.tagged.value < |c.dialogs|
    then f.tagged else None
  }

  function StartDialog(s: State, t: nat, i: nat, ji: Jinfo, leg: Leg): State
    requires i < |List(s, ji.kind)|
  {
    Update(SetJinfo(AddDialog(s, ji.kind, i, leg), t, Some(ji.(dialog := Some(s.nextRef)))))
  }

  predicate OpensDialog(verb: Method) {
    verb == INVITE || verb == SUBSCRIBE
  }

  /** cb_rcv1xx */
  function OnProvisional(s: State, t: nat, i: nat, ji: Jinfo, code: nat, f: Facts): State
    requires t in s.trs && i < |List(s, ji.kind)|
  {
    var verb := s.trs[t].verb;
    if !OpensDialog(verb) || code == 100 then s
    else match ResponseDialog(List(s, ji.kind)[i], ji, verb, f)
      case Some(j) => SetJinfo(s, t, Some(ji.(dialog := Some(DialogAt(s, ji.kind, i, j).ref))))
      case None => if f.dialogOk && ji.dialog.None? then StartDialog(s, t, i, ji, EarlyLeg) else s
  }

  /** The counters that cb_rcv2xx resets. */
  function ResetRetries(s: State, i: nat, ji: Jinfo): State
    requires i < |List(s, ji.kind)|
  {
    var c := List(s, ji.kind)[i];
    var c1 := if ji.kind == Notification then c else c.(retry := 0, resent := 0, success := true);
    var jd := if ji.dialog.Some? then FindDialogRef(c.dialogs, ji.dialog.value) else None;
    SetContext(s, ji.kind, i,
      if jd.Some? then c1.(dialogs := c.dialogs[jd.value := c.dialogs[jd.value].(retry := 0)]) else c1)
  }

  /** cb_rcv2xx_4invite and cb_rcv2xx_4subscribe on an existing dialog.  Only a dialog that
      still has a leg is confirmed; a 2xx to an INVITE from another remote party replaces it. */
  function ConfirmedBy(leg: Leg, verb: Method, f: Facts): Leg {
    if leg == NoLeg then NoLeg
    else if verb == INVITE && !f.sameTag && !f.dialogOk then NoLeg
    else ConfirmedLeg
  }

  /** cb_rcv2xx */
  function OnSuccess(s: State, t: nat, i: nat, ji: Jinfo, f: Facts): State
    requires t in s.trs && i < |List(s, ji.kind)|
  {
    var verb := s.trs[t].verb;
    var s1 := ResetRetries(s, i, ji);
    if OpensDialog(verb) then
      match ResponseDialog(List(s1, ji.kind)[i], ji, verb, f)
      case Some(j) =>
        var d := DialogAt(s1, ji.kind, i, j);
        SetJinfo(SetDialog(s1, ji.kind, i, j, d.(leg := ConfirmedBy(d.leg, verb, f))), t,
                 Some(ji.(dialog := Some(d.ref))))
      case None => if f.dialogOk && ji.dialog.None? then StartDialog(s1, t, i, ji, ConfirmedLeg) else s1
    else if verb == NOTIFY && ji.kind == Notification && f.over then FreeContext(s1, Notification, i)
    else s1
  }

  /** eXosip_delete_early_dialog */
  function DeleteEarly(s: State, k: Kind, i: nat, jd: Option<nat>): State
    requires i < |List(s, k)| && (jd.Some? ==> jd.value < |List(s, k)[i].dialogs|)
  {
    if jd.Some? && DialogAt(s, k, i, jd.value).leg == EarlyLeg then Update(ClearLeg(s, k, i, jd.value)) else s
  }

  /** cb_rcv3xx, cb_rcv4xx, cb_rcv5xx, cb_rcv6xx; also cb_snd3xx to cb_snd6xx */
  function OnFailure(s: State, t: nat, i: nat, ji: Jinfo): State
    requires t in s.trs && i < |List(s, ji.kind)|
  {
    if OpensDialog(s.trs[t].verb) && ji.dialog.Some?
    then DeleteEarly(s, ji.kind, i, FindDialogRef(List(s, ji.kind)[i].dialogs, ji.dialog.value))
    else s
  }

  /** A response reaches a client transaction that is not over. */
  function Respond(s: State, t: nat, code: nat, f: Facts): State {
    if t !in s.trs || s.trs[t].incoming || s.trs[t].phase != Pending || !(100 <= code < 700) then s
    else
      var tr := s.trs[t];
      var s1 := SetProgress(s, t, ClientPhase(tr.verb, code), code);
      match tr.jinfo
      case None => s1
      case Some(ji) =>
        match FindRef(List(s1, ji.kind), ji.ctx)
        case None => s1
        case Some(i) =>
          if code < 200 then OnProvisional(s1, t, i, ji, code, f)
          else if code < 300 then OnSuccess(s1, t, i, ji, f)
          else OnFailure(s1, t, i, ji)
  }

  /** The application answers a request (eXosip_call_send_answer,
      eXosip_insubscription_send_answer): a 2xx confirms the dialog. */
  function Answer(s: State, k: Kind, t: nat, code: nat): State {
    if k == Subscription || t !in s.trs || !s.trs[t].incoming || s.trs[t].phase != Pending || !(100 <= code < 700) then s
    else match FindTransaction(List(s, k), t)
      case Some((i, Some(j))) =>
        var d := DialogAt(s, k, i, j);
        var opens := s.trs[t].verb == if k == Call then INVITE else SUBSCRIBE;
        if opens && 200 <= code < 300 && d.leg != NoLeg
        then Update(SetDialog(s, k, i, j, d.(leg := ConfirmedLeg)))
        else Update(s)
      case _ => s
  }

  /** The answer leaves a server transaction: cb_snd1xx to cb_snd6xx. */
  function AnswerSent(s: State, t: nat, code: nat): State {
    if t !in s.trs || !s.trs[t].incoming || s.trs[t].phase != Pending || !(100 <= code < 700) then s
    else
      var tr := s.trs[t];
      var s1 := SetProgress(s, t, ClientPhase(tr.verb, code), code);
      if code < 300 || tr.jinfo.None? then s1
      else match FindRef(List(s1, tr.jinfo.value.kind), tr.jinfo.value.ctx)
        case None => s1
        case Some(i) => OnFailure(s1, t, i, tr.jinfo.value)
  }

  /** The ACK of a negative answer to an INVITE arrives. */
  function AckReceived(s: State, t: nat): State {
    if t in s.trs && s.trs[t].incoming && s.trs[t].verb == INVITE && s.trs[t].phase == Completed
    then SetProgress(s, t, Confirmed, s.trs[t].response) else s
  }

  /** The end of a NOTIFY or SUBSCRIBE transaction that ends its context
      (cb_nict_kill_transaction). */
  predicate EndsContext(tr: Transaction, k: Kind, f: Facts) {
    || (k == Notification && tr.verb == NOTIFY
        && (tr.response == 0 || (tr.response > 299 && !Challenge(tr.response)) || (200 <= tr.response < 300 && f.over)))
    || (k == Subscription && tr.verb == SUBSCRIBE && (tr.response == 0 || f.over))
  }

  /** A transaction terminates: cb_ict/ist/nict/nist_kill_transaction. */
  function Kill(s: State, t: nat, f: Facts): State {
    if t !in s.trs || s.trs[t].phase == Terminated then s
    else
      var tr := s.trs[t];
      var s1 := SetProgress(s, t, Terminated, tr.response);
      if tr.incoming || tr.jinfo.None? || !EndsContext(tr, tr.jinfo.value.kind, f) then s1
      else match FindRef(List(s1, tr.jinfo.value.kind), tr.jinfo.value.ctx)
        case None => s1
        case Some(i) => FreeContext(s1, tr.jinfo.value.kind, i)
  }

  // ---------------------------------------------------------------- release of finished calls

  /** __eXosip_call_remove_dialog_reference_in_call for one slot */
  function Unlink(s: State, slot: Option<nat>, ref: nat): State {
    if slot.Some? && slot.value in s.trs && s.trs[slot.value].jinfo.Some?
       && s.trs[slot.value].jinfo.value.dialog == Some(ref)
    then SetJinfo(s, slot.value, Some(s.trs[slot.value].jinfo.value.(dialog := None)))
    else s
  }

  /** eXosip_release_finished_calls and its neighbours take a dialog off a call; the model
      lets them do so at any time. */
  function ReleaseDialog(s: State, i: nat, j: nat): State {
    if !HasDialog(s, Call, i, j) then s
    else
      var c, ref := s.calls[i], s.calls[i].dialogs[j].ref;
      DropDialog(Unlink(Unlink(s, c.inc, ref), c.out, ref), Call, i, j)
  }

  /** __eXosip_release_call */
  function ReleaseCall(s: State, i: nat): State {
    if i < |s.calls| then FreeContext(s, Call, i) else s
  }

  function Position(ts: seq<nat>, t: nat): (r: Option<nat>)
    ensures r.Some? ==> r.value < |ts| && ts[r.value] == t
    ensures r.None? ==> t !in ts
  {
    if ts == [] then None
    else if ts[0] == t then Some(0)
    else match Position(ts[1..], t) case None => None case Some(p) => Some(p + 1)
  }

  function Removed(ts: seq<nat>, t: nat): seq<nat> {
    match Position(ts, t) case None => ts case Some(p) => Without(ts, p)
  }

  /** A stuck BYE or REFER is taken off its dialog (eXosip_remove_transaction_from_call) and
      left to the garbage list; the slots of the call never hold one. */
  function DropTransaction(s: State, i: nat, t: nat): State {
    if i >= |s.calls| || t !in s.trs || (s.trs[t].verb != BYE && s.trs[t].verb != OTHER("REFER"))
       || s.calls[i].inc == Some(t) || s.calls[i].out == Some(t) then s
    else match HolderOf(s.calls[i].dialogs, t)
      case None => s
      case Some(j) =>
        var d := s.calls[i].dialogs[j];
        var d1 := if t in d.inc then d.(inc := Removed(d.inc, t)) else d.(out := Removed(d.out, t));
        Discard(SetDialog(s, Call, i, j, d1), t)
  }

  /** The last loop of eXosip_release_terminated_calls, for one transaction. */
  function ReleaseTransaction(s: State, p: nat): State {
    if p < |s.garbage| && s.garbage[p] in s.trs
       && (s.trs[s.garbage[p]].phase == Terminated || s.trs[s.garbage[p]].birth + 180 < s.now)
    then s.(garbage := Without(s.garbage, p), released := [s.garbage[p]] + s.released)
    else s
  }

  // ---------------------------------------------------------------- runs

  datatype Step =
    | Tick(seconds: nat)
    | DoSendInitialInvite
    | DoCallSendRequest(did: int, verb: Method)
    | DoTerminate(cid: int, did: int)
    | DoDefaultAction(owner: Owner, tid: nat)
    | DoSendInitialSubscribe
    | DoSendRefresh(did: int)
    | DoRefreshSubscription(i: nat, j: nat)
    | DoNotifySendRequest(did: int, verb: Method)
    | DoPublish(aor: string, period: int)
    | DoSendOutside(verb: Method)
    | DoAnswer(kind: Kind, tid: nat, code: nat)
    | DoNewIncoming(kind: Kind, ok: bool)
    | DoReject(verb: Method)
    | DoCancel(target: Target, ok: bool, ok487: bool)
    | DoRequestInDialog(kind: Kind, i: nat, j: nat, verb: Method, valid: bool, over: bool)
    | DoFirstNotify(i: nat, leg: Leg, valid: bool, over: bool)
    | DoRespond(tid: nat, code: nat, facts: Facts)
    | DoAnswerSent(tid: nat, code: nat)
    | DoAckReceived(tid: nat)
    | DoKill(tid: nat, facts: Facts)
    | DoReleaseDialog(i: nat, j: nat)
    | DoReleaseCall(i: nat)
    | DoDropTransaction(i: nat, tid: nat)
    | DoReleaseTransaction(p: nat)

  function Next(s: State, e: Step): State {
    match e
    case Tick(n) => s.(now := s.now + n)
    case DoSendInitialInvite => SendInitialInvite(s)
    case DoCallSendRequest(did, verb) => CallSendRequest(s, did, verb)
    case DoTerminate(cid, did) => Terminate(s, cid, did)
    case DoDefaultAction(owner, t) => DefaultAction(s, owner, t)
    case DoSendInitialSubscribe => SendInitialSubscribe(s)
    case DoSendRefresh(did) => SendRefresh(s, did)
    case DoRefreshSubscription(i, j) => RefreshSubscription(s, i, j)
    case DoNotifySendRequest(did, verb) => NotifySendRequest(s, did, verb)
    case DoPublish(aor, period) => Publish(s, aor, period)
    case DoSendOutside(verb) => SendOutside(s, verb)
    case DoAnswer(k, t, code) => Answer(s, k, t, code)
    case DoNewIncoming(k, ok) => NewIncoming(s, k, ok)
    case DoReject(verb) => Reject(s, verb)
    case DoCancel(target, ok, ok487) => ProcessCancel(s, target, ok, ok487)
    case DoRequestInDialog(k, i, j, verb, valid, over) => RequestInDialog(s, k, i, j, verb, valid, over)
    case DoFirstNotify(i, leg, valid, over) => FirstNotify(s, i, leg, valid, over)
    case DoRespond(t, code, f) => Respond(s, t, code, f)
    case DoAnswerSent(t, code) => AnswerSent(s, t, code)
    case DoAckReceived(t) => AckReceived(s, t)
    case DoKill(t, f) => Kill(s, t, f)
    case DoReleaseDialog(i, j) => ReleaseDialog(s, i, j)
    case DoReleaseCall(i) => ReleaseCall(s, i)
    case DoDropTransaction(i, t) => DropTransaction(s, i, t)
    case DoReleaseTransaction(p) => ReleaseTransaction(s, p)
  }

  function Run(s: State, es: seq<Step>): State
    decreases |es|
  {
    if es == [] then s else Run(Next(s, es[0]), es[1..])
  }

  // ---------------------------------------------------------------- shape of an update

  /** eXosip_update changes ids only. */
  predicate SameButIds(a: Dialog, b: Dialog) {
    b == a.(id := b.id)
  }

  predicate SameDialogs(as': seq<Dialog>, bs: seq<Dialog>) {
    |as'| == |bs| && forall j :: 0 <= j < |bs| ==> SameButIds(as'[j], bs[j])
  }

  predicate SameContext(a: Context, b: Context) {
    b == a.(id := b.id, dialogs := b.dialogs) && SameDialogs(a.dialogs, b.dialogs)
  }

  predicate SameContexts(as': seq<Context>, bs: seq<Context>) {
    |as'| == |bs| && forall i :: 0 <= i < |bs| ==> SameContext(as'[i], bs[i])
  }

  lemma UpdateDialogsShape(ds: seq<Dialog>, id: int)
    ensures SameDialogs(ds, UpdateDialogs(ds, id).0)
    ensures UpdateDialogs(ds, id).1 >= id
  {
    if ds != [] {
      var isNew := ds[0].leg != NoLeg && ds[0].id < 1;
      UpdateDialogsShape(ds[1..], if isNew then id + 1 else id);
    }
  }

  lemma UpdateContextsShape(cs: seq<Context>, id: int)
    ensures SameContexts(cs, UpdateContexts(cs, id).0)
    ensures UpdateContexts(cs, id).1 >= id
  {
    if cs != [] {
      var id0 := if cs[0].id < 1 then id + 1 else id;
      UpdateDialogsShape(cs[0].dialogs, id0);
      UpdateContextsShape(cs[1..], UpdateDialogs(cs[0].dialogs, id0).1);
    }
  }

  lemma UpdateKeepsShape(s: State)
    ensures forall k: Kind :: SameContexts(List(s, k), List(Update(s), k))
    ensures var u := Update(s);
            u == s.(calls := u.calls, subs := u.subs, notifies := u.notifies, staticId := u.staticId, wrapped := u.wrapped)
    ensures !Update(s).wrapped ==> Update(s).staticId >= s.staticId
  {
    var id0 := if s.staticId > MAX_STATIC_ID then 1 else s.staticId;
    UpdateContextsShape(s.calls, id0);
    var id1 := UpdateContexts(s.calls, id0).1;
    UpdateContextsShape(s.subs, id1);
    var id2 := UpdateContexts(s.subs, id1).1;
    UpdateContextsShape(s.notifies, id2);
    forall k: Kind ensures SameContexts(List(s, k), List(Update(s), k)) {
      match k case Call => case Subscription => case Notification =>
    }
  }
}
