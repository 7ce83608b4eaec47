/** Bookkeeping over whole runs of the context store.  A `Measure` counts, over the whole
    state, how often a transaction is held, a record is alive, or an id is in use; each
    primitive change moves a measure by a known amount, so each step does. */
module ContextAccounting {
  import opened Wrappers
  import opened Sequences
  import opened Sip
  import opened ContextStore

  datatype Measure =
    | Held(t: nat)             // places where transaction t sits
    | Alive(r: nat)            // contexts, and dialogs with a leg, at address r
    | HungUp(r: nat)           // as Alive, plus the hangups recorded for r
    | Named(n: int)            // contexts and dialogs with id n
    | MayBe(r: nat, id: int)   // as Alive, with that id or none yet
    | Elsewhere(r: nat, n: int)   // as Named, at other addresses than r

  function Bit(b: bool): nat { if b then 1 else 0 }

  function Count(ts: seq<nat>, t: nat): nat {
    if ts == [] then 0 else Bit(ts[0] == t) + Count(ts[1..], t)
  }

  function WeighDialog(m: Measure, d: Dialog): nat {
    match m
    case Held(t) => Count(d.inc, t) + Count(d.out, t)
    case Alive(r) => Bit(d.leg != NoLeg && d.ref == r)
    case HungUp(r) => Bit(d.leg != NoLeg && d.ref == r)
    case Named(n) => Bit(d.id == n)
    case MayBe(r, n) => Bit(d.leg != NoLeg && d.ref == r && (d.id == n || d.id < 1))
    case Elsewhere(r, n) => Bit(d.id == n && d.ref != r)
  }

  function WeighDialogs(m: Measure, ds: seq<Dialog>): nat {
    if ds == [] then 0 else WeighDialog(m, ds[0]) + WeighDialogs(m, ds[1..])
  }

  /** The context record without its dialogs. */
  function WeighSelf(m: Measure, c: Context): nat {
    match m
    case Held(t) => Bit(c.inc == Some(t)) + Bit(c.out == Some(t))
    case Alive(r) => Bit(c.ref == r)
    case HungUp(r) => Bit(c.ref == r)
    case Named(n) => Bit(c.id == n)
    case MayBe(r, n) => Bit(c.ref == r && (c.id == n || c.id < 1))
    case Elsewhere(r, n) => Bit(c.id == n && c.ref != r)
  }

  function Weigh(m: Measure, c: Context): nat {
    WeighSelf(m, c) + WeighDialogs(m, c.dialogs)
  }

  function WeighAll(m: Measure, cs: seq<Context>): nat {
    if cs == [] then 0 else Weigh(m, cs[0]) + WeighAll(m, cs[1..])
  }

  function WeighPubs(m: Measure, ps: seq<Publication>): nat {
    if ps == [] then 0 else Bit(m.Held? && ps[0].last == Some(m.t)) + WeighPubs(m, ps[1..])
  }

  function WeighList(m: Measure, ts: seq<nat>): nat {
    if m.Held? then Count(ts, m.t) else 0
  }

  function Total(m: Measure, s: State): nat {
    WeighAll(m, s.calls) + WeighAll(m, s.subs) + WeighAll(m, s.notifies)
    + WeighPubs(m, s.pubs) + WeighList(m, s.garbage) + WeighList(m, s.released) + WeighList(m, s.lost)
    + (if m.HungUp? then Count(s.hangups, m.r) else 0)
  }

  // ---------------------------------------------------------------- sums over sequences

  lemma CountConcat(a: seq<nat>, b: seq<nat>, t: nat)
    ensures Count(a + b, t) == Count(a, t) + Count(b, t)
  {
    if a == [] { assert a + b == b; }
    else { assert (a + b)[1..] == a[1..] + b; CountConcat(a[1..], b, t); }
  }

  lemma CountReversed(ts: seq<nat>, t: nat)
    ensures Count(Reversed(ts), t) == Count(ts, t)
  {
    if ts != [] { CountReversed(ts[1..], t); CountConcat(Reversed(ts[1..]), [ts[0]], t); }
  }

  lemma CountWithout(ts: seq<nat>, p: nat, t: nat)
    requires p < |ts|
    ensures Count(Without(ts, p), t) + Bit(ts[p] == t) == Count(ts, t)
  {
    CountConcat(ts[..p], ts[p + 1..], t);
    assert ts == ts[..p] + ts[p..] && ts[p..] == [ts[p]] + ts[p + 1..];
    CountConcat(ts[..p], ts[p..], t);
    CountConcat([ts[p]], ts[p + 1..], t);
  }

  lemma WeighDialogsConcat(m: Measure, a: seq<Dialog>, b: seq<Dialog>)
    ensures WeighDialogs(m, a + b) == WeighDialogs(m, a) + WeighDialogs(m, b)
  {
    if a == [] { assert a + b == b; }
    else { assert (a + b)[1..] == a[1..] + b; WeighDialogsConcat(m, a[1..], b); }
  }

  lemma WeighDialogsWithout(m: Measure, ds: seq<Dialog>, j: nat)
    requires j < |ds|
    ensures WeighDialogs(m, Without(ds, j)) + WeighDialog(m, ds[j]) == WeighDialogs(m, ds)
  {
    WeighDialogsConcat(m, ds[..j], ds[j + 1..]);
    assert ds == ds[..j] + ds[j..] && ds[j..] == [ds[j]] + ds[j + 1..];
    WeighDialogsConcat(m, ds[..j], ds[j..]);
  }

  lemma WeighDialogsSet(m: Measure, ds: seq<Dialog>, j: nat, d: Dialog)
    requires j < |ds|
    ensures WeighDialogs(m, ds[j := d]) + WeighDialog(m, ds[j]) == WeighDialogs(m, ds) + WeighDialog(m, d)
  {
    WeighDialogsWithout(m, ds, j);
    WeighDialogsWithout(m, ds[j := d], j);
    assert Without(ds[j := d], j) == Without(ds, j);
  }

  lemma WeighAllConcat(m: Measure, a: seq<Context>, b: seq<Context>)
    ensures WeighAll(m, a + b) == WeighAll(m, a) + WeighAll(m, b)
  {
    if a == [] { assert a + b == b; }
    else { assert (a + b)[1..] == a[1..] + b; WeighAllConcat(m, a[1..], b); }
  }

  lemma WeighAllWithout(m: Measure, cs: seq<Context>, i: nat)
    requires i < |cs|
    ensures WeighAll(m, Without(cs, i)) + Weigh(m, cs[i]) == WeighAll(m, cs)
  {
    WeighAllConcat(m, cs[..i], cs[i + 1..]);
    assert cs == cs[..i] + cs[i..] && cs[i..] == [cs[i]] + cs[i + 1..];
    WeighAllConcat(m, cs[..i], cs[i..]);
  }

  lemma WeighAllSet(m: Measure, cs: seq<Context>, i: nat, c: Context)
    requires i < |cs|
    ensures WeighAll(m, cs[i := c]) + Weigh(m, cs[i]) == WeighAll(m, cs) + Weigh(m, c)
  {
    WeighAllWithout(m, cs, i);
    WeighAllWithout(m, cs[i := c], i);
    assert Without(cs[i := c], i) == Without(cs, i);
  }

  lemma WeighPubsSet(m: Measure, ps: seq<Publication>, i: nat, p: Publication)
    requires i < |ps|
    ensures WeighPubs(m, ps[i := p]) + Bit(m.Held? && ps[i].last == Some(m.t))
            == WeighPubs(m, ps) + Bit(m.Held? && p.last == Some(m.t))
  {
    if i != 0 {
      assert ps[i := p][1..] == ps[1..][i - 1 := p];
      WeighPubsSet(m, ps[1..], i - 1, p);
    }
  }

  // ---------------------------------------------------------------- primitive changes

  lemma TotalAddContext(m: Measure, s: State, k: Kind, c: Context)
    ensures Total(m, AddContext(s, k, c)) == Total(m, s) + Weigh(m, c)
  {
    assert ([c] + List(s, k))[1..] == List(s, k);
  }

  lemma TotalSetContext(m: Measure, s: State, k: Kind, i: nat, c: Context)
    requires i < |List(s, k)|
    ensures Total(m, SetContext(s, k, i, c)) + Weigh(m, List(s, k)[i]) == Total(m, s) + Weigh(m, c)
  {
    WeighAllSet(m, List(s, k), i, c);
  }

  lemma TotalRemoveContext(m: Measure, s: State, k: Kind, i: nat)
    requires i < |List(s, k)|
    ensures Total(m, RemoveContext(s, k, i)) + Weigh(m, List(s, k)[i]) == Total(m, s)
  {
    WeighAllWithout(m, List(s, k), i);
  }

  lemma TotalSetDialog(m: Measure, s: State, k: Kind, i: nat, j: nat, d: Dialog)
    requires HasDialog(s, k, i, j)
    ensures Total(m, SetDialog(s, k, i, j, d)) + WeighDialog(m, DialogAt(s, k, i, j)) == Total(m, s) + WeighDialog(m, d)
  {
    var c := List(s, k)[i];
    TotalSetContext(m, s, k, i, c.(dialogs := c.dialogs[j := d]));
    WeighDialogsSet(m, c.dialogs, j, d);
  }

  lemma TotalRemoveDialog(m: Measure, s: State, k: Kind, i: nat, j: nat)
    requires HasDialog(s, k, i, j)
    ensures Total(m, RemoveDialog(s, k, i, j)) + WeighDialog(m, DialogAt(s, k, i, j)) == Total(m, s)
  {
    var c := List(s, k)[i];
    TotalSetContext(m, s, k, i, c.(dialogs := Without(c.dialogs, j)));
    WeighDialogsWithout(m, c.dialogs, j);
  }

  lemma TotalAddDialog(m: Measure, s: State, k: Kind, i: nat, leg: Leg)
    requires i < |List(s, k)|
    ensures Total(m, AddDialog(s, k, i, leg))
            == Total(m, s) + WeighDialog(m, Dialog(s.nextRef, -1, leg, [], [], 0))
  {
    var c := List(s, k)[i];
    var d := Dialog(s.nextRef, -1, leg, [], [], 0);
    TotalSetContext(m, s, k, i, c.(dialogs := [d] + c.dialogs));
    assert ([d] + c.dialogs)[1..] == c.dialogs;
  }

  lemma TotalDiscard(m: Measure, s: State, t: nat)
    ensures Total(m, Discard(s, t)) == Total(m, s) + Bit(m == Held(t))
  {
    assert ([t] + s.garbage)[1..] == s.garbage;
  }

  // ---------------------------------------------------------------- ids

  /** Ids are positive. */
  predicate Proper(m: Measure) {
    (m.Named? || m.Elsewhere? ==> m.n >= 1) && (m.MayBe? ==> m.id >= 1)
  }

  /** The ids that an update may hand out lie between the counter before and after it. */
  function Slack(m: Measure, lo: int, hi: int): nat {
    Bit((m.Named? || m.Elsewhere?) && lo <= m.n < hi)
  }

  lemma UpdateDialogsWeight(m: Measure, ds: seq<Dialog>, id: int)
    requires Proper(m) && id >= 1
    ensures m.Held? || m.Alive? || m.HungUp? ==> WeighDialogs(m, UpdateDialogs(ds, id).0) == WeighDialogs(m, ds)
    ensures WeighDialogs(m, UpdateDialogs(ds, id).0) <= WeighDialogs(m, ds) + Slack(m, id, UpdateDialogs(ds, id).1)
  {
    if ds != [] {
      var isNew := ds[0].leg != NoLeg && ds[0].id < 1;
      var id' := if isNew then id + 1 else id;
      UpdateDialogsShape(ds[1..], id');
      UpdateDialogsWeight(m, ds[1..], id');
      var u := UpdateDialogs(ds, id).0;
      assert u[1..] == UpdateDialogs(ds[1..], id').0;
    }
  }

  lemma UpdateContextsWeight(m: Measure, cs: seq<Context>, id: int)
    requires Proper(m) && id >= 1
    ensures m.Held? || m.Alive? || m.HungUp? ==> WeighAll(m, UpdateContexts(cs, id).0) == WeighAll(m, cs)
    ensures WeighAll(m, UpdateContexts(cs, id).0) <= WeighAll(m, cs) + Slack(m, id, UpdateContexts(cs, id).1)
  {
    hide UpdateDialogs, WeighDialogs;
    if cs != [] {
      var id0 := if cs[0].id < 1 then id + 1 else id;
      var id1 := UpdateDialogs(cs[0].dialogs, id0).1;
      UpdateDialogsShape(cs[0].dialogs, id0);
      UpdateDialogsWeight(m, cs[0].dialogs, id0);
      UpdateContextsShape(cs[1..], id1);
      UpdateContextsWeight(m, cs[1..], id1);
      var u := UpdateContexts(cs, id).0;
      assert u[1..] == UpdateContexts(cs[1..], id1).0;
    }
  }

  // ---------------------------------------------------------------- what a change may do to a measure

  /** Counters only grow; the id counter starts over only when `wrapped` says so. */
  predicate Grows(s: State, s': State) {
    && s.nextTid <= s'.nextTid
    && s.nextRef <= s'.nextRef
    && s'.staticId >= 1
    && (s.wrapped ==> s'.wrapped)
    && (!s'.wrapped ==> s.staticId <= s'.staticId)
  }

  /** `s'` explains every unit of the measure: a transaction is placed exactly once when it
      is created and never lost; a record is never revived, and is hung up at most as often as
      it lives; an id is never handed out again while the counter has not started over; an id,
      once given, is kept. */
  predicate Accounts(m: Measure, s: State, s': State) {
    Grows(s, s') &&
    match m
    case Held(t) => Total(m, s') == Total(m, s) + Bit(s.nextTid <= t < s'.nextTid)
    case Alive(r) => Total(m, s') <= Total(m, s) + Bit(s.nextRef <= r < s'.nextRef)
    case HungUp(r) => Total(m, s') <= Total(m, s) + Bit(s.nextRef <= r < s'.nextRef)
    case Named(n) => !s'.wrapped ==> Total(m, s') <= Total(m, s) + Slack(m, s.staticId, s'.staticId)
    case MayBe(r, n) => r < s.nextRef ==> Total(m, s') <= Total(m, s)
    case Elsewhere(r, n) => !s'.wrapped ==> Total(m, s') <= Total(m, s) + Slack(m, s.staticId, s'.staticId)
  }

  lemma AccountsTrans(m: Measure, a: State, b: State, c: State)
    requires Accounts(m, a, b) && Accounts(m, b, c)
    ensures Accounts(m, a, c)
  {
  }

  lemma AccountsUpdate(m: Measure, s: State)
    requires Proper(m) && s.staticId >= 1
    ensures Accounts(m, s, Update(s))
  {
    UpdateKeepsShape(s);
    var id0 := if s.staticId > MAX_STATIC_ID then 1 else s.staticId;
    UpdateContextsShape(s.calls, id0);
    UpdateContextsWeight(m, s.calls, id0);
    var id1 := UpdateContexts(s.calls, id0).1;
    UpdateContextsShape(s.subs, id1);
    UpdateContextsWeight(m, s.subs, id1);
    var id2 := UpdateContexts(s.subs, id1).1;
    UpdateContextsShape(s.notifies, id2);
    UpdateContextsWeight(m, s.notifies, id2);
  }

  /** Like `Accounts`, for a teardown that puts `w` transactions back that were in hand. */
  predicate Returns(m: Measure, s: State, s': State, w: nat) {
    && Grows(s, s') && s'.nextTid == s.nextTid && s'.nextRef == s.nextRef
    && (m.Held? ==> Total(m, s') == Total(m, s) + w)
    && (!m.Held? ==> Accounts(m, s, s'))
  }

  lemma ReturnsFreeDialog(m: Measure, s: State, d: Dialog)
    requires Proper(m) && s.staticId >= 1
    ensures Returns(m, s, FreeDialog(s, d), WeighDialog(m, d))
  {
    var s1 := s.(garbage := Reversed(d.out) + Reversed(d.inc) + s.garbage, trs := ForgetAll(s.trs, d.inc + d.out));
    if m.Held? {
      CountConcat(Reversed(d.out) + Reversed(d.inc), s.garbage, m.t);
      CountConcat(Reversed(d.out), Reversed(d.inc), m.t);
      CountReversed(d.out, m.t);
      CountReversed(d.inc, m.t);
    }
    AccountsUpdate(m, s1);
    UpdateKeepsShape(s1);
  }

  lemma ReturnsFreeDialogs(m: Measure, s: State, ds: seq<Dialog>)
    requires Proper(m) && s.staticId >= 1
    ensures Returns(m, s, FreeDialogs(s, ds), WeighDialogs(m, ds))
    decreases |ds|
  {
    if ds != [] {
      var s1 := FreeDialog(s, ds[0]);
      ReturnsFreeDialog(m, s, ds[0]);
      ReturnsFreeDialogs(m, s1, ds[1..]);
    }
  }

  lemma ReturnsDiscardSlot(m: Measure, s: State, slot: Option<nat>)
    requires s.staticId >= 1
    ensures Returns(m, s, DiscardSlot(s, slot), Bit(m.Held? && slot == Some(m.t)))
  {
    if slot.Some? { TotalDiscard(m, SetJinfo(s, slot.value, None), slot.value); }
  }

  lemma ReturnsTrans(m: Measure, a: State, b: State, c: State, w: nat, w': nat)
    requires Returns(m, a, b, w) && Returns(m, b, c, w')
    ensures Returns(m, a, c, w + w')
  {
  }

  lemma ReturnsFreeParts(m: Measure, s: State, c: Context)
    requires Proper(m) && s.staticId >= 1
    ensures Returns(m, s, DiscardSlot(DiscardSlot(FreeDialogs(s, c.dialogs), c.inc), c.out), if m.Held? then Weigh(m, c) else 0)
  {
    var s2 := FreeDialogs(s, c.dialogs);
    var s3 := DiscardSlot(s2, c.inc);
    var s4 := DiscardSlot(s3, c.out);
    ReturnsFreeDialogs(m, s, c.dialogs);
    ReturnsDiscardSlot(m, s2, c.inc);
    ReturnsDiscardSlot(m, s3, c.out);
    var w2, w3, w4 := WeighDialogs(m, c.dialogs), Bit(m.Held? && c.inc == Some(m.t)), Bit(m.Held? && c.out == Some(m.t));
    ReturnsTrans(m, s, s2, s3, w2, w3);
    ReturnsTrans(m, s, s3, s4, w2 + w3, w4);
  }

  lemma AccountsFreeContext(m: Measure, s: State, k: Kind, i: nat)
    requires Proper(m) && s.staticId >= 1 && i < |List(s, k)|
    ensures Accounts(m, s, FreeContext(s, k, i))
  {
    hide Total, Weigh, DiscardSlot, FreeDialogs;
    TotalRemoveContext(m, s, k, i);
    ReturnsFreeParts(m, RemoveContext(s, k, i), List(s, k)[i]);
  }

  lemma AccountsDropDialog(m: Measure, s: State, k: Kind, i: nat, j: nat)
    requires Proper(m) && s.staticId >= 1 && HasDialog(s, k, i, j)
    ensures Accounts(m, s, DropDialog(s, k, i, j))
  {
    TotalRemoveDialog(m, s, k, i, j);
    ReturnsFreeDialog(m, RemoveDialog(s, k, i, j), DialogAt(s, k, i, j));
  }
}
