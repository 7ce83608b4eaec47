/** What every reachable state of the context store keeps besides the accounts: retry
    counters within bounds, and outgoing calls whose initial INVITE, dialog and counters
    stay in step. */
module ContextInvariants {
  import opened Wrappers
  import opened Sequences
  import opened Sip
  import opened ContextStore
  import opened ContextAccounting
  import opened ContextRuns

  // ---------------------------------------------------------------- distinct places

  /** No transaction sits in two places and no two records share an address. */
  ghost predicate Distinct(s: State) {
    && (forall t: nat :: Total(Held(t), s) <= Bit(1 <= t < s.nextTid))
    && (forall r: nat :: Total(Alive(r), s) <= Bit(r < s.nextRef))
    && s.staticId >= 1 && s.nextTid >= 1
  }

  lemma CountZero(ts: seq<nat>, t: nat)
    ensures Count(ts, t) == 0 <==> t !in ts
  {
  }

  lemma WeighDialogsAt(m: Measure, ds: seq<Dialog>, j: nat)
    requires j < |ds|
    ensures WeighDialog(m, ds[j]) <= WeighDialogs(m, ds)
  {
    WeighDialogsWithout(m, ds, j);
  }

  lemma WeighAllAt(m: Measure, cs: seq<Context>, i: nat)
    requires i < |cs|
    ensures Weigh(m, cs[i]) <= WeighAll(m, cs)
  {
    WeighAllWithout(m, cs, i);
  }

  lemma WeighAllTwo(m: Measure, cs: seq<Context>, i: nat, i': nat)
    requires i < i' < |cs|
    ensures Weigh(m, cs[i]) + Weigh(m, cs[i']) <= WeighAll(m, cs)
  {
    WeighAllWithout(m, cs, i);
    assert Without(cs, i)[i' - 1] == cs[i'];
    WeighAllAt(m, Without(cs, i), i' - 1);
  }

  /** The initial INVITE of a call sits nowhere else. */
  lemma OutAlone(s: State, i: nat)
    requires Distinct(s) && i < |s.calls| && s.calls[i].out.Some?
    ensures var o := s.calls[i].out.value;
            && o !in s.garbage && s.calls[i].inc != Some(o)
            && WeighDialogs(Held(o), s.calls[i].dialogs) == 0
            && (forall i' :: 0 <= i' < |s.calls| && i' != i ==> Weigh(Held(o), s.calls[i']) == 0)
            && (forall k: Kind, i' :: k != Call && 0 <= i' < |List(s, k)| ==> Weigh(Held(o), List(s, k)[i']) == 0)
  {
    var m := Held(s.calls[i].out.value);
    WeighAllAt(m, s.calls, i);
    CountZero(s.garbage, m.t);
    forall i' | 0 <= i' < |s.calls| && i' != i ensures Weigh(m, s.calls[i']) == 0 {
      if i < i' { WeighAllTwo(m, s.calls, i, i'); } else { WeighAllTwo(m, s.calls, i', i); }
    }
    forall k: Kind, i' | k != Call && 0 <= i' < |List(s, k)| ensures Weigh(m, List(s, k)[i']) == 0 {
      WeighAllAt(m, List(s, k), i');
    }
  }

  lemma NotIn(t: nat, ds: seq<Dialog>, j: nat)
    requires WeighDialogs(Held(t), ds) == 0 && j < |ds|
    ensures t !in ds[j].inc && t !in ds[j].out
  {
    WeighDialogsAt(Held(t), ds, j);
    CountZero(ds[j].inc, t);
    CountZero(ds[j].out, t);
  }

  lemma RefsDistinct(s: State, i: nat, i': nat)
    requires Distinct(s) && i < |s.calls| && i' < |s.calls| && s.calls[i].ref == s.calls[i'].ref
    ensures i == i'
  {
    var m := Alive(s.calls[i].ref);
    assert Total(m, s) <= 1;
    if i < i' { WeighAllTwo(m, s.calls, i, i'); }
    if i' < i { WeighAllTwo(m, s.calls, i', i); }
  }

  lemma RefBelow(s: State, k: Kind, i: nat)
    requires Distinct(s) && i < |List(s, k)|
    ensures List(s, k)[i].ref < s.nextRef
  {
    WeighAllAt(Alive(List(s, k)[i].ref), List(s, k), i);
    assert Total(Alive(List(s, k)[i].ref), s) >= 1;
  }

  // ---------------------------------------------------------------- the invariant

  predicate RetryOk(c: Context) {
    0 <= c.retry <= MAX_RETRY && forall j :: 0 <= j < |c.dialogs| ==> 0 <= c.dialogs[j].retry <= MAX_RETRY
  }

  predicate RetriesOk(cs: seq<Context>) {
    forall i :: 0 <= i < |cs| ==> RetryOk(cs[i])
  }

  predicate WithoutVerb(trs: map<nat, Transaction>, ts: seq<nat>, verb: Method) {
    forall t :: t in ts ==> t in trs && trs[t].verb != verb
  }

  predicate DialogWithout(trs: map<nat, Transaction>, d: Dialog, verb: Method) {
    WithoutVerb(trs, d.inc, verb) && WithoutVerb(trs, d.out, verb)
  }

  /** A call has one initial INVITE.  For an outgoing call: its transaction knows the only
      dialog; while it is pending no other INVITE exists in that dialog; once it has failed
      the dialog is not early any more; every resend of it is paid for by the retry counter,
      except one that a confirmed dialog pays for.  That exception needs a 2xx within the call
      and, with `strict`, when no SUBSCRIBE is ever sent inside a call, does not occur. */
  predicate CallOk(strict: bool, trs: map<nat, Transaction>, c: Context) {
    && 0 <= c.resent <= c.retry + Bit(!strict && c.success)
    && (c.inc.None? || c.out.None?)
    && (c.inc.Some? ==> c.inc.value in trs && trs[c.inc.value].incoming)
    && (c.out.Some? ==>
          && c.out.value in trs
          && |c.dialogs| <= 1
          && OutOk(strict, trs, trs[c.out.value], c))
  }

  predicate OutOk(strict: bool, trs: map<nat, Transaction>, o: Transaction, c: Context)
    requires |c.dialogs| <= 1
  {
    && o.verb == INVITE && !o.incoming
    && o.jinfo == Some(Jinfo(Call, c.ref, if c.dialogs == [] then None else Some(c.dialogs[0].ref)))
    && (o.phase == Pending ==> o.response < 200)
    && (c.dialogs != [] ==>
          var d := c.dialogs[0];
          && (o.phase == Pending ==> DialogWithout(trs, d, INVITE))
          && (o.response >= 300 ==> d.leg != EarlyLeg)
          && (o.phase == Pending || o.response >= 300 ==> c.resent + Bit(d.leg == ConfirmedLeg) <= c.retry + 1)
          && (strict ==> DialogWithout(trs, d, SUBSCRIBE))
          && ((strict || !c.success) && (o.phase == Pending || o.response >= 300) ==> d.leg != ConfirmedLeg))
  }

  /** A client transaction whose response can create or confirm the dialog of a call. */
  predicate Loose(tr: Transaction) {
    !tr.incoming && tr.phase == Pending && OpensDialog(tr.verb) && tr.jinfo.Some? && tr.jinfo.value.kind == Call
  }

  predicate LinkedTo(t: nat, ji: Jinfo, c: Context) {
    || c.out.None?
    || c.out == Some(t)
    || (ji.dialog.Some? && |c.dialogs| == 1 && t in c.dialogs[0].out)
  }

  ghost predicate Linked(s: State) {
    forall t, i :: t in s.trs && 0 <= i < |s.calls| && Loose(s.trs[t]) && s.trs[t].jinfo.value.ctx == s.calls[i].ref
      ==> LinkedTo(t, s.trs[t].jinfo.value, s.calls[i])
  }

  ghost predicate Solid(strict: bool, s: State) {
    && (forall t :: t in s.trs <==> 1 <= t < s.nextTid)
    && (forall i :: 0 <= i < |s.calls| ==> CallOk(strict, s.trs, s.calls[i]))
    && RetriesOk(s.calls) && RetriesOk(s.subs) && RetriesOk(s.notifies)
    && Linked(s)
    && s.nextTid >= 1
    && (forall t :: t in s.trs && s.trs[t].jinfo.Some? ==> s.trs[t].jinfo.value.ctx < s.nextRef)
  }

  // ---------------------------------------------------------------- moves that keep it

  /** Transactions are only added, and change in progress and jinfo only. */
  predicate Extends(trs: map<nat, Transaction>, trs': map<nat, Transaction>) {
    forall t :: t in trs ==> t in trs' && trs'[t].verb == trs[t].verb && trs'[t].incoming == trs[t].incoming
  }

  /** The record of the call's initial INVITE is the same. */
  predicate Untouched(trs: map<nat, Transaction>, trs': map<nat, Transaction>, c: Context) {
    c.out.Some? && c.out.value in trs ==> c.out.value in trs' && trs'[c.out.value] == trs[c.out.value]
  }

  lemma CallOkFrame(strict: bool, trs: map<nat, Transaction>, trs': map<nat, Transaction>, c: Context, c': Context)
    requires CallOk(strict, trs, c) && SameContext(c, c') && Extends(trs, trs')
    requires Untouched(trs, trs', c)
    ensures CallOk(strict, trs', c')
  {
    if c.out.Some? && c.dialogs != [] { assert SameButIds(c.dialogs[0], c'.dialogs[0]); }
  }

  lemma RetryOkFrame(c: Context, c': Context)
    requires RetryOk(c) && SameContext(c, c')
    ensures RetryOk(c')
  {
    forall j | 0 <= j < |c'.dialogs| ensures 0 <= c'.dialogs[j].retry <= MAX_RETRY {
      assert SameButIds(c.dialogs[j], c'.dialogs[j]);
    }
  }

  lemma RetriesOkFrame(cs: seq<Context>, cs': seq<Context>)
    requires RetriesOk(cs) && SameContexts(cs, cs')
    ensures RetriesOk(cs')
  {
    forall i | 0 <= i < |cs'| ensures RetryOk(cs'[i]) { RetryOkFrame(cs[i], cs'[i]); }
  }

  lemma SolidUpdate(strict: bool, s: State)
    requires Solid(strict, s)
    ensures Solid(strict, Update(s))
  {
    hide Update, CallOk, RetryOk;
    UpdateKeepsShape(s);
    var u := Update(s);
    assert SameContexts(List(s, Call), List(u, Call));
    forall i | 0 <= i < |u.calls| ensures CallOk(strict, u.trs, u.calls[i]) {
      assert SameContext(s.calls[i], u.calls[i]);
      CallOkFrame(strict, s.trs, u.trs, s.calls[i], u.calls[i]);
    }
    RetriesOkFrame(List(s, Call), List(u, Call));
    RetriesOkFrame(List(s, Subscription), List(u, Subscription));
    RetriesOkFrame(List(s, Notification), List(u, Notification));
    forall t, i | t in u.trs && 0 <= i < |u.calls| && Loose(u.trs[t]) && u.trs[t].jinfo.value.ctx == u.calls[i].ref
      ensures LinkedTo(t, u.trs[t].jinfo.value, u.calls[i])
    {
      assert SameContext(s.calls[i], u.calls[i]);
      assert LinkedTo(t, s.trs[t].jinfo.value, s.calls[i]);
      if |s.calls[i].dialogs| == 1 { assert SameButIds(s.calls[i].dialogs[0], u.calls[i].dialogs[0]); }
    }
  }

  /** Only call `i` changes, to `c`; the obligations about it are the caller's. */
  lemma SolidCall(strict: bool, s: State, s': State, i: nat, c: Context)
    requires Solid(strict, s) && Distinct(s) && i < |s.calls|
    requires s'.calls == s.calls[i := c] && s'.subs == s.subs && s'.notifies == s.notifies
    requires s.nextRef <= s'.nextRef && c.ref == s.calls[i].ref && s'.nextTid >= 1
    requires Extends(s.trs, s'.trs) && (forall t :: t in s'.trs <==> 1 <= t < s'.nextTid)
    requires forall i' :: 0 <= i' < |s.calls| && i' != i ==> Untouched(s.trs, s'.trs, s.calls[i'])
    requires CallOk(strict, s'.trs, c) && RetryOk(c)
    requires forall t :: t in s'.trs && Loose(s'.trs[t]) && s'.trs[t].jinfo.value.ctx == c.ref
               ==> LinkedTo(t, s'.trs[t].jinfo.value, c)
    requires forall t :: t in s'.trs && Loose(s'.trs[t]) && s'.trs[t].jinfo.value.ctx != c.ref
               ==> t in s.trs && Loose(s.trs[t]) && s.trs[t].jinfo == s'.trs[t].jinfo
    requires forall t :: t in s'.trs && s'.trs[t].jinfo.Some? ==> s'.trs[t].jinfo.value.ctx < s'.nextRef
    ensures Solid(strict, s')
  {
    hide CallOk, RetryOk, LinkedTo;
    forall i' | 0 <= i' < |s'.calls| ensures CallOk(strict, s'.trs, s'.calls[i']) {
      if i' != i {
        assert SameContext(s.calls[i'], s.calls[i']);
        CallOkFrame(strict, s.trs, s'.trs, s.calls[i'], s.calls[i']);
      }
    }
    forall t, i' | t in s'.trs && 0 <= i' < |s'.calls| && Loose(s'.trs[t]) && s'.trs[t].jinfo.value.ctx == s'.calls[i'].ref
      ensures LinkedTo(t, s'.trs[t].jinfo.value, s'.calls[i'])
    {
      if i' != i && s.calls[i'].ref == c.ref { RefsDistinct(s, i, i'); }
    }
  }

  /** No call changes. */
  lemma SolidElsewhere(strict: bool, s: State, s': State)
    requires Solid(strict, s)
    requires s'.calls == s.calls && s.nextRef <= s'.nextRef
    requires RetriesOk(s'.subs) && RetriesOk(s'.notifies) && s'.nextTid >= 1
    requires Extends(s.trs, s'.trs) && (forall t :: t in s'.trs <==> 1 <= t < s'.nextTid)
    requires forall i :: 0 <= i < |s.calls| ==> Untouched(s.trs, s'.trs, s.calls[i])
    requires forall t :: t in s'.trs && Loose(s'.trs[t]) ==> t in s.trs && Loose(s.trs[t]) && s.trs[t].jinfo == s'.trs[t].jinfo
    requires forall t :: t in s'.trs && s'.trs[t].jinfo.Some? ==> s'.trs[t].jinfo.value.ctx < s'.nextRef
    ensures Solid(strict, s')
  {
    hide CallOk, RetryOk, LinkedTo;
    forall i | 0 <= i < |s'.calls| ensures CallOk(strict, s'.trs, s'.calls[i]) {
      assert SameContext(s.calls[i], s.calls[i]);
      CallOkFrame(strict, s.trs, s'.trs, s.calls[i], s.calls[i]);
    }
  }

  lemma SolidStray(strict: bool, s: State, tr: Transaction)
    requires Solid(strict, s) && tr.jinfo.None?
    ensures Solid(strict, Discard(Launch(s, tr), s.nextTid))
  {
    SolidElsewhere(strict, s, Discard(Launch(s, tr), s.nextTid));
  }

  lemma SolidClearLeg(strict: bool, s: State, k: Kind, i: nat, j: nat)
    requires Solid(strict, s) && Distinct(s) && HasDialog(s, k, i, j)
    ensures Solid(strict, ClearLeg(s, k, i, j))
  {
    var c, d := List(s, k)[i], DialogAt(s, k, i, j);
    var c' := c.(dialogs := c.dialogs[j := d.(leg := NoLeg)]);
    assert RetryOk(c);
    assert 0 <= d.retry <= MAX_RETRY by { RetryOfDialog(c, j); }
    RetryOkSet(c, j, c'.dialogs[j]);
    if k == Call { SolidCall(strict, s, ClearLeg(s, k, i, j), i, c'); }
    else { SolidElsewhere(strict, s, ClearLeg(s, k, i, j)); }
  }

  // ---------------------------------------------------------------- requests in dialogs

  predicate MayCarry(strict: bool, s: State, k: Kind, i: nat, verb: Method)
    requires i < |List(s, k)|
  {
    k == Call && s.calls[i].out.Some? && s.calls[i].out.value in s.trs ==>
      && (verb == INVITE ==> s.trs[s.calls[i].out.value].phase != Pending)
      && (strict ==> verb != SUBSCRIBE)
  }

  lemma RetryOfDialog(c: Context, j: nat)
    requires RetryOk(c) && j < |c.dialogs|
    ensures 0 <= c.dialogs[j].retry <= MAX_RETRY
  {
  }

  lemma RetryOkSet(c: Context, j: nat, d: Dialog)
    requires RetryOk(c) && j < |c.dialogs| && 0 <= d.retry <= MAX_RETRY
    ensures RetryOk(c.(dialogs := c.dialogs[j := d]))
  {
  }

  /** The call once a new transaction `t` joined a list of its dialog `j`. */
  lemma CarriedOk(strict: bool, trs: map<nat, Transaction>, t: nat, tr: Transaction, c: Context, j: nat, d: Dialog)
    requires CallOk(strict, trs, c) && RetryOk(c) && t !in trs && j < |c.dialogs|
    requires d == c.dialogs[j].(out := [t] + c.dialogs[j].out) || d == c.dialogs[j].(inc := [t] + c.dialogs[j].inc)
    requires c.out.Some? ==> (tr.verb == INVITE ==> trs[c.out.value].phase != Pending) && (strict ==> tr.verb != SUBSCRIBE)
    ensures CallOk(strict, trs[t := tr], c.(dialogs := c.dialogs[j := d])) && RetryOk(c.(dialogs := c.dialogs[j := d]))
  {
  }

  lemma CallFacts(strict: bool, s: State, i: nat)
    requires Solid(strict, s) && i < |s.calls|
    ensures CallOk(strict, s.trs, s.calls[i]) && RetryOk(s.calls[i]) && s.nextTid !in s.trs
    ensures s.calls[i].out.Some? ==> s.calls[i].out.value in s.trs
  {
  }

  lemma SolidSendInDialog(strict: bool, s: State, k: Kind, i: nat, j: nat, verb: Method)
    requires Solid(strict, s) && Distinct(s) && HasDialog(s, k, i, j) && MayCarry(strict, s, k, i, verb)
    requires List(s, k)[i].ref < s.nextRef
    ensures Solid(strict, SendInDialog(s, k, i, j, verb))
  {
    hide Distinct, RetryOk, CallOk, Total;
    var c, d := List(s, k)[i], DialogAt(s, k, i, j);
    var s' := SendInDialog(s, k, i, j, verb);
    var d' := d.(out := [s.nextTid] + d.out);
    if k == Call {
      CallFacts(strict, s, i);
      CarriedOk(strict, s.trs, s.nextTid, s'.trs[s.nextTid], c, j, d');
      SolidCall(strict, s, s', i, c.(dialogs := c.dialogs[j := d']));
    } else {
      assert RetryOk(c);
      RetryOfDialog(c, j);
      RetryOkSet(c, j, d');
      SolidElsewhere(strict, s, s');
    }
  }

  lemma SolidReceive(strict: bool, s: State, k: Kind, i: nat, j: nat, tr: Transaction)
    requires Solid(strict, s) && Distinct(s) && HasDialog(s, k, i, j) && MayCarry(strict, s, k, i, tr.verb)
    requires tr.incoming && (tr.jinfo.Some? ==> tr.jinfo.value.ctx < s.nextRef)
    ensures Solid(strict, Receive(s, k, i, j, tr))
  {
    hide Distinct, RetryOk, CallOk, Total;
    var c, d := List(s, k)[i], DialogAt(s, k, i, j);
    var s' := Receive(s, k, i, j, tr);
    var d' := d.(inc := [s.nextTid] + d.inc);
    if k == Call {
      CallFacts(strict, s, i);
      CarriedOk(strict, s.trs, s.nextTid, tr, c, j, d');
      SolidCall(strict, s, s', i, c.(dialogs := c.dialogs[j := d']));
    } else {
      assert RetryOk(c);
      RetryOfDialog(c, j);
      RetryOkSet(c, j, d');
      SolidElsewhere(strict, s, s');
    }
  }

  lemma SolidAcceptInDialog(strict: bool, s: State, k: Kind, i: nat, j: nat, verb: Method, withDialog: bool)
    requires Solid(strict, s) && Distinct(s) && HasDialog(s, k, i, j) && MayCarry(strict, s, k, i, verb)
    requires List(s, k)[i].ref < s.nextRef
    ensures Solid(strict, AcceptInDialog(s, k, i, j, verb, withDialog))
  {
    hide Distinct, Solid, Receive;
    var c, d := List(s, k)[i], DialogAt(s, k, i, j);
    SolidReceive(strict, s, k, i, j, Incoming(s, verb, Some(Jinfo(k, c.ref, if withDialog then Some(d.ref) else None))));
  }

  // ---------------------------------------------------------------- teardown

  predicate OutsAvoid(s: State, ts: seq<nat>) {
    forall i :: 0 <= i < |s.calls| && s.calls[i].out.Some? ==> s.calls[i].out.value !in ts
  }

  lemma SolidForget(strict: bool, s: State, ts: seq<nat>, garbage: seq<nat>)
    requires Solid(strict, s) && OutsAvoid(s, ts)
    ensures Solid(strict, s.(trs := ForgetAll(s.trs, ts), garbage := garbage))
  {
    SolidElsewhere(strict, s, s.(trs := ForgetAll(s.trs, ts), garbage := garbage));
  }

  lemma SolidFreeDialogs(strict: bool, s: State, ds: seq<Dialog>)
    requires Solid(strict, s) && forall j :: 0 <= j < |ds| ==> OutsAvoid(s, ds[j].inc + ds[j].out)
    ensures Solid(strict, FreeDialogs(s, ds))
    ensures |FreeDialogs(s, ds).calls| == |s.calls|
    ensures forall i :: 0 <= i < |s.calls| ==> FreeDialogs(s, ds).calls[i].out == s.calls[i].out
    decreases |ds|
  {
    hide Solid, Update;
    if ds != [] {
      var d := ds[0];
      var s1 := s.(garbage := Reversed(d.out) + Reversed(d.inc) + s.garbage, trs := ForgetAll(s.trs, d.inc + d.out));
      SolidForget(strict, s, d.inc + d.out, s1.garbage);
      SolidUpdate(strict, s1);
      UpdateKeepsShape(s1);
      var s2 := Update(s1);
      assert SameContexts(List(s1, Call), List(s2, Call));
      forall i | 0 <= i < |s.calls| ensures s2.calls[i].out == s.calls[i].out { assert SameContext(s1.calls[i], s2.calls[i]); }
      SolidFreeDialogs(strict, s2, ds[1..]);
    }
  }

  lemma SolidDiscardSlot(strict: bool, s: State, slot: Option<nat>)
    requires Solid(strict, s) && (slot.Some? ==> OutsAvoid(s, [slot.value]))
    ensures Solid(strict, DiscardSlot(s, slot))
  {
    if slot.Some? {
      forall i | 0 <= i < |s.calls| ensures Untouched(s.trs, DiscardSlot(s, slot).trs, s.calls[i]) {
        if s.calls[i].out.Some? { assert s.calls[i].out.value !in [slot.value]; assert slot.value in [slot.value]; }
      }
      SolidElsewhere(strict, s, DiscardSlot(s, slot));
    }
  }

  lemma SolidRemoveContext(strict: bool, s: State, k: Kind, i: nat)
    requires Solid(strict, s) && i < |List(s, k)|
    ensures Solid(strict, RemoveContext(s, k, i))
  {
    hide CallOk, RetryOk, LinkedTo;
    var s' := RemoveContext(s, k, i);
    forall x | 0 <= x < |List(s', k)| ensures RetryOk(List(s', k)[x]) {
      assert List(s', k)[x] == List(s, k)[if x < i then x else x + 1];
    }
    if k == Call {
      forall x | 0 <= x < |s'.calls| ensures CallOk(strict, s'.trs, s'.calls[x]) {
        assert s'.calls[x] == s.calls[if x < i then x else x + 1];
      }
      forall t, x | t in s'.trs && 0 <= x < |s'.calls| && Loose(s'.trs[t]) && s'.trs[t].jinfo.value.ctx == s'.calls[x].ref
        ensures LinkedTo(t, s'.trs[t].jinfo.value, s'.calls[x])
      {
        assert s'.calls[x] == s.calls[if x < i then x else x + 1];
      }
    }
  }

  /** The transactions of a context are nobody's initial INVITE once the context is gone. */
  lemma OutsAvoidContext(s: State, k: Kind, i: nat, t: nat)
    requires Distinct(s) && i < |List(s, k)| && Weigh(Held(t), List(s, k)[i]) > 0
    ensures OutsAvoid(RemoveContext(s, k, i), [t])
  {
    var s' := RemoveContext(s, k, i);
    forall x | 0 <= x < |s'.calls| && s'.calls[x].out.Some? ensures s'.calls[x].out.value !in [t] {
      var y := if k == Call && x >= i then x + 1 else x;
      assert s'.calls[x] == s.calls[y];
      if s.calls[y].out == Some(t) {
        OutAlone(s, y);
        assert false;
      }
    }
  }

  lemma SolidFreeContext(strict: bool, s: State, k: Kind, i: nat)
    requires Solid(strict, s) && Distinct(s) && i < |List(s, k)|
    ensures Solid(strict, FreeContext(s, k, i))
  {
    hide Solid, Distinct, FreeDialogs, Total;
    var c := List(s, k)[i];
    var s1 := RemoveContext(s, k, i);
    SolidRemoveContext(strict, s, k, i);
    forall j | 0 <= j < |c.dialogs| ensures OutsAvoid(s1, c.dialogs[j].inc + c.dialogs[j].out) {
      forall x | 0 <= x < |s1.calls| && s1.calls[x].out.Some?
        ensures s1.calls[x].out.value !in c.dialogs[j].inc + c.dialogs[j].out
      {
        var t := s1.calls[x].out.value;
        if t in c.dialogs[j].inc + c.dialogs[j].out {
          WeighDialogsAt(Held(t), c.dialogs, j);
          CountZero(c.dialogs[j].inc, t);
          CountZero(c.dialogs[j].out, t);
          OutsAvoidContext(s, k, i, t);
        }
      }
    }
    var s2 := FreeDialogs(s1, c.dialogs);
    SolidFreeDialogs(strict, s1, c.dialogs);
    if c.inc.Some? { OutsAvoidContext(s, k, i, c.inc.value); }
    if c.out.Some? { OutsAvoidContext(s, k, i, c.out.value); }
    SolidDiscardSlot(strict, s2, c.inc);
    SolidDiscardSlot(strict, DiscardSlot(s2, c.inc), c.out);
  }

  lemma OutElsewhere(s: State, i: nat, x: nat)
    requires Distinct(s) && i < |s.calls| && x < |s.calls| && i != x && s.calls[x].out.Some?
    ensures s.calls[i].inc != s.calls[x].out && s.calls[i].out != s.calls[x].out
  {
    OutAlone(s, x);
    assert Weigh(Held(s.calls[x].out.value), s.calls[i]) == 0;
  }

  lemma OutsAvoidDialog(s: State, i: nat, j: nat, x: nat)
    requires Distinct(s) && HasDialog(s, Call, i, j) && x < |s.calls| && s.calls[x].out.Some?
    ensures s.calls[x].out.value !in s.calls[i].dialogs[j].inc + s.calls[i].dialogs[j].out
  {
    OutAlone(s, x);
    NotIn(s.calls[x].out.value, s.calls[i].dialogs, j);
  }

  /** How the transactions change when dialog `d` leaves call `c`: those of the dialog forget
      it, and so does an initial INVITE that knew it; the others stay as they are. */
  predicate DialogForgotten(trs: map<nat, Transaction>, trs': map<nat, Transaction>, c: Context, d: Dialog) {
    && trs'.Keys == trs.Keys
    && (forall t :: t in trs && t in d.inc + d.out ==> trs'[t] == trs[t].(jinfo := None))
    && (forall t :: t in trs && t !in d.inc + d.out && c.inc != Some(t) && c.out != Some(t) ==> trs'[t] == trs[t])
    && (forall t :: t in trs && t !in d.inc + d.out ==>
          && trs'[t] == trs[t].(jinfo := trs'[t].jinfo)
          && (trs'[t].jinfo.Some? ==> trs[t].jinfo.Some? && trs'[t].jinfo.value.ctx == trs[t].jinfo.value.ctx))
    && (forall t :: t in trs && t !in d.inc + d.out && c.out == Some(t) && c.inc.None? && trs[t].jinfo.Some?
          ==> trs'[t].jinfo == if trs[t].jinfo.value.dialog == Some(d.ref)
                               then Some(trs[t].jinfo.value.(dialog := None)) else trs[t].jinfo)
  }

  /** The jinfo of one transaction after a slot was unlinked from a dialog. */
  function Unlinked(jinfo: Option<Jinfo>, ref: nat): Option<Jinfo> {
    if jinfo.Some? && jinfo.value.dialog == Some(ref) then Some(jinfo.value.(dialog := None)) else jinfo
  }

  lemma UnlinkTrs(s: State, slot: Option<nat>, ref: nat)
    ensures Unlink(s, slot, ref).trs.Keys == s.trs.Keys
    ensures forall t :: t in s.trs ==>
              Unlink(s, slot, ref).trs[t] == if slot == Some(t) then s.trs[t].(jinfo := Unlinked(s.trs[t].jinfo, ref)) else s.trs[t]
  {
  }

  lemma ForgottenByRelease(s: State, c: Context, d: Dialog)
    ensures DialogForgotten(s.trs, ForgetAll(Unlink(Unlink(s, c.inc, d.ref), c.out, d.ref).trs, d.inc + d.out), c, d)
  {
    hide Unlink, ForgetAll, DialogForgotten, Unlinked;
    UnlinkTrs(s, c.inc, d.ref);
    var s1 := Unlink(s, c.inc, d.ref);
    UnlinkTrs(s1, c.out, d.ref);
    ForgetTrs(Unlink(s1, c.out, d.ref).trs, d.inc + d.out);
    UnlinkedTwice(s.trs, ForgetAll(Unlink(s1, c.out, d.ref).trs, d.inc + d.out), c, d);
  }

  lemma UnlinkedTwice(trs: map<nat, Transaction>, trs': map<nat, Transaction>, c: Context, d: Dialog)
    requires trs'.Keys == trs.Keys
    requires forall t :: t in trs && t in d.inc + d.out ==> trs'[t] == trs[t].(jinfo := None)
    requires forall t :: t in trs && t !in d.inc + d.out ==>
               var j := if c.inc == Some(t) then Unlinked(trs[t].jinfo, d.ref) else trs[t].jinfo;
               trs'[t] == trs[t].(jinfo := if c.out == Some(t) then Unlinked(j, d.ref) else j)
    ensures DialogForgotten(trs, trs', c, d)
  {
  }

  lemma ForgetTrs(trs: map<nat, Transaction>, ts: seq<nat>)
    ensures ForgetAll(trs, ts).Keys == trs.Keys
    ensures forall t :: t in trs ==> ForgetAll(trs, ts)[t] == if t in ts then trs[t].(jinfo := None) else trs[t]
  {
  }

  /** The call without its dialog `j`. */
  lemma GoneOk(strict: bool, trs: map<nat, Transaction>, trs': map<nat, Transaction>, c: Context, j: nat)
    requires CallOk(strict, trs, c) && RetryOk(c) && j < |c.dialogs| && DialogForgotten(trs, trs', c, c.dialogs[j])
    requires c.out.Some? ==> c.out.value !in c.dialogs[j].inc + c.dialogs[j].out
    ensures CallOk(strict, trs', c.(dialogs := Without(c.dialogs, j))) && RetryOk(c.(dialogs := Without(c.dialogs, j)))
  {
    var ds := Without(c.dialogs, j);
    forall x | 0 <= x < |ds| ensures 0 <= ds[x].retry <= MAX_RETRY { assert ds[x] == c.dialogs[if x < j then x else x + 1]; }
  }

  lemma SolidDialogGone(strict: bool, s: State, s': State, i: nat, j: nat)
    requires Solid(strict, s) && Distinct(s) && HasDialog(s, Call, i, j)
    requires s'.calls == s.calls[i := s.calls[i].(dialogs := Without(s.calls[i].dialogs, j))]
    requires s'.subs == s.subs && s'.notifies == s.notifies && s'.nextRef == s.nextRef && s'.nextTid == s.nextTid
    requires DialogForgotten(s.trs, s'.trs, s.calls[i], s.calls[i].dialogs[j])
    ensures Solid(strict, s')
  {
    hide Distinct, Total, Weigh, WeighDialogs, CallOk, RetryOk;
    var c, d := s.calls[i], s.calls[i].dialogs[j];
    CallFacts(strict, s, i);
    forall x | 0 <= x < |s.calls| && s.calls[x].out.Some?
      ensures s.calls[x].out.value !in d.inc + d.out && (x != i ==> Untouched(s.trs, s'.trs, s.calls[x]))
    {
      OutsAvoidDialog(s, i, j, x);
      if x != i { OutElsewhere(s, i, x); }
    }
    GoneOk(strict, s.trs, s'.trs, c, j);
    if c.out.Some? { SlotFacts(strict, s, i); }
    SolidCall(strict, s, s', i, c.(dialogs := Without(c.dialogs, j)));
  }

  lemma SolidReleaseDialog(strict: bool, s: State, i: nat, j: nat)
    requires Solid(strict, s) && Distinct(s) && HasDialog(s, Call, i, j)
    ensures Solid(strict, ReleaseDialog(s, i, j))
  {
    hide Distinct, Solid, Update, Reversed, DialogForgotten;
    var c, d := s.calls[i], s.calls[i].dialogs[j];
    var s1 := RemoveDialog(Unlink(Unlink(s, c.inc, d.ref), c.out, d.ref), Call, i, j);
    var s2 := s1.(garbage := Reversed(d.out) + Reversed(d.inc) + s1.garbage, trs := ForgetAll(s1.trs, d.inc + d.out));
    ForgottenByRelease(s, c, d);
    SolidDialogGone(strict, s, s2, i, j);
    SolidUpdate(strict, s2);
  }

  // ---------------------------------------------------------------- resending

  lemma DistinctAfter(s: State, s': State)
    requires Distinct(s)
    requires forall t: nat :: Accounts(Held(t), s, s')
    requires forall r: nat :: Accounts(Alive(r), s, s')
    ensures Distinct(s')
  {
    hide Total;
    forall t: nat ensures Total(Held(t), s') <= Bit(1 <= t < s'.nextTid) { assert Accounts(Held(t), s, s'); }
    forall r: nat ensures Total(Alive(r), s') <= Bit(r < s'.nextRef) { assert Accounts(Alive(r), s, s'); }
    assert Accounts(Held(0), s, s');
  }

  /** The slot of the initial INVITE, whose transaction failed, is taken by a new one; the
      dialog goes with it.  `c` is the call with its counters already advanced. */
  lemma SolidReplaceOut(strict: bool, s: State, s': State, i: nat, c: Context, tr: Transaction, ts: seq<nat>)
    requires Solid(strict, s) && Distinct(s) && i < |s.calls|
    requires s.calls[i].out.Some? && s.trs[s.calls[i].out.value].phase != Pending
    requires c == s.calls[i].(retry := c.retry, resent := c.resent, dialogs := [])
    requires 0 <= c.retry <= MAX_RETRY && 0 <= c.resent <= c.retry + Bit(!strict && c.success)
    requires tr == Transaction(INVITE, false, Pending, 0, tr.birth, Some(Jinfo(Call, c.ref, None)))
    requires s'.calls == s.calls[i := c.(out := Some(s.nextTid))]
    requires s'.subs == s.subs && s'.notifies == s.notifies && s'.nextRef == s.nextRef && s'.nextTid == s.nextTid + 1
    requires s'.trs == ForgetAll(s.trs[s.nextTid := tr], ts) && s.nextTid !in ts
    requires if s.calls[i].dialogs == [] then ts == [] else ts == s.calls[i].dialogs[0].inc + s.calls[i].dialogs[0].out
    ensures Solid(strict, s')
  {
    hide Distinct, Total, Weigh, WeighDialogs, CallOk, RetryOk;
    CallFacts(strict, s, i);
    SlotFacts(strict, s, i);
    RefBelow(s, Call, i);
    forall x | 0 <= x < |s.calls| && s.calls[x].out.Some?
      ensures s.calls[x].out.value !in ts && (x != i ==> Untouched(s.trs, s'.trs, s.calls[x]))
    {
      if s.calls[i].dialogs != [] { OutsAvoidDialog(s, i, 0, x); }
    }
    ReplacedOk(strict, s'.trs, c.(out := Some(s.nextTid)));
    SolidCall(strict, s, s', i, c.(out := Some(s.nextTid)));
  }

  lemma ReplacedOk(strict: bool, trs: map<nat, Transaction>, c: Context)
    requires c.dialogs == [] && c.inc.None? && c.out.Some? && c.out.value in trs
    requires trs[c.out.value] == Transaction(INVITE, false, Pending, 0, trs[c.out.value].birth, Some(Jinfo(Call, c.ref, None)))
    requires 0 <= c.retry <= MAX_RETRY && 0 <= c.resent <= c.retry + Bit(!strict && c.success)
    ensures CallOk(strict, trs, c) && RetryOk(c)
  {
  }

  lemma NextTidFresh(s: State, i: nat, j: nat)
    requires Distinct(s) && HasDialog(s, Call, i, j)
    ensures s.nextTid !in s.calls[i].dialogs[j].inc + s.calls[i].dialogs[j].out
  {
    var m := Held(s.nextTid);
    assert Total(m, s) == 0;
    WeighAllAt(m, s.calls, i);
    NotIn(s.nextTid, s.calls[i].dialogs, j);
  }

  /** A call that differs from `c` in its counters only. */
  predicate Recounted(c: Context, c': Context) {
    && c' == c.(retry := c'.retry, resent := c'.resent, success := c'.success, dialogs := c'.dialogs)
    && |c'.dialogs| == |c.dialogs|
    && forall j :: 0 <= j < |c.dialogs| ==> c'.dialogs[j] == c.dialogs[j].(retry := c'.dialogs[j].retry)
  }

  /** The initial INVITE is resent, from the state in which call `i` was recounted to `c`. */
  lemma SolidResendInitial(strict: bool, s: State, i: nat, c: Context, jd: Option<nat>, t: nat)
    requires Solid(strict, s) && Distinct(s) && t in s.trs && s.trs[t].response >= 300
    requires i < |s.calls| && s.calls[i].out == Some(t) && Recounted(s.calls[i], c)
    requires 0 <= c.retry <= MAX_RETRY && 0 <= c.resent <= c.retry + Bit(!strict && c.success)
    requires c.success == s.calls[i].success
    requires jd == if c.dialogs == [] then None else Some(0)
    ensures Solid(strict, CallResend(s.(calls := s.calls[i := c]), i, jd, t))
  {
    hide Distinct, Solid, CallOk, Update, Reversed, Total, Weigh, WeighDialogs;
    var sc := s.(calls := s.calls[i := c]);
    assert s.trs[t].verb == INVITE && s.trs[t].phase != Pending && |c.dialogs| <= 1 by { SlotFacts(strict, s, i); }
    var tr := Outgoing(s, INVITE, Some(Jinfo(Call, c.ref, None)));
    var s1 := Discard(Launch(sc, tr), t);
    var s2 := SetContext(s1, Call, i, c.(out := Some(s.nextTid)));
    if c.dialogs == [] {
      assert ForgetAll(s2.trs, []) == s2.trs;
      SolidReplaceOut(strict, s, s2, i, c, tr, []);
      SolidUpdate(strict, s2);
    } else {
      var d := c.dialogs[0];
      var s3 := RemoveDialog(s2, Call, i, 0);
      var s4 := s3.(garbage := Reversed(d.out) + Reversed(d.inc) + s3.garbage, trs := ForgetAll(s3.trs, d.inc + d.out));
      NextTidFresh(s, i, 0);
      assert Without(c.dialogs, 0) == [];
      SolidReplaceOut(strict, s, s4, i, c.(dialogs := []), tr, d.inc + d.out);
      SolidUpdate(strict, s4);
      SolidUpdate(strict, Update(s4));
    }
  }

  lemma SlotFacts(strict: bool, s: State, i: nat)
    requires Solid(strict, s) && i < |s.calls| && s.calls[i].out.Some?
    ensures |s.calls[i].dialogs| <= 1 && s.calls[i].inc.None?
    ensures s.calls[i].out.value in s.trs && OutOk(strict, s.trs, s.trs[s.calls[i].out.value], s.calls[i])
  {
    assert CallOk(strict, s.trs, s.calls[i]);
  }

  lemma SolidResendInDialog(strict: bool, s: State, i: nat, jd: Option<nat>, t: nat)
    requires Solid(strict, s) && Distinct(s) && t in s.trs
    requires i < |s.calls| && (jd.Some? ==> jd.value < |s.calls[i].dialogs|)
    requires Owns(s.calls[i], t) && s.calls[i].out != Some(t)
    ensures Solid(strict, CallResend(s, i, jd, t))
  {
    hide Distinct, Update, Total, Weigh, WeighDialogs;
    var c := s.calls[i];
    if jd.Some? {
      RefBelow(s, Call, i);
      if c.out.Some? {
        SlotFacts(strict, s, i);
        assert t in c.dialogs[0].inc || t in c.dialogs[0].out;
      }
      SolidSendInDialog(strict, s, Call, i, jd.value, s.trs[t].verb);
      SolidUpdate(strict, SendInDialog(s, Call, i, jd.value, s.trs[t].verb));
    }
  }

  /** What FindTransaction reports for a transaction in a slot. */
  lemma FoundInSlot(cs: seq<Context>, t: nat)
    requires FindTransaction(cs, t).Some?
    ensures var (i, jd) := FindTransaction(cs, t).value;
            cs[i].inc == Some(t) || cs[i].out == Some(t) ==> jd == if cs[i].dialogs == [] then None else Some(0)
  {
    if cs[0].inc != Some(t) && cs[0].out != Some(t) && HolderOf(cs[0].dialogs, t).None? { FoundInSlot(cs[1..], t); }
  }

  /** Advancing a counter of call `i`, without a resend of its initial INVITE, is harmless. */
  lemma SolidRecount(strict: bool, s: State, i: nat, c: Context)
    requires Solid(strict, s) && Distinct(s) && i < |s.calls| && Recounted(s.calls[i], c) && RetryOk(c)
    requires c.resent == s.calls[i].resent && c.retry >= s.calls[i].retry && c.success == s.calls[i].success
    ensures Solid(strict, s.(calls := s.calls[i := c])) && Distinct(s.(calls := s.calls[i := c]))
  {
    var s' := s.(calls := s.calls[i := c]);
    assert CallOk(strict, s.trs, s.calls[i]);
    SolidCall(strict, s, s', i, c);
    forall m: Measure ensures Accounts(m, s, s') {
      WeighRecounted(m, s.calls[i].dialogs, c.dialogs);
      AccountsSetContext(m, s, Call, i, c);
    }
    DistinctAfter(s, s');
  }

  lemma WeighRecounted(m: Measure, ds: seq<Dialog>, ds': seq<Dialog>)
    requires |ds'| == |ds| && forall j :: 0 <= j < |ds| ==> ds'[j] == ds[j].(retry := ds'[j].retry)
    ensures WeighDialogs(m, ds') == WeighDialogs(m, ds)
  {
    if ds != [] { WeighRecounted(m, ds[1..], ds'[1..]); }
  }

  lemma SolidRetryCall(strict: bool, s: State, t: nat)
    requires Solid(strict, s) && Distinct(s) && t in s.trs && Challenge(s.trs[t].response)
    ensures Solid(strict, RetryCall(s, t))
  {
    hide Distinct, Solid, CallResend, Total, Weigh, WeighDialogs, CallOk, FindTransaction, HolderOf, RetryOk;
    match FindTransaction(s.calls, t)
    case None =>
    case Some((i, jd)) =>
      FoundInSlot(s.calls, t);
      var c := s.calls[i];
      var initial := c.out == Some(t);
      var live := jd.Some? && c.dialogs[jd.value].leg != NoLeg;
      CountersOk(strict, s, i);
      if (if live then c.dialogs[jd.value].retry else c.retry) < MAX_RETRY {
        var c1 := if live then c.(dialogs := c.dialogs[jd.value := c.dialogs[jd.value].(retry := c.dialogs[jd.value].retry + 1)])
                  else c.(retry := c.retry + 1);
        if initial {
          var c2 := c1.(resent := c.resent + 1);
          assert s.calls[i := c1][i := c2] == s.calls[i := c2];
          SlotFacts(strict, s, i);
          SolidResendInitial(strict, s, i, c2, jd, t);
        } else {
          SolidRecount(strict, s, i, c1);
          assert Owns(c1, t) by { HolderRecounted(c.dialogs, c1.dialogs, t); }
          SolidResendInDialog(strict, s.(calls := s.calls[i := c1]), i, jd, t);
        }
      }
  }

  lemma CountersOk(strict: bool, s: State, i: nat)
    requires Solid(strict, s) && i < |s.calls|
    ensures RetryOk(s.calls[i]) && 0 <= s.calls[i].resent <= s.calls[i].retry + Bit(!strict && s.calls[i].success)
  {
    assert CallOk(strict, s.trs, s.calls[i]);
  }

  lemma HolderRecounted(ds: seq<Dialog>, ds': seq<Dialog>, t: nat)
    requires |ds'| == |ds| && forall j :: 0 <= j < |ds| ==> ds'[j] == ds[j].(retry := ds'[j].retry)
    ensures HolderOf(ds', t) == HolderOf(ds, t)
  {
    if ds != [] { HolderRecounted(ds[1..], ds'[1..], t); }
  }

  // ---------------------------------------------------------------- responses

  /** Progress of a transaction that is no call's initial INVITE. */
  lemma SolidProgress(strict: bool, s: State, t: nat, phase: Phase, code: nat)
    requires Solid(strict, s) && t in s.trs && OutsAvoid(s, [t])
    requires phase == Pending ==> s.trs[t].phase == Pending
    ensures Solid(strict, SetProgress(s, t, phase, code))
  {
    forall i | 0 <= i < |s.calls| ensures Untouched(s.trs, SetProgress(s, t, phase, code).trs, s.calls[i]) {
      if s.calls[i].out.Some? { assert s.calls[i].out.value !in [t]; assert t in [t]; }
    }
    SolidElsewhere(strict, s, SetProgress(s, t, phase, code));
  }

  /** A new dialog for a call that has none, or that is not an outgoing one. */
  lemma SolidStartDialog(strict: bool, s: State, t: nat, i: nat, ji: Jinfo, leg: Leg)
    requires Solid(strict, s) && Distinct(s) && t in s.trs && s.trs[t].jinfo == Some(ji)
    requires ji.kind == Call && ji.dialog.None? && i < |s.calls| && s.calls[i].ref == ji.ctx && leg != NoLeg
    requires s.calls[i].out.None? || s.calls[i].out == Some(t)
    requires s.calls[i].out.Some? && leg == ConfirmedLeg ==> s.trs[t].phase != Pending && s.trs[t].response < 300
    requires s.calls[i].out.Some? ==> s.trs[t].response < 300 && s.calls[i].resent <= s.calls[i].retry + Bit(!strict && s.calls[i].success)
    ensures Solid(strict, StartDialog(s, t, i, ji, leg))
  {
    hide Distinct, Update, Total, Weigh, WeighDialogs;
    var c := s.calls[i];
    var s1 := SetJinfo(AddDialog(s, Call, i, leg), t, Some(ji.(dialog := Some(s.nextRef))));
    var c' := c.(dialogs := [Dialog(s.nextRef, -1, leg, [], [], 0)] + c.dialogs);
    assert CallOk(strict, s.trs, c) && RetryOk(c);
    forall x | 0 <= x < |c'.dialogs| ensures 0 <= c'.dialogs[x].retry <= MAX_RETRY {
      assert x > 0 ==> c'.dialogs[x] == c.dialogs[x - 1];
    }
    forall x | 0 <= x < |s.calls| && x != i ensures Untouched(s.trs, s1.trs, s.calls[x]) {
      if s.calls[x].out.Some? {
        SlotFacts(strict, s, x);
        if s.calls[x].out.value == t { RefsDistinct(s, x, i); }
      }
    }
    SolidCall(strict, s, s1, i, c');
    SolidUpdate(strict, s1);
  }

  lemma DistinctResetRetries(s: State, i: nat, ji: Jinfo)
    requires Distinct(s) && i < |List(s, ji.kind)|
    ensures Distinct(ResetRetries(s, i, ji))
  {
    hide ResetRetries, Total;
    forall m: Measure ensures Accounts(m, s, ResetRetries(s, i, ji)) { AccountsResetRetries(m, s, i, ji); }
    DistinctAfter(s, ResetRetries(s, i, ji));
  }

  /** The context after a 2xx reset its counters. */
  function Reset(c: Context, kind: Kind, jd: Option<nat>): Context
    requires jd.Some? ==> jd.value < |c.dialogs|
  {
    var c1 := if kind == Notification then c else c.(retry := 0, resent := 0, success := true);
    if jd.Some? then c1.(dialogs := c.dialogs[jd.value := c.dialogs[jd.value].(retry := 0)]) else c1
  }

  lemma ResetOk(strict: bool, trs: map<nat, Transaction>, c: Context, kind: Kind, jd: Option<nat>)
    requires RetryOk(c) && (jd.Some? ==> jd.value < |c.dialogs|)
    ensures RetryOk(Reset(c, kind, jd))
    ensures kind == Call && CallOk(strict, trs, c) ==> CallOk(strict, trs, Reset(c, kind, jd))
  {
    var c' := Reset(c, kind, jd);
    forall x | 0 <= x < |c'.dialogs| ensures 0 <= c'.dialogs[x].retry <= MAX_RETRY { assert 0 <= c.dialogs[x].retry <= MAX_RETRY; }
  }

  lemma SolidResetRetries(strict: bool, s: State, i: nat, ji: Jinfo)
    requires Solid(strict, s) && Distinct(s) && i < |List(s, ji.kind)|
    ensures Solid(strict, ResetRetries(s, i, ji)) && Distinct(ResetRetries(s, i, ji))
  {
    hide Distinct, Total, RetryOk, CallOk, FindDialogRef;
    DistinctResetRetries(s, i, ji);
    var s' := ResetRetries(s, i, ji);
    var c := List(s, ji.kind)[i];
    var jd := if ji.dialog.Some? then FindDialogRef(c.dialogs, ji.dialog.value) else None;
    assert RetryOk(c);
    ResetOk(strict, s.trs, c, ji.kind, jd);
    if ji.kind == Call {
      CallFacts(strict, s, i);
      SolidCall(strict, s, s', i, Reset(c, Call, jd));
    } else {
      SolidElsewhere(strict, s, s');
    }
  }

  lemma DistinctTouch(s: State, s': State)
    requires Distinct(s) && s' == s.(trs := s'.trs, now := s'.now)
    ensures Distinct(s')
  {
    forall m: Measure ensures Accounts(m, s, s') { AccountsTouch(m, s, s'); }
    DistinctAfter(s, s');
  }

  lemma FindRefOf(s: State, i: nat)
    requires Distinct(s) && i < |s.calls|
    ensures FindRef(s.calls, s.calls[i].ref) == Some(i)
  {
    RefsDistinct(s, i, FindRef(s.calls, s.calls[i].ref).value);
  }

  /** Progress of the initial INVITE of call `i` short of a failure. */
  lemma SolidInitialProgress(strict: bool, s: State, i: nat, code: nat)
    requires Solid(strict, s) && Distinct(s) && i < |s.calls| && s.calls[i].out.Some? && 100 <= code < 300
    requires s.trs[s.calls[i].out.value].phase == Pending
    ensures var s1 := SetProgress(s, s.calls[i].out.value, ClientPhase(INVITE, code), code);
            Solid(strict, s1) && Distinct(s1)
  {
    hide Distinct, Total, Weigh, WeighDialogs;
    var t := s.calls[i].out.value;
    var s1 := SetProgress(s, t, ClientPhase(INVITE, code), code);
    SlotFacts(strict, s, i);
    assert CallOk(strict, s.trs, s.calls[i]) && RetryOk(s.calls[i]);
    forall x | 0 <= x < |s.calls| && x != i && s.calls[x].out.Some? ensures Untouched(s.trs, s1.trs, s.calls[x]) {
      OutElsewhere(s, i, x);
    }
    SolidCall(strict, s, s1, i, s.calls[i]);
    DistinctTouch(s, s1);
  }

  /** The call after its initial INVITE failed: the early dialog is dead. */
  function Failed(c: Context): Context {
    if c.dialogs != [] && c.dialogs[0].leg == EarlyLeg
    then c.(dialogs := c.dialogs[0 := c.dialogs[0].(leg := NoLeg)]) else c
  }

  lemma FailedCallOk(strict: bool, trs: map<nat, Transaction>, c: Context, code: nat)
    requires CallOk(strict, trs, c) && RetryOk(c) && c.out.Some? && trs[c.out.value].phase == Pending && 300 <= code < 700
    ensures var t := c.out.value;
            CallOk(strict, trs[t := trs[t].(phase := Completed, response := code)], Failed(c)) && RetryOk(Failed(c))
  {
  }

  lemma SolidInitialFailure(strict: bool, s: State, i: nat, code: nat)
    requires Solid(strict, s) && Distinct(s) && i < |s.calls| && s.calls[i].out.Some? && 300 <= code < 700
    requires s.trs[s.calls[i].out.value].phase == Pending && s.trs[s.calls[i].out.value].jinfo.Some?
    ensures var t := s.calls[i].out.value;
            var s1 := SetProgress(s, t, Completed, code);
            Solid(strict, OnFailure(s1, t, i, s.trs[t].jinfo.value))
  {
    hide Distinct, Total, Weigh, WeighDialogs, Update, FindDialogRef, CallOk, RetryOk;
    SlotFacts(strict, s, i);
    var t := s.calls[i].out.value;
    var s1 := SetProgress(s, t, Completed, code);
    var c := s.calls[i];
    var early := c.dialogs != [] && c.dialogs[0].leg == EarlyLeg;
    var s2 := if early then ClearLeg(s1, Call, i, 0) else s1;
    forall x | 0 <= x < |s.calls| && x != i && s.calls[x].out.Some? ensures Untouched(s.trs, s2.trs, s.calls[x]) {
      OutElsewhere(s, i, x);
    }
    FailedCallOk(strict, s.trs, c, code);
    SolidCall(strict, s, s2, i, Failed(c));
    SolidUpdate(strict, s2);
    if c.dialogs != [] { assert FindDialogRef(c.dialogs, c.dialogs[0].ref) == Some(0); }
  }

  /** A 2xx confirms dialog `j` of call `i`, which may be the answer to its initial INVITE. */
  lemma SolidConfirm(strict: bool, s: State, t: nat, i: nat, j: nat, ji: Jinfo, leg: Leg)
    requires Solid(strict, s) && Distinct(s) && HasDialog(s, Call, i, j) && t in s.trs && s.trs[t].jinfo == Some(ji)
    requires ji.kind == Call && ji.ctx == s.calls[i].ref && ji.dialog == Some(s.calls[i].dialogs[j].ref)
    requires s.calls[i].dialogs[j].leg == NoLeg ==> leg == NoLeg
    requires s.calls[i].out.Some? ==>
               var o := s.trs[s.calls[i].out.value];
               && s.calls[i].resent == 0
               && ((strict || !s.calls[i].success) && (o.phase == Pending || o.response >= 300) ==> leg != ConfirmedLeg)
               && (o.response >= 300 ==> leg != EarlyLeg)
    ensures var d := s.calls[i].dialogs[j];
            Solid(strict, SetJinfo(SetDialog(s, Call, i, j, d.(leg := leg)), t, Some(ji.(dialog := Some(d.ref)))))
  {
    hide Distinct, Total, Weigh, WeighDialogs;
    var c, d := s.calls[i], s.calls[i].dialogs[j];
    var c' := c.(dialogs := c.dialogs[j := d.(leg := leg)]);
    var s1 := SetDialog(s, Call, i, j, d.(leg := leg));
    assert SetJinfo(s1, t, Some(ji.(dialog := Some(d.ref)))) == s1;
    assert CallOk(strict, s.trs, c) && RetryOk(c);
    assert RetryOk(c') by {
      forall x | 0 <= x < |c'.dialogs| ensures 0 <= c'.dialogs[x].retry <= MAX_RETRY { assert 0 <= c.dialogs[x].retry <= MAX_RETRY; }
    }
    SolidCall(strict, s, s1, i, c');
  }

  lemma SolidRespondInitial(strict: bool, s: State, i: nat, code: nat, f: Facts)
    requires Solid(strict, s) && Distinct(s) && i < |s.calls| && s.calls[i].out.Some?
    ensures Solid(strict, Respond(s, s.calls[i].out.value, code, f))
  {
    hide Distinct, Solid, Update, CallOk;
    SlotFacts(strict, s, i);
    var t := s.calls[i].out.value;
    if s.trs[t].phase == Pending && 100 <= code < 700 {
      var ji := s.trs[t].jinfo.value;
      var s1 := SetProgress(s, t, ClientPhase(INVITE, code), code);
      FindRefOf(s, i);
      if code < 300 {
        SolidInitialProgress(strict, s, i, code);
        CountersOk(strict, s1, i);
        if code < 200 {
          if s.calls[i].dialogs == [] {
            SolidStartDialog(strict, s1, t, i, ji, EarlyLeg);
          } else {
            assert FindDialogRef(s.calls[i].dialogs, s.calls[i].dialogs[0].ref) == Some(0);
            assert OnProvisional(s1, t, i, ji, code, f) == s1;
          }
        } else {
          var s2 := ResetRetries(s1, i, ji);
          SolidResetRetries(strict, s1, i, ji);
          CountersOk(strict, s2, i);
          if s.calls[i].dialogs == [] {
            SolidStartDialog(strict, s2, t, i, ji, ConfirmedLeg);
          } else {
            assert FindDialogRef(s2.calls[i].dialogs, s2.calls[i].dialogs[0].ref) == Some(0);
            SolidConfirm(strict, s2, t, i, 0, ji, ConfirmedBy(s2.calls[i].dialogs[0].leg, INVITE, f));
          }
        }
      } else {
        SolidInitialFailure(strict, s, i, code);
      }
    }
  }
}
