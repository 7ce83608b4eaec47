/** The promises of the context store, over every run from the empty store. */
module ContextTheorems {
  import opened Wrappers
  import opened Sequences
  import opened Sip
  import opened ContextStore
  import opened ContextAccounting
  import opened ContextRuns
  import opened ContextInvariants
  import opened ContextSafety
  import opened ContextHistory
  import opened ContextRetirement

  lemma InitialState(strict: bool, now: int)
    ensures Solid(strict, Init(now)) && Distinct(Init(now))
    ensures forall m: Measure :: Total(m, Init(now)) == 0
  {
  }

  lemma Reachable(now: int, es: seq<Step>)
    ensures Solid(false, Run(Init(now), es)) && Distinct(Run(Init(now), es))
  {
    InitialState(false, now);
    SafeRun(false, Init(now), es);
  }

  // ---------------------------------------------------------------- conservation of transactions

  function Slot(t: Option<nat>): seq<nat> {
    if t.Some? then [t.value] else []
  }

  function DialogHoldings(ds: seq<Dialog>): seq<nat> {
    if ds == [] then [] else ds[0].inc + ds[0].out + DialogHoldings(ds[1..])
  }

  function ContextHoldings(cs: seq<Context>): seq<nat> {
    if cs == [] then [] else Slot(cs[0].inc) + Slot(cs[0].out) + DialogHoldings(cs[0].dialogs) + ContextHoldings(cs[1..])
  }

  function PubHoldings(ps: seq<Publication>): seq<nat> {
    if ps == [] then [] else Slot(ps[0].last) + PubHoldings(ps[1..])
  }

  /** Every place of the store, written out: context slots, dialog lists, publications, the
      garbage list with its second entries, and the transactions freed from it. */
  function Holdings(s: State): seq<nat> {
    ContextHoldings(s.calls) + ContextHoldings(s.subs) + ContextHoldings(s.notifies)
    + PubHoldings(s.pubs) + s.garbage + s.released + s.doubles
  }

  lemma CountMultiset(ts: seq<nat>, t: nat)
    ensures multiset(ts)[t] == Count(ts, t)
  {
    if ts != [] {
      assert ts == [ts[0]] + ts[1..];
      assert multiset(ts) == multiset([ts[0]]) + multiset(ts[1..]);
      CountMultiset(ts[1..], t);
    }
  }

  lemma CountDialogHoldings(ds: seq<Dialog>, t: nat)
    ensures Count(DialogHoldings(ds), t) == WeighDialogs(Held(t), ds)
  {
    if ds != [] {
      CountDialogHoldings(ds[1..], t);
      CountConcat(ds[0].inc + ds[0].out, DialogHoldings(ds[1..]), t);
      CountConcat(ds[0].inc, ds[0].out, t);
    }
  }

  lemma CountContextHoldings(cs: seq<Context>, t: nat)
    ensures Count(ContextHoldings(cs), t) == WeighAll(Held(t), cs)
  {
    if cs != [] {
      var a, b, c := Slot(cs[0].inc), Slot(cs[0].out), DialogHoldings(cs[0].dialogs);
      CountContextHoldings(cs[1..], t);
      CountDialogHoldings(cs[0].dialogs, t);
      CountConcat(a + b + c, ContextHoldings(cs[1..]), t);
      CountConcat(a + b, c, t);
      CountConcat(a, b, t);
    }
  }

  lemma CountPubHoldings(ps: seq<Publication>, t: nat)
    ensures Count(PubHoldings(ps), t) == WeighPubs(Held(t), ps)
  {
    if ps != [] {
      CountPubHoldings(ps[1..], t);
      CountConcat(Slot(ps[0].last), PubHoldings(ps[1..]), t);
    }
  }

  lemma CountHoldings(s: State, t: nat)
    ensures Count(Holdings(s), t) + Count(s.lost, t) == Total(Held(t), s) + Count(s.doubles, t)
  {
    var a, b, c := ContextHoldings(s.calls), ContextHoldings(s.subs), ContextHoldings(s.notifies);
    var p := PubHoldings(s.pubs);
    CountContextHoldings(s.calls, t);
    CountContextHoldings(s.subs, t);
    CountContextHoldings(s.notifies, t);
    CountPubHoldings(s.pubs, t);
    CountConcat(a + b + c + p + s.garbage + s.released, s.doubles, t);
    CountConcat(a + b + c + p + s.garbage, s.released, t);
    CountConcat(a + b + c + p, s.garbage, t);
    CountConcat(a + b + c, p, t);
    CountConcat(a + b, c, t);
    CountConcat(a, b, t);
  }

  /** After any run: a transaction that was created sits in one place, but for those lost and
      for the second entries. */
  lemma {:induction false} TransactionsAccounted(now: int, es: seq<Step>, t: nat)
    ensures var s := Run(Init(now), es);
            multiset(Holdings(s))[t] + Count(s.lost, t) == Bit(1 <= t < s.nextTid) + Count(s.doubles, t)
  {
    hide Total, Run, Holdings, Count;
    var s := Run(Init(now), es);
    CountMultiset(Holdings(s), t);
    CountHoldings(s, t);
    InitialState(false, now);
    RunAccounts(Held(t), Init(now), es);
  }

  /** No transaction is both lost and entered twice, and only existing ones are entered twice. */
  predicate Separate(s: State) {
    && (forall t :: t in s.lost ==> t !in s.doubles)
    && (forall t :: t in s.doubles ==> 1 <= t < s.nextTid)
  }

  lemma CancelledIsHeld(s: State, target: Target)
    requires Distinct(s) && Cancelled(s, target).Some?
    ensures Cancelled(s, target).value.1 !in s.lost
  {
    var (i, t, jd) := Cancelled(s, target).value;
    var m := Held(t);
    if target.InviteInDialog? {
      WeighDialogsAt(m, s.calls[i].dialogs, target.j);
      CountZero(s.calls[i].dialogs[target.j].inc, t);
    }
    WeighAllAt(m, s.calls, i);
    CountZero(s.lost, t);
    assert Total(m, s) <= 1;
  }

  lemma SeparateStep(s: State, e: Step)
    requires Solid(false, s) && Distinct(s) && Separate(s)
    ensures Separate(Next(s, e)) && s.nextTid <= Next(s, e).nextTid
    ensures LostBy(s, e).Some? ==> s.nextTid < Next(s, e).nextTid
  {
    hide Next, Total, Distinct, Cancelled;
    StepLog(s, e);
    assert s.staticId >= 1 by { CountersPositive(s); }
    StepAccounts(Held(s.nextTid), s, e);
    if LostBy(s, e).Some? { LostGrows(s, e); }
    if e.DoCancel? && Cancelled(s, e.target).Some? { CancelledIsHeld(s, e.target); }
  }

  lemma LostGrows(s: State, e: Step)
    requires LostBy(s, e).Some?
    ensures Next(s, e).nextTid == s.nextTid + 1
  {
  }

  lemma SeparateRun(now: int, es: seq<Step>)
    ensures Separate(Run(Init(now), es))
    decreases |es|
  {
    hide Solid, Distinct, Next, Separate;
    if es == [] { SeparateInit(now); }
    else {
      var n := |es| - 1;
      SeparateRun(now, es[..n]);
      Reachable(now, es[..n]);
      SeparateStep(Run(Init(now), es[..n]), es[n]);
      assert es == es[..n] + [es[n]];
      RunSnoc(Init(now), es[..n], es[n]);
    }
  }

  lemma SeparateInit(now: int)
    ensures Separate(Run(Init(now), []))
  {
  }

  /** A step that misplaces a transaction: a first NOTIFY for which no dialog can be built, or a
      CANCEL when an answer cannot. */
  predicate Misplaces(s: State, e: Step) {
    LostBy(s, e).Some? || DoubledBy(s, e).Some?
  }

  lemma {:induction false} NothingMisplaced(s: State, es: seq<Step>)
    requires s.lost == [] && s.doubles == []
    ensures var r := Run(s, es);
            (r.lost == [] && r.doubles == []) <==> forall x :: 0 <= x < |es| ==> !Misplaces(Run(s, es[..x]), es[x])
    decreases |es|
  {
    hide Next, LostBy, DoubledBy;
    if es != [] {
      var n := |es| - 1;
      var s1 := Run(s, es[..n]);
      NothingMisplaced(s, es[..n]);
      assert es == es[..n] + [es[n]];
      RunSnoc(s, es[..n], es[n]);
      StepLog(s1, es[n]);
      assert forall x :: 0 <= x < n ==> es[..n][..x] == es[..x] && es[..n][x] == es[x];
    }
  }

  /** Conservation, exactly: after a run each transaction ever created sits in one place, and
      nothing else does, if and only if no step of the run misplaced one. */
  lemma {:induction false} TransactionsConserved(now: int, es: seq<Step>)
    ensures (forall t: nat :: InOnePlace(Run(Init(now), es), t))
            <==> forall x :: 0 <= x < |es| ==> !Misplaces(Run(Init(now), es[..x]), es[x])
  {
    hide Holdings, Misplaces, Separate, Run;
    var s := Run(Init(now), es);
    NothingMisplaced(Init(now), es);
    forall t: nat ensures InOnePlace(s, t) <==> Count(s.lost, t) == Count(s.doubles, t) { TransactionsAccounted(now, es, t); }
    if s.lost != [] || s.doubles != [] {
      SeparateRun(now, es);
      var t := if s.lost != [] then s.lost[0] else s.doubles[0];
      OneSided(s, t);
      assert !InOnePlace(s, t);
    } else {
      assert forall t: nat :: InOnePlace(s, t);
    }
  }

  predicate InOnePlace(s: State, t: nat) {
    multiset(Holdings(s))[t] == Bit(1 <= t < s.nextTid)
  }

  lemma OneSided(s: State, t: nat)
    requires Separate(s) && (t in s.lost || t in s.doubles)
    ensures Count(s.lost, t) != Count(s.doubles, t)
  {
    CountZero(s.lost, t);
    CountZero(s.doubles, t);
  }

  // ---------------------------------------------------------------- ids

  /** Until the counter starts over, a positive id has at most one holder among all calls,
      subscriptions, notifications and dialogs, and lies below the counter. */
  lemma IdsUnique(now: int, es: seq<Step>, n: int)
    requires n >= 1 && !Run(Init(now), es).wrapped
    ensures var s := Run(Init(now), es);
            Total(Named(n), s) <= if n < s.staticId then 1 else 0
  {
    hide Total;
    InitialState(false, now);
    RunAccounts(Named(n), Init(now), es);
  }

  lemma WeighDialogsTwo(m: Measure, ds: seq<Dialog>, j: nat, j': nat)
    requires j < j' < |ds|
    ensures WeighDialog(m, ds[j]) + WeighDialog(m, ds[j']) <= WeighDialogs(m, ds)
  {
    WeighDialogsWithout(m, ds, j);
    assert Without(ds, j)[j' - 1] == ds[j'];
    WeighDialogsAt(m, Without(ds, j), j' - 1);
  }

  lemma SameDialog(ds: seq<Dialog>, n: int, j: nat, j': nat)
    requires WeighDialogs(Named(n), ds) <= 1 && j < |ds| && j' < |ds| && ds[j].id == n && ds[j'].id == n
    ensures j == j'
  {
    if j < j' { WeighDialogsTwo(Named(n), ds, j, j'); }
    if j' < j { WeighDialogsTwo(Named(n), ds, j', j); }
  }

  predicate HoldsId(c: Context, jd: Option<nat>, n: int) {
    if jd.None? then c.id == n else jd.value < |c.dialogs| && c.dialogs[jd.value].id == n
  }

  lemma HoldsIdWeighs(c: Context, jd: Option<nat>, n: int)
    requires HoldsId(c, jd, n)
    ensures Weigh(Named(n), c) >= 1
  {
    if jd.Some? { WeighDialogsAt(Named(n), c.dialogs, jd.value); }
  }

  lemma SameInContext(c: Context, n: int, jd: Option<nat>, jd': Option<nat>)
    requires Weigh(Named(n), c) <= 1 && HoldsId(c, jd, n) && HoldsId(c, jd', n)
    ensures jd == jd'
  {
    match (jd, jd')
    case (None, None) =>
    case (None, Some(j')) => WeighDialogsAt(Named(n), c.dialogs, j');
    case (Some(j), None) => WeighDialogsAt(Named(n), c.dialogs, j);
    case (Some(j), Some(j')) => SameDialog(c.dialogs, n, j, j');
  }

  /** Two holders of an id, in the same list, are the same record. */
  lemma SameHolder(s: State, k: Kind, n: int, i: nat, jd: Option<nat>, i': nat, jd': Option<nat>)
    requires Total(Named(n), s) <= 1 && i < |List(s, k)| && i' < |List(s, k)|
    requires HoldsId(List(s, k)[i], jd, n) && HoldsId(List(s, k)[i'], jd', n)
    ensures i == i' && jd == jd'
  {
    var m, cs := Named(n), List(s, k);
    HoldsIdWeighs(cs[i], jd, n);
    HoldsIdWeighs(cs[i'], jd', n);
    WeighAllAt(m, cs, i);
    if i < i' { WeighAllTwo(m, cs, i, i'); }
    else if i' < i { WeighAllTwo(m, cs, i', i); }
    else { SameInContext(cs[i], n, jd, jd'); }
  }

  /** So each finder returns the only holder: by call id, by dialog id, and by either id of a
      subscription. */
  lemma FindersReturnTheHolder(now: int, es: seq<Step>, k: Kind, i: nat, jd: Option<nat>, n: int)
    requires !Run(Init(now), es).wrapped && n >= 1
    requires i < |List(Run(Init(now), es), k)| && HoldsId(List(Run(Init(now), es), k)[i], jd, n)
    ensures var cs := List(Run(Init(now), es), k);
            && (jd.None? ==> FindContext(cs, n) == Some(i) && FindDialog(cs, n) == None)
            && (jd.Some? ==> FindDialog(cs, n) == Some((i, jd.value)) && FindContext(cs, n) == None)
            && FindSubscription(cs, n) == Some((i, jd))
  {
    hide Total, Run;
    var s := Run(Init(now), es);
    var cs := List(s, k);
    IdsUnique(now, es, n);
    var a, b, c := FindContext(cs, n), FindDialog(cs, n), FindSubscription(cs, n);
    if a.Some? { SameHolder(s, k, n, i, jd, a.value, None); }
    if b.Some? { SameHolder(s, k, n, i, jd, b.value.0, Some(b.value.1)); }
    if c.Some? { SameHolder(s, k, n, i, jd, c.value.0, c.value.1); }
  }

  // ---------------------------------------------------------------- records that stay dead

  lemma RunSplit(s: State, es: seq<Step>, x: nat)
    requires x <= |es|
    ensures Run(s, es) == Run(Run(s, es[..x]), es[x..])
    decreases x
  {
    if x == 0 { assert es[0..] == es; }
    else {
      assert es[..x][1..] == es[1..][..x - 1] && es[x..] == es[1..][x - 1..];
      RunSplit(Next(s, es[0]), es[1..], x - 1);
    }
  }

  /** Once a dialog has lost its leg, or a record was freed, it never lives again. */
  lemma DeadStaysDead(now: int, es: seq<Step>, later: seq<Step>, r: nat)
    requires var s := Run(Init(now), es); r < s.nextRef && Total(Alive(r), s) == 0
    ensures Total(Alive(r), Run(Run(Init(now), es), later)) == 0
  {
    hide Total, Run;
    Reachable(now, es);
    RunAccounts(Alive(r), Run(Init(now), es), later);
  }

  /** A live record keeps the id it was given: it never holds another one later. */
  lemma IdsStable(now: int, es: seq<Step>, later: seq<Step>, k: Kind, i: nat, jd: Option<nat>, n: int)
    requires var cs := List(Run(Init(now), es), k);
             i < |cs| && if jd.None? then cs[i].id >= 1
                         else jd.value < |cs[i].dialogs| && cs[i].dialogs[jd.value].id >= 1 && cs[i].dialogs[jd.value].leg != NoLeg
    requires var c := List(Run(Init(now), es), k)[i];
             n >= 1 && n != if jd.None? then c.id else c.dialogs[jd.value].id
    ensures var c := List(Run(Init(now), es), k)[i];
            Total(MayBe(if jd.None? then c.ref else c.dialogs[jd.value].ref, n), Run(Run(Init(now), es), later)) == 0
  {
    hide Run;
    var s := Run(Init(now), es);
    var c := List(s, k)[i];
    var r := if jd.None? then c.ref else c.dialogs[jd.value].ref;
    Reachable(now, es);
    assert Total(Alive(r), s) <= Bit(r < s.nextRef);
    MayBeBelowAlive(s, k, i, jd, r, n);
    RunAccounts(MayBe(r, n), s, later);
  }

  lemma MayBeDialogs(ds: seq<Dialog>, r: nat, n: int)
    ensures WeighDialogs(MayBe(r, n), ds) <= WeighDialogs(Alive(r), ds)
  {
  }

  lemma MayBeContexts(cs: seq<Context>, r: nat, n: int)
    ensures WeighAll(MayBe(r, n), cs) <= WeighAll(Alive(r), cs)
  {
    if cs != [] { MayBeDialogs(cs[0].dialogs, r, n); MayBeContexts(cs[1..], r, n); }
  }

  lemma PubsHaveNoRecord(m: Measure, ps: seq<Publication>)
    requires !m.Held?
    ensures WeighPubs(m, ps) == 0
  {
  }

  lemma MayBeBelowAlive(s: State, k: Kind, i: nat, jd: Option<nat>, r: nat, n: int)
    requires i < |List(s, k)| && Total(Alive(r), s) <= 1
    requires var c := List(s, k)[i];
             if jd.None? then c.ref == r && c.id >= 1 && c.id != n
             else jd.value < |c.dialogs| && c.dialogs[jd.value].ref == r && c.dialogs[jd.value].leg != NoLeg
                  && c.dialogs[jd.value].id >= 1 && c.dialogs[jd.value].id != n
    ensures Total(MayBe(r, n), s) == 0 && Total(Alive(r), s) == 1
  {
    var cs, c := List(s, k), List(s, k)[i];
    WeighAllWithout(Alive(r), cs, i);
    WeighAllWithout(MayBe(r, n), cs, i);
    MayBeContexts(Without(cs, i), r, n);
    if jd.Some? {
      WeighDialogsWithout(Alive(r), c.dialogs, jd.value);
      WeighDialogsWithout(MayBe(r, n), c.dialogs, jd.value);
      MayBeDialogs(Without(c.dialogs, jd.value), r, n);
    } else {
      MayBeDialogs(c.dialogs, r, n);
    }
    assert Weigh(MayBe(r, n), c) + 1 <= Weigh(Alive(r), c);
    MayBeContexts(s.calls, r, n);
    MayBeContexts(s.subs, r, n);
    MayBeContexts(s.notifies, r, n);
    PubsHaveNoRecord(MayBe(r, n), s.pubs);
  }

  /** eXosip_call_terminate sends at most one BYE for a dialog in any run, and a dialog that
      was hung up is dead. */
  lemma HungUpOnce(now: int, es: seq<Step>, r: nat)
    ensures var s := Run(Init(now), es);
            Count(s.hangups, r) + Total(Alive(r), s) <= 1
  {
    hide Run;
    var s := Run(Init(now), es);
    InitialState(false, now);
    RunAccounts(HungUp(r), Init(now), es);
    HungUpCounts(s, r);
  }

  lemma AliveDialogs(ds: seq<Dialog>, r: nat)
    ensures WeighDialogs(HungUp(r), ds) == WeighDialogs(Alive(r), ds)
  {
  }

  lemma AliveContexts(cs: seq<Context>, r: nat)
    ensures WeighAll(HungUp(r), cs) == WeighAll(Alive(r), cs)
  {
    if cs != [] { AliveDialogs(cs[0].dialogs, r); AliveContexts(cs[1..], r); }
  }

  lemma HungUpCounts(s: State, r: nat)
    ensures Total(HungUp(r), s) == Total(Alive(r), s) + Count(s.hangups, r)
  {
    AliveContexts(s.calls, r);
    AliveContexts(s.subs, r);
    AliveContexts(s.notifies, r);
    PubsHaveNoRecord(HungUp(r), s.pubs);
    PubsHaveNoRecord(Alive(r), s.pubs);
  }

  /** An id that nobody holds any more, such as that of a hung-up dialog, is not found again
      by any lookup while the counter has not started over. */
  lemma RetiredIdNotFound(now: int, es: seq<Step>, later: seq<Step>, n: int, k: Kind)
    requires var s := Run(Init(now), es); 1 <= n < s.staticId && Total(Named(n), s) == 0
    requires !Run(Run(Init(now), es), later).wrapped
    ensures Unknown(Run(Run(Init(now), es), later), k, n)
  {
    hide Total, Run, Unknown;
    var s := Run(Init(now), es);
    Reachable(now, es);
    RunAccounts(Named(n), s, later);
    NobodyFinds(Run(s, later), k, n);
  }

  lemma NobodyFinds(s: State, k: Kind, n: int)
    requires Total(Named(n), s) == 0
    ensures Unknown(s, k, n)
  {
    hide Total;
    var cs := List(s, k);
    var a, b, c := FindContext(cs, n), FindDialog(cs, n), FindSubscription(cs, n);
    if a.Some? { NobodyHolds(s, k, n, a.value, None); }
    if b.Some? { NobodyHolds(s, k, n, b.value.0, Some(b.value.1)); }
    if c.Some? { NobodyHolds(s, k, n, c.value.0, c.value.1); }
  }

  lemma NobodyHolds(s: State, k: Kind, n: int, i: nat, jd: Option<nat>)
    requires Total(Named(n), s) == 0 && i < |List(s, k)|
    ensures !HoldsId(List(s, k)[i], jd, n)
  {
    if HoldsId(List(s, k)[i], jd, n) {
      HoldsIdWeighs(List(s, k)[i], jd, n);
      WeighAllAt(Named(n), List(s, k), i);
    }
  }

  lemma RunSnoc(s: State, es: seq<Step>, e: Step)
    ensures Run(s, es + [e]) == Next(Run(s, es), e)
  {
    RunSplit(s, es + [e], |es|);
    assert (es + [e])[..|es|] == es && (es + [e])[|es|..] == [e];
    assert Run(Run(s, es), [e]) == Run(Next(Run(s, es), e), [e][1..]);
  }

  predicate Unknown(s: State, k: Kind, n: int) {
    FindDialog(List(s, k), n) == None && FindContext(List(s, k), n) == None && FindSubscription(List(s, k), n) == None
  }

  lemma NamedDialog(ds: seq<Dialog>, n: int) returns (j: nat)
    requires WeighDialogs(Named(n), ds) > 0
    ensures j < |ds| && ds[j].id == n
  {
    if ds[0].id == n { j := 0; } else { j := NamedDialog(ds[1..], n); j := j + 1; }
  }

  lemma NamedContext(cs: seq<Context>, n: int) returns (i: nat, jd: Option<nat>)
    requires WeighAll(Named(n), cs) > 0
    ensures i < |cs| && HoldsId(cs[i], jd, n)
  {
    if cs[0].id == n { i, jd := 0, None; }
    else if WeighDialogs(Named(n), cs[0].dialogs) > 0 {
      var j := NamedDialog(cs[0].dialogs, n);
      i, jd := 0, Some(j);
    } else {
      i, jd := NamedContext(cs[1..], n);
      i := i + 1;
    }
  }

  /** A holder of id `n`, other than a dead dialog, weighs in one of the two measures. */
  lemma HolderShows(cs: seq<Context>, r: nat, n: int, i: nat, jd: Option<nat>)
    requires i < |cs| && HoldsId(cs[i], jd, n) && (jd.Some? ==> cs[i].dialogs[jd.value].leg != NoLeg)
    ensures WeighAll(Elsewhere(r, n), cs) + WeighAll(Alive(r), cs) >= 1
  {
    WeighAllAt(Elsewhere(r, n), cs, i);
    WeighAllAt(Alive(r), cs, i);
    if jd.Some? {
      WeighDialogsAt(Elsewhere(r, n), cs[i].dialogs, jd.value);
      WeighDialogsAt(Alive(r), cs[i].dialogs, jd.value);
    }
  }

  lemma NobodyNamed(cs: seq<Context>, r: nat, n: int)
    requires WeighAll(Elsewhere(r, n), cs) == 0 && WeighAll(Alive(r), cs) == 0 && TidyList(cs, n)
    ensures WeighAll(Named(n), cs) == 0
  {
    hide WeighAll;
    if WeighAll(Named(n), cs) > 0 {
      var i, jd := NamedContext(cs, n);
      HolderShows(cs, r, n, i, jd);
    }
  }

  /** Record `r` is dead, nobody else has its id, and no dead dialog has it: nobody has. */
  lemma NobodyLeft(s: State, r: nat, n: int)
    requires Total(Elsewhere(r, n), s) == 0 && Total(Alive(r), s) == 0 && Tidy(s, n)
    ensures Total(Named(n), s) == 0
  {
    hide WeighAll, WeighPubs;
    NobodyNamed(s.calls, r, n);
    NobodyNamed(s.subs, r, n);
    NobodyNamed(s.notifies, r, n);
    PubsHaveNoRecord(Named(n), s.pubs);
  }

  lemma ElsewhereDialogs(ds: seq<Dialog>, r: nat, n: int)
    ensures WeighDialogs(Elsewhere(r, n), ds) <= WeighDialogs(Named(n), ds)
  {
  }

  lemma ElsewhereContexts(cs: seq<Context>, r: nat, n: int)
    ensures WeighAll(Elsewhere(r, n), cs) <= WeighAll(Named(n), cs)
  {
    if cs != [] { ElsewhereDialogs(cs[0].dialogs, r, n); ElsewhereContexts(cs[1..], r, n); }
  }

  /** The only holder of an id is at its own address. */
  lemma ElsewhereNobody(s: State, k: Kind, i: nat, j: nat)
    requires HasDialog(s, k, i, j) && Total(Named(DialogAt(s, k, i, j).id), s) <= 1
    ensures Total(Elsewhere(DialogAt(s, k, i, j).ref, DialogAt(s, k, i, j).id), s) == 0
  {
    var cs, c, d := List(s, k), List(s, k)[i], DialogAt(s, k, i, j);
    var m, m' := Elsewhere(d.ref, d.id), Named(d.id);
    WeighAllWithout(m, cs, i);
    WeighAllWithout(m', cs, i);
    ElsewhereContexts(Without(cs, i), d.ref, d.id);
    WeighDialogsWithout(m, c.dialogs, j);
    WeighDialogsWithout(m', c.dialogs, j);
    ElsewhereDialogs(Without(c.dialogs, j), d.ref, d.id);
    assert Weigh(m, c) + 1 <= Weigh(m', c);
    ElsewhereContexts(s.calls, d.ref, d.id);
    ElsewhereContexts(s.subs, d.ref, d.id);
    ElsewhereContexts(s.notifies, d.ref, d.id);
    PubsHaveNoRecord(m, s.pubs);
  }

  /** A live dialog is the only holder of its id, so no dead one has it. */
  lemma LiveIsTidy(s: State, k: Kind, i: nat, j: nat)
    requires HasDialog(s, k, i, j) && DialogAt(s, k, i, j).leg != NoLeg && Total(Named(DialogAt(s, k, i, j).id), s) <= 1
    ensures Tidy(s, DialogAt(s, k, i, j).id)
  {
    hide Total;
    var d := DialogAt(s, k, i, j);
    ElsewhereNobody(s, k, i, j);
    forall k': Kind ensures TidyList(List(s, k'), d.id) {
      forall i', j' | 0 <= i' < |List(s, k')| && 0 <= j' < |List(s, k')[i'].dialogs| && List(s, k')[i'].dialogs[j'].id == d.id
        ensures List(s, k')[i'].dialogs[j'].leg != NoLeg
      {
        if k' == k { SameHolder(s, k, d.id, i, Some(j), i', Some(j')); } else { OtherList(s, k, i, Some(j), k', i', Some(j'), d.id); }
      }
    }
    assert TidyList(List(s, Call), d.id) && TidyList(List(s, Subscription), d.id) && TidyList(List(s, Notification), d.id);
  }

  lemma OtherList(s: State, k: Kind, i: nat, jd: Option<nat>, k': Kind, i': nat, jd': Option<nat>, n: int)
    requires k != k' && i < |List(s, k)| && i' < |List(s, k')|
    requires HoldsId(List(s, k)[i], jd, n) && HoldsId(List(s, k')[i'], jd', n)
    ensures Total(Named(n), s) >= 2
  {
    HoldsIdWeighs(List(s, k)[i], jd, n);
    HoldsIdWeighs(List(s, k')[i'], jd', n);
    WeighAllAt(Named(n), List(s, k), i);
    WeighAllAt(Named(n), List(s, k'), i');
  }

  /** A dialog of the run that is live, has id `n`, and is dead after step `e`. */
  ghost predicate Dies(s: State, e: Step, k: Kind, i: nat, j: nat, n: int) {
    && HasDialog(s, k, i, j) && DialogAt(s, k, i, j).leg != NoLeg && DialogAt(s, k, i, j).id == n && n >= 1
    && Total(Alive(DialogAt(s, k, i, j).ref), Next(s, e)) == 0
  }

  lemma {:induction false} NobodyAfterDeath(now: int, es: seq<Step>, e: Step, k: Kind, i: nat, j: nat, n: int)
    requires var s := Run(Init(now), es);
             Dies(s, e, k, i, j, n) && !Next(s, e).wrapped
    ensures var s := Run(Init(now), es);
            && Total(Elsewhere(DialogAt(s, k, i, j).ref, n), Next(s, e)) == 0
            && Tidy(s, n) && n < s.staticId <= Next(s, e).staticId
  {
    hide Total, Run, Next, Tidy;
    var s := Run(Init(now), es);
    var m := Elsewhere(DialogAt(s, k, i, j).ref, n);
    Reachable(now, es);
    StepAccounts(m, s, e);
    IdsUnique(now, es, n);
    HoldsIdTotal(s, k, i, Some(j), n);
    LiveIsTidy(s, k, i, j);
    ElsewhereNobody(s, k, i, j);
  }

  lemma HoldsIdTotal(s: State, k: Kind, i: nat, jd: Option<nat>, n: int)
    requires i < |List(s, k)| && HoldsId(List(s, k)[i], jd, n)
    ensures Total(Named(n), s) >= 1
  {
    HoldsIdWeighs(List(s, k)[i], jd, n);
    WeighAllAt(Named(n), List(s, k), i);
  }

  /** When a dialog dies, by whatever step, its id is found by no lookup in any continuation in
      which the counter does not start over, if and only if the step is not a failed
      replacement. */
  lemma {:induction false} DeathRetiresId(now: int, es: seq<Step>, e: Step, k: Kind, i: nat, j: nat, n: int)
    requires var s := Run(Init(now), es);
             Dies(s, e, k, i, j, n) && !Next(s, e).wrapped
    ensures var s := Run(Init(now), es);
            (forall later: seq<Step>, k': Kind :: !Run(Next(s, e), later).wrapped ==> Unknown(Run(Next(s, e), later), k', n))
            <==> !FailedReplacement(s, e, n)
  {
    hide Total, Run, Next, Tidy, FailedReplacement, Unknown;
    var s := Run(Init(now), es);
    NobodyAfterDeath(now, es, e, k, i, j, n);
    if FailedReplacement(s, e, n) {
      var k' := ReplacedIsFound(s, e, n);
      var later: seq<Step> := [];
      RunNothing(Next(s, e));
      assert !Run(Next(s, e), later).wrapped && !Unknown(Run(Next(s, e), later), k', n);
    } else {
      Reachable(now, es);
      TidyStep(s, e, n);
      NobodyLeft(Next(s, e), DialogAt(s, k, i, j).ref, n);
      RunSnoc(Init(now), es, e);
      forall later: seq<Step>, k': Kind | !Run(Next(s, e), later).wrapped ensures Unknown(Run(Next(s, e), later), k', n) {
        RetiredIdNotFound(now, es + [e], later, n, k');
      }
    }
  }

  lemma RunNothing(s: State)
    ensures Run(s, []) == s
  {
  }

  /** After a failed replacement the dead dialog is still found ... */
  lemma ReplacedIsFound(s: State, e: Step, n: int) returns (k: Kind)
    requires FailedReplacement(s, e, n)
    ensures FindDialog(List(Next(s, e), k), n).Some? && !Unknown(Next(s, e), k, n)
  {
    hide FindDialog, FindRef, FindDialogRef, OnSuccess;
    var ji := s.trs[e.tid].jinfo.value;
    k := ji.kind;
    var s1 := SetProgress(s, e.tid, ClientPhase(INVITE, e.code), e.code);
    var i := FindRef(List(s, k), ji.ctx).value;
    var j := FindDialogRef(List(s, k)[i].dialogs, ji.dialog.value).value;
    assert Next(s, e) == OnSuccess(s1, e.tid, i, ji, e.facts);
    ReplacedKeepsId(s1, e.tid, i, ji, e.facts, j);
    var s' := Next(s, e);
    assert List(s', k)[i].dialogs[j].id == n;
  }

  lemma ReplacedKeepsId(s: State, t: nat, i: nat, ji: Jinfo, f: Facts, j: nat)
    requires t in s.trs && s.trs[t].verb == INVITE && i < |List(s, ji.kind)| && ji.dialog.Some?
    requires FindDialogRef(List(s, ji.kind)[i].dialogs, ji.dialog.value) == Some(j)
    ensures var cs := List(OnSuccess(s, t, i, ji, f), ji.kind);
            i < |cs| && j < |cs[i].dialogs| && cs[i].dialogs[j].id == List(s, ji.kind)[i].dialogs[j].id
  {
    hide FindDialogRef;
    var s1 := ResetRetries(s, i, ji);
    FindRecounted(List(s, ji.kind)[i].dialogs, List(s1, ji.kind)[i].dialogs, ji);
  }

  /** ... until the next update. */
  lemma {:induction false} ReplacedUntilUpdate(now: int, es: seq<Step>, e: Step, k: Kind, i: nat, j: nat, n: int, later: seq<Step>, k': Kind)
    requires var s := Run(Init(now), es);
             Dies(s, e, k, i, j, n) && !Update(Next(s, e)).wrapped && !Run(Update(Next(s, e)), later).wrapped
    ensures Unknown(Run(Update(Next(Run(Init(now), es), e)), later), k', n)
  {
    hide Total, Run, Next, Tidy, Update, Unknown;
    var s := Run(Init(now), es);
    var s1 := Next(s, e);
    var u, r := Update(s1), DialogAt(s, k, i, j).ref;
    Reachable(now, es);
    StepAccounts(Alive(r), s, e);
    AccountsUpdate(Alive(r), s1);
    NobodyAfterDeath(now, es, e, k, i, j, n);
    TidyUpdate(s1, n);
    AccountsUpdate(Elsewhere(r, n), s1);
    RefOfDialogBelow(s, k, i, j);
    NobodyLeft(u, r, n);
    RunAccounts(Named(n), u, later);
    NobodyFinds(Run(u, later), k', n);
  }

  lemma RefOfDialogBelow(s: State, k: Kind, i: nat, j: nat)
    requires Distinct(s) && HasDialog(s, k, i, j) && DialogAt(s, k, i, j).leg != NoLeg
    ensures DialogAt(s, k, i, j).ref < s.nextRef
  {
    var m := Alive(DialogAt(s, k, i, j).ref);
    WeighDialogsAt(m, List(s, k)[i].dialogs, j);
    WeighAllAt(m, List(s, k), i);
    assert Total(m, s) >= 1;
  }

  // ---------------------------------------------------------------- retries

  /** The retry counters of calls, subscriptions and dialogs stay between 0 and 3. */
  lemma RetriesBounded(now: int, es: seq<Step>, k: Kind, i: nat)
    requires i < |List(Run(Init(now), es), k)|
    ensures RetryOk(List(Run(Init(now), es), k)[i])
  {
    Reachable(now, es);
  }

  /** An initial INVITE is resent with credentials at most four times between two 2xx
      responses of its call ... */
  lemma ResendsBounded(now: int, es: seq<Step>, i: nat)
    requires i < |Run(Init(now), es).calls|
    ensures Run(Init(now), es).calls[i].resent <= 4
  {
    Reachable(now, es);
    CountersOk(false, Run(Init(now), es), i);
  }

  /** ... and at most three times when no SUBSCRIBE is sent inside a call. */
  lemma ResendsBoundedWithoutSubscribe(now: int, es: seq<Step>, i: nat)
    requires forall x :: 0 <= x < |es| && es[x].DoCallSendRequest? ==> es[x].verb != SUBSCRIBE
    requires i < |Run(Init(now), es).calls|
    ensures Run(Init(now), es).calls[i].resent <= 3
  {
    InitialState(true, now);
    SafeRun(true, Init(now), es);
    CountersOk(true, Run(Init(now), es), i);
  }

  /** Before the first 2xx within the call it is three, whatever is sent. */
  lemma ResendsBoundedBeforeSuccess(now: int, es: seq<Step>, i: nat)
    requires i < |Run(Init(now), es).calls| && !Run(Init(now), es).calls[i].success
    ensures Run(Init(now), es).calls[i].resent <= 3
  {
    Reachable(now, es);
    CountersOk(false, Run(Init(now), es), i);
  }

  // ---------------------------------------------------------------- BYEs

  /** How many steps of a run send a BYE for dialog `r`, for one cause. */
  function Tally(cause: Cause, s: State, es: seq<Step>, r: nat): nat
    decreases |es|
  {
    if es == [] then 0 else Bit(SendsBye(cause, s, es[0]) == Some(r)) + Tally(cause, Next(s, es[0]), es[1..], r)
  }

  lemma OneCause(s: State, e: Step)
    ensures SendsBye(HangUp, s, e).Some? ==> SendsBye(Direct, s, e).None? && SendsBye(Resent, s, e).None?
    ensures SendsBye(Direct, s, e).Some? ==> SendsBye(Resent, s, e).None?
  {
  }

  lemma CountConsBye(x: Option<nat>, xs: seq<nat>, r: nat)
    ensures Count(Cons(x, xs), r) == Bit(x == Some(r)) + Count(xs, r)
  {
    if x.Some? { CountCons(x.value, xs, r); }
  }

  /** Every BYE sent for a dialog is a hangup, a request of the application or a retry, and the
      hangups are those on record. */
  lemma {:induction false} ByesExplained(s: State, es: seq<Step>, r: nat)
    ensures Count(Run(s, es).byes, r)
            == Count(s.byes, r) + Tally(HangUp, s, es, r) + Tally(Direct, s, es, r) + Tally(Resent, s, es, r)
    ensures Count(Run(s, es).hangups, r) == Count(s.hangups, r) + Tally(HangUp, s, es, r)
    decreases |es|
  {
    hide Next, SendsBye, Count, Cons;
    if es != [] {
      var e := es[0];
      StepLog(s, e);
      OneCause(s, e);
      CountConsBye(SendsBye(HangUp, s, e), s.hangups, r);
      CountConsBye(ByeOf(s, e), s.byes, r);
      ByesExplained(Next(s, e), es[1..], r);
    }
  }

  predicate ByeStep(s: State, e: Step, r: nat) {
    ByeOf(s, e) == Some(r)
  }

  /** The BYEs a dialog receives in a run are at most one, if and only if no two steps of the run
      send it one. */
  lemma {:induction false} AtMostOneBye(now: int, es: seq<Step>, r: nat)
    ensures Count(Run(Init(now), es).byes, r) <= 1 <==>
              forall x, y :: 0 <= x < y < |es| ==>
                !(ByeStep(Run(Init(now), es[..x]), es[x], r) && ByeStep(Run(Init(now), es[..y]), es[y], r))
    ensures Count(Run(Init(now), es).byes, r) == 0 <==>
              forall x :: 0 <= x < |es| ==> !ByeStep(Run(Init(now), es[..x]), es[x], r)
    decreases |es|
  {
    hide Next, ByeStep, Count;
    if es == [] { NoByes(now, r); }
    else {
      var n := |es| - 1;
      var s := Run(Init(now), es[..n]);
      AtMostOneBye(now, es[..n], r);
      assert es == es[..n] + [es[n]];
      RunSnoc(Init(now), es[..n], es[n]);
      ByeStepCounts(s, es[n], r);
      assert forall x :: 0 <= x < n ==> es[..n][..x] == es[..x] && es[..n][x] == es[x];
    }
  }

  lemma NoByes(now: int, r: nat)
    ensures Count(Run(Init(now), []).byes, r) == 0
  {
  }

  lemma ByeStepCounts(s: State, e: Step, r: nat)
    ensures Count(Next(s, e).byes, r) == Count(s.byes, r) + Bit(ByeStep(s, e, r))
  {
    hide Next, ByeOf, Count;
    StepLog(s, e);
    CountConsBye(ByeOf(s, e), s.byes, r);
  }

  /** In particular when the application sends no BYE itself and retries none. */
  lemma {:induction false} OneByeByHangup(now: int, es: seq<Step>, r: nat)
    requires Tally(Direct, Init(now), es, r) == 0 && Tally(Resent, Init(now), es, r) == 0
    ensures Count(Run(Init(now), es).byes, r) <= 1
  {
    hide Total, Run, Tally;
    ByesExplained(Init(now), es, r);
    HungUpOnce(now, es, r);
  }
}
