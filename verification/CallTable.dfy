/** The call table of josua (jcalls.c): ten slots that hold the calls on the screen, seen as a
    map from (cid, did) to calls. */
module CallTable {
  import opened Wrappers

  const MAX_CALLS := 10
  const NOT_USED := 0

  /** `audio` is enable_audio: 1 started, 0 never started, -1 stopped. */
  datatype Slot = Slot(cid: int, did: int, tid: int, state: int, audio: int)

  predicate Used(x: Slot) {
    x.state != NOT_USED
  }

  type Key = (int, int)

  datatype Entry = Entry(tid: int, state: int, playing: bool)

  function KeyOf(x: Slot): Key {
    (x.cid, x.did)
  }

  function EntryOf(x: Slot): Entry {
    Entry(x.tid, x.state, x.audio == 1)
  }

  // ---------------------------------------------------------------- the table as a map

  predicate Unique(s: seq<Slot>) {
    forall i, j :: 0 <= i < j < |s| && Used(s[i]) && Used(s[j]) ==> KeyOf(s[i]) != KeyOf(s[j])
  }

  function Abs(s: seq<Slot>): map<Key, Entry> {
    if s == [] then map[]
    else
      var x, m := s[|s| - 1], Abs(s[..|s| - 1]);
      if Used(x) then m[KeyOf(x) := EntryOf(x)] else m
  }

  function CountUsed(s: seq<Slot>): nat {
    if s == [] then 0 else CountUsed(s[..|s| - 1]) + if Used(s[|s| - 1]) then 1 else 0
  }

  function CountPlaying(s: seq<Slot>): nat {
    if s == [] then 0 else CountPlaying(s[..|s| - 1]) + if s[|s| - 1].audio == 1 then 1 else 0
  }

  predicate Holds(s: seq<Slot>, key: Key) {
    exists i :: 0 <= i < |s| && Used(s[i]) && KeyOf(s[i]) == key
  }

  lemma {:induction false} AbsHas(s: seq<Slot>, key: Key)
    requires Unique(s)
    ensures key in Abs(s) <==> Holds(s, key)
    ensures forall i :: 0 <= i < |s| && Used(s[i]) && KeyOf(s[i]) == key ==> Abs(s)[key] == EntryOf(s[i])
  {
    if s != [] {
      var n := |s| - 1;
      AbsHas(s[..n], key);
      if Holds(s[..n], key) {
        var i :| 0 <= i < n && Used(s[..n][i]) && KeyOf(s[..n][i]) == key;
        assert s[i] == s[..n][i];
      }
      if Holds(s, key) && !(Used(s[n]) && KeyOf(s[n]) == key) {
        var i :| 0 <= i < |s| && Used(s[i]) && KeyOf(s[i]) == key;
        assert s[..n][i] == s[i];
      }
      forall i | 0 <= i < |s| && Used(s[i]) && KeyOf(s[i]) == key ensures Abs(s)[key] == EntryOf(s[i]) {
        if i < n { assert s[..n][i] == s[i]; }
      }
    }
  }

  lemma AbsSize(s: seq<Slot>)
    requires Unique(s)
    ensures |Abs(s)| == CountUsed(s)
  {
    if s != [] {
      var n := |s| - 1;
      AbsSize(s[..n]);
      AbsHas(s[..n], KeyOf(s[n]));
    }
  }

  /** The table is full exactly when no slot is free. */
  lemma CountFull(s: seq<Slot>)
    ensures CountUsed(s) <= |s|
    ensures CountUsed(s) == |s| <==> forall i :: 0 <= i < |s| ==> Used(s[i])
  {
  }

  lemma CountsUpdate(s: seq<Slot>, k: nat, x: Slot)
    requires k < |s|
    ensures CountPlaying(s[k := x]) == CountPlaying(s) - (if s[k].audio == 1 then 1 else 0) + (if x.audio == 1 then 1 else 0)
    ensures CountUsed(s[k := x]) == CountUsed(s) - (if Used(s[k]) then 1 else 0) + (if Used(x) then 1 else 0)
  {
    var n := |s| - 1;
    if k == n { assert s[k := x][..n] == s[..n]; }
    else {
      assert s[k := x][..n] == s[..n][k := x];
      CountsUpdate(s[..n], k, x);
    }
  }

  /** A slot written with a key that no other slot has. */
  lemma AbsWrite(s: seq<Slot>, k: nat, x: Slot)
    requires Unique(s) && k < |s| && Used(x)
    requires forall i :: 0 <= i < |s| && i != k && Used(s[i]) ==> KeyOf(s[i]) != KeyOf(x)
    requires Used(s[k]) ==> KeyOf(s[k]) == KeyOf(x)
    ensures Unique(s[k := x]) && Abs(s[k := x]) == Abs(s)[KeyOf(x) := EntryOf(x)]
  {
    var n := |s| - 1;
    if k == n { assert s[k := x][..n] == s[..n]; }
    else {
      assert s[k := x][..n] == s[..n][k := x];
      AbsWrite(s[..n], k, x);
    }
  }

  lemma AbsFree(s: seq<Slot>, k: nat, x: Slot)
    requires Unique(s) && k < |s| && !Used(x)
    ensures Unique(s[k := x])
    ensures Abs(s[k := x]) == if Used(s[k]) then Abs(s) - {KeyOf(s[k])} else Abs(s)
  {
    var n := |s| - 1;
    if k == n {
      assert s[k := x][..n] == s[..n];
      AbsHas(s[..n], KeyOf(s[k]));
    } else {
      assert s[k := x][..n] == s[..n][k := x];
      AbsFree(s[..n], k, x);
    }
  }

  // ---------------------------------------------------------------- what an event does to the map

  /** An event: its type, its ids, and what the outside answers to the handler: `challenged` is a
      401 or 407, `refused` an offer that call_new or call_modified turns down, `sdp` a response
      with a body, `start` a media connection for which os_sound_start succeeds. */
  datatype Event = Event(kind: int, cid: int, did: int, tid: int, challenged: bool, refused: bool, sdp: bool, start: bool)

  type Table = map<Key, Entry>

  function Find(m: Table, key: Key): Option<Entry> {
    if key in m then Some(m[key]) else None
  }

  /** The call of the event, or a new one when there is room and its ids are good. */
  function FindOrCreate(m: Table, e: Event, good: bool): Option<Entry> {
    if (e.cid, e.did) in m then Some(m[(e.cid, e.did)])
    else if |m| < MAX_CALLS && good then Some(Entry(0, NOT_USED, false))
    else None
  }

  function Put(m: Table, e: Event, x: Option<Entry>): Table {
    if x.Some? then m[(e.cid, e.did) := x.value] else m
  }

  function OnNew(m: Table, e: Event): Table {
    if |m| == MAX_CALLS || (e.did < 1 && e.cid < 1) || e.refused then m
    else m[(e.cid, e.did) := Entry(e.tid, e.kind, false)]
  }

  function OnAck(m: Table, e: Event): Table {
    match Find(m, (e.cid, e.did))
    case None => m
    case Some(x) => Put(m, e, Some(Entry(x.tid, e.kind, x.playing || e.start)))
  }

  function OnProceeding(m: Table, e: Event): Table {
    match FindOrCreate(m, e, e.did >= 1 && e.cid >= 1)
    case None => m
    case Some(x) => Put(m, e, Some(Entry(x.tid, e.kind, x.playing)))
  }

  function OnRinging(m: Table, e: Event): Table {
    match FindOrCreate(m, e, e.did >= 1 && e.cid >= 1)
    case None => m
    case Some(x) => Put(m, e, Some(Entry(e.tid, e.kind, x.playing || e.start)))
  }

  function OnAnswered(m: Table, e: Event): Table {
    match FindOrCreate(m, e, e.did >= 1 || e.cid >= 1)
    case None => m
    case Some(x) => Put(m, e, Some(Entry(x.tid, e.kind, (x.playing && !e.sdp) || e.start)))
  }

  function OnModified(m: Table, e: Event): Table {
    match Find(m, (e.cid, e.did))
    case None => m
    case Some(x) => Put(m, e, Some(Entry(e.tid, e.kind, if e.refused then x.playing else e.start)))
  }

  /** Redirections and failures; a challenge leaves the call alone. */
  function OnOver(m: Table, e: Event): Table {
    if e.challenged then m else m - {(e.cid, e.did)}
  }

  /** call_closed looks at the cid alone and ends one call that has it. */
  ghost predicate OnClosed(m: Table, m': Table, e: Event) {
    if exists did :: (e.cid, did) in m
    then exists did :: (e.cid, did) in m && m' == m - {(e.cid, did)}
    else m' == m
  }

  // ---------------------------------------------------------------- runs

  datatype Command =
    | DoNew(e: Event) | DoCreate(cid: int) | DoAck(e: Event) | DoProceeding(e: Event) | DoRinging(e: Event)
    | DoAnswered(e: Event) | DoModified(e: Event) | DoOver(e: Event) | DoClosed(e: Event) | DoRemove(pos: int)

  /** No event has the type 0, which marks a free slot. */
  predicate Typed(c: Command) {
    !c.DoCreate? && !c.DoRemove? ==> c.e.kind != NOT_USED
  }

  /** A call that is announced is not known yet. */
  predicate Announces(c: Command, m: Table) {
    match c
    case DoNew(e) => (e.cid, e.did) !in m
    case DoCreate(cid) => (cid, -1) !in m
    case _ => true
  }

  ghost predicate Effect(c: Command, m: Table, m': Table) {
    match c
    case DoNew(e) => m' == OnNew(m, e)
    case DoCreate(cid) => m' == if |m| < MAX_CALLS then m[(cid, -1) := Entry(0, -1, false)] else m
    case DoAck(e) => m' == OnAck(m, e)
    case DoProceeding(e) => m' == OnProceeding(m, e)
    case DoRinging(e) => m' == OnRinging(m, e)
    case DoAnswered(e) => m' == OnAnswered(m, e)
    case DoModified(e) => m' == OnModified(m, e)
    case DoOver(e) => m' == OnOver(m, e)
    case DoClosed(e) => OnClosed(m, m', e)
    case DoRemove(pos) => if 0 <= pos < |m| then exists key :: key in m && m' == m - {key} else m' == m
  }

  /** The tables of a run, as far as each announced call was new. */
  ghost predicate IsRun(ms: seq<Table>, cs: seq<Command>) {
    && 1 <= |ms| <= |cs| + 1
    && (forall i :: 0 <= i < |ms| - 1 ==> Announces(cs[i], ms[i]) && Effect(cs[i], ms[i], ms[i + 1]))
    && (|ms| <= |cs| ==> !Announces(cs[|ms| - 1], ms[|ms| - 1]))
  }

  // ---------------------------------------------------------------- what a run leaves

  /** The call that a command writes when it is accepted, and the type that it gives to it. */
  function Written(c: Command): Option<(Key, int)> {
    match c
    case DoCreate(cid) => Some(((cid, -1), -1))
    case DoNew(e) => Some(((e.cid, e.did), e.kind))
    case DoAck(e) => Some(((e.cid, e.did), e.kind))
    case DoProceeding(e) => Some(((e.cid, e.did), e.kind))
    case DoRinging(e) => Some(((e.cid, e.did), e.kind))
    case DoAnswered(e) => Some(((e.cid, e.did), e.kind))
    case DoModified(e) => Some(((e.cid, e.did), e.kind))
    case _ => None
  }

  predicate Writes(c: Command, key: Key) {
    Written(c).Some? && Written(c).value.0 == key
  }

  /** A written call has the type of its event; no other call changes, though one may end. */
  lemma CommandWrites(c: Command, m: Table, m': Table, key: Key)
    requires Effect(c, m, m') && Announces(c, m) && key in m'
    ensures if Writes(c, key) then m'[key].state == Written(c).value.1 else key in m && m'[key] == m[key]
  {
  }

  /** Which calls a command opens, keeps and ends. */
  lemma CommandKeeps(c: Command, m: Table, m': Table, key: Key)
    requires Effect(c, m, m') && Announces(c, m) && |m| <= MAX_CALLS
    ensures c.DoAck? || c.DoModified? ==> (key in m' <==> key in m)
    ensures c.DoProceeding? || c.DoRinging? || c.DoAnswered? ==>
              (key in m' <==> key in m || (key == (c.e.cid, c.e.did) && |m| < 10
                                           && if c.DoAnswered? then c.e.did >= 1 || c.e.cid >= 1 else c.e.did >= 1 && c.e.cid >= 1))
    ensures c.DoNew? ==>
              (key in m' <==> key in m || (key == (c.e.cid, c.e.did) && |m| < 10 && (c.e.did >= 1 || c.e.cid >= 1) && !c.e.refused))
    ensures c.DoOver? ==> (key in m' <==> key in m && (key != (c.e.cid, c.e.did) || c.e.challenged))
    ensures c.DoClosed? && key in m && key !in m' ==> key.0 == c.e.cid
    ensures |m'| <= MAX_CALLS
  {
    if c.DoCreate? || c.DoNew? || c.DoProceeding? || c.DoRinging? || c.DoAnswered? { Bounded(c, m, m'); }
    match c
    case DoOver(e) => Shrinks(m, (e.cid, e.did));
    case DoClosed(e) => ClosedShrinks(m, m', e);
    case DoRemove(pos) => if key' :| key' in m && m' == m - {key'} { Shrinks(m, key'); }
    case DoAck(e) => Grows(m, m', (e.cid, e.did));
    case DoModified(e) => Grows(m, m', (e.cid, e.did));
    case _ =>
  }

  lemma Shrinks(m: Table, key: Key)
    ensures |m - {key}| <= |m|
  {
    assert (m - {key}).Keys == m.Keys - {key};
    if key in m { assert |m.Keys| == |m.Keys - {key}| + 1; } else { assert m.Keys - {key} == m.Keys; }
  }

  lemma ClosedShrinks(m: Table, m': Table, e: Event)
    requires OnClosed(m, m', e)
    ensures |m'| <= |m| && m'.Keys <= m.Keys
  {
    if exists did :: (e.cid, did) in m {
      var did :| (e.cid, did) in m && m' == m - {(e.cid, did)};
      Shrinks(m, (e.cid, did));
    }
  }

  lemma Grows(m: Table, m': Table, key: Key)
    requires m'.Keys == m.Keys || m'.Keys == m.Keys + {key}
    ensures |m'| <= |m| + 1 && (key in m ==> |m'| == |m|) && (m'.Keys == m.Keys ==> |m'| == |m|)
  {
    assert |m'| == |m'.Keys| && |m| == |m.Keys|;
    if key in m { assert m.Keys + {key} == m.Keys; }
  }

  lemma Bounded(c: Command, m: Table, m': Table)
    requires Effect(c, m, m') && |m| <= MAX_CALLS && (c.DoCreate? || c.DoNew? || c.DoProceeding? || c.DoRinging? || c.DoAnswered?)
    ensures |m'| <= MAX_CALLS
  {
    var key := Written(c).value.0;
    assert m'.Keys == m.Keys || m'.Keys == m.Keys + {key};
    Grows(m, m', key);
  }

  /** Over every run from the empty table: a call on the table has the type of the last command
      that was about it. */
  lemma {:induction false} TypeOfLastEvent(ms: seq<Table>, cs: seq<Command>, n: nat, key: Key)
    requires IsRun(ms, cs) && ms[0] == map[] && n < |ms| && key in ms[n]
    ensures exists x :: 0 <= x < n && LastAbout(cs[..n], x, key) && ms[n][key].state == Written(cs[x]).value.1
  {
    hide Effect, Announces, Written;
    CommandWrites(cs[n - 1], ms[n - 1], ms[n - 1 + 1], key);
    assert cs[..n - 1] == cs[..n][..n - 1] && cs[..n][n - 1] == cs[n - 1];
    if Writes(cs[n - 1], key) {
      assert LastAbout(cs[..n], n - 1, key);
    } else {
      TypeOfLastEvent(ms, cs, n - 1, key);
      var x :| 0 <= x < n - 1 && LastAbout(cs[..n - 1], x, key) && ms[n - 1][key].state == Written(cs[x]).value.1;
      assert LastAbout(cs[..n], x, key);
    }
  }

  predicate LastAbout(cs: seq<Command>, x: nat, key: Key) {
    x < |cs| && Writes(cs[x], key) && forall y :: x < y < |cs| ==> !Writes(cs[y], key)
  }

  /** Whether a call plays after an event about it. */
  lemma EventPlays(c: Command, m: Table, m': Table)
    requires Effect(c, m, m') && Announces(c, m) && Written(c).Some? && Written(c).value.0 in m'
    ensures var key := Written(c).value.0;
            var before := key in m && m[key].playing;
            m'[key].playing == match c
              case DoNew(_) => false
              case DoCreate(_) => false
              case DoAck(e) => before || e.start
              case DoProceeding(_) => before
              case DoRinging(e) => before || e.start
              case DoAnswered(e) => if e.sdp then e.start else before || e.start
              case DoModified(e) => if e.refused then before else e.start
              case _ => before
  {
  }

  /** The transaction of a call after an event about it: that of a new, a ringing or a modified call
      is the event's; the others keep theirs, and a call that they create has none. */
  lemma EventTransaction(c: Command, m: Table, m': Table)
    requires Effect(c, m, m') && Announces(c, m) && Written(c).Some? && Written(c).value.0 in m'
    ensures var key := Written(c).value.0;
            m'[key].tid == match c
              case DoNew(e) => e.tid
              case DoRinging(e) => e.tid
              case DoModified(e) => e.tid
              case _ => if key in m && !c.DoCreate? then m[key].tid else 0
  {
  }

  // ---------------------------------------------------------------- the slots

  class Calls {
    const slots: array<Slot>
    var starts: nat
    var closes: nat

    /** A free slot never plays, and every sound that was started and not closed is playing in
        some slot. */
    ghost predicate Valid()
      reads this, slots
    {
      && slots.Length == MAX_CALLS
      && (forall i :: 0 <= i < MAX_CALLS ==> slots[i].audio <= 1 && (slots[i].audio == 1 ==> Used(slots[i])))
      && starts - closes == CountPlaying(slots[..])
    }

    ghost predicate Keyed()
      reads this, slots
    {
      Unique(slots[..])
    }

    ghost function View(): Table
      reads this, slots
    {
      Abs(slots[..])
    }

    /** __call_init */
    constructor ()
      ensures Valid() && Keyed() && View() == map[] && fresh(slots) && starts == 0 && closes == 0
    {
      slots := new Slot[MAX_CALLS](_ => Slot(0, 0, 0, NOT_USED, 0));
      starts, closes := 0, 0;
      new;
      NothingUsed(slots[..]);
    }

    // ---------------------------------------------------------------- searches

    /** The slot of a call, as every handler looks for it. */
    method FindKey(cid: int, did: int) returns (k: nat)
      requires slots.Length == MAX_CALLS
      ensures k <= MAX_CALLS
      ensures k < MAX_CALLS ==> Used(slots[k]) && KeyOf(slots[k]) == (cid, did)
      ensures k == MAX_CALLS ==> forall i :: 0 <= i < MAX_CALLS && Used(slots[i]) ==> KeyOf(slots[i]) != (cid, did)
    {
      k := 0;
      while k < MAX_CALLS
        invariant k <= MAX_CALLS
        invariant forall i :: 0 <= i < k && Used(slots[i]) ==> KeyOf(slots[i]) != (cid, did)
      {
        if slots[k].state != NOT_USED && slots[k].cid == cid && slots[k].did == did { return; }
        k := k + 1;
      }
    }

    method FindFree() returns (k: nat)
      requires slots.Length == MAX_CALLS
      ensures k <= MAX_CALLS
      ensures k < MAX_CALLS ==> !Used(slots[k])
      ensures k == MAX_CALLS ==> forall i :: 0 <= i < MAX_CALLS ==> Used(slots[i])
    {
      k := 0;
      while k < MAX_CALLS
        invariant k <= MAX_CALLS
        invariant forall i :: 0 <= i < k ==> Used(slots[i])
      {
        if slots[k].state == NOT_USED { return; }
        k := k + 1;
      }
    }

    /** call_get_number_of_pending_calls */
    method Pending() returns (n: nat)
      requires slots.Length == MAX_CALLS
      ensures n == CountUsed(slots[..]) <= MAX_CALLS
      ensures Keyed() ==> n == |View()|
    {
      n := 0;
      var k := 0;
      while k < MAX_CALLS
        invariant 0 <= k <= MAX_CALLS
        invariant n == CountUsed(slots[..k])
      {
        assert slots[..k + 1][..k] == slots[..k];
        if slots[k].state != NOT_USED { n := n + 1; }
        k := k + 1;
      }
      assert slots[..k] == slots[..];
      CountFull(slots[..]);
      if Keyed() { AbsSize(slots[..]); }
    }

    /** call_find_call: the call number `pos` of those in use, when there are that many. */
    method FindCall(pos: int) returns (k: Option<nat>)
      requires slots.Length == MAX_CALLS
      ensures k.Some? <==> 0 <= pos < CountUsed(slots[..])
      ensures k.Some? ==> k.value < MAX_CALLS && Used(slots[k.value]) && CountUsed(slots[..k.value]) == pos
    {
      var p := pos;
      var i := 0;
      while i < MAX_CALLS
        invariant 0 <= i <= MAX_CALLS
        invariant p == pos - CountUsed(slots[..i])
        invariant pos < 0 || p >= 0
      {
        assert slots[..i + 1][..i] == slots[..i];
        CountPrefix(slots[..], i + 1);
        if slots[i].state != NOT_USED {
          if p == 0 { return Some(i); }
          p := p - 1;
        }
        i := i + 1;
      }
      assert slots[..i] == slots[..];
      return None;
    }

    // ---------------------------------------------------------------- one slot

    /** The slot of the event's call, else a cleared one when there is room and its ids are good. */
    method Locate(e: Event, good: bool) returns (k: nat)
      requires Valid()
      modifies slots
      ensures Valid() && k <= MAX_CALLS
      ensures k < MAX_CALLS ==> KeyOf(slots[k]) == (e.cid, e.did)
                                && (!Used(slots[k]) ==> slots[k] == Slot(e.cid, e.did, 0, NOT_USED, 0) && Vacant(e))
      ensures old(Keyed()) ==> Keyed() && View() == old(View())
                               && FindOrCreate(View(), e, good) == if k < MAX_CALLS then Some(EntryOf(slots[k])) else None
    {
      k := FindKey(e.cid, e.did);
      if k < MAX_CALLS {
        if Keyed() { AbsHas(slots[..], (e.cid, e.did)); }
        return;
      }
      k := FindFree();
      if Keyed() { AbsHas(slots[..], (e.cid, e.did)); AbsSize(slots[..]); }
      CountFull(slots[..]);
      if k == MAX_CALLS { return; }
      ghost var s := slots[..];
      slots[k] := Slot(e.cid, e.did, 0, NOT_USED, 0);
      assert slots[..] == s[k := slots[k]];
      CountsUpdate(s, k, slots[k]);
      if old(Keyed()) { AbsFree(s, k, slots[k]); }
      if !good { k := MAX_CALLS; }
    }

    /** No call has the key of the event. */
    ghost predicate Vacant(e: Event)
      reads slots
    {
      forall i :: 0 <= i < slots.Length && Used(slots[i]) ==> KeyOf(slots[i]) != (e.cid, e.did)
    }

    /** if (ca->enable_audio > 0) os_sound_close (ca) */
    method CloseAudio(k: nat)
      requires k < slots.Length && slots[k].audio <= 1
      modifies this`closes, slots
      ensures slots[..] == old(slots[..])[k := slots[k]]
      ensures slots[k] == old(slots[k]).(audio := if old(slots[k].audio) == 1 then -1 else old(slots[k].audio))
      ensures closes == old(closes) + if old(slots[k].audio) == 1 then 1 else 0
    {
      if slots[k].audio > 0 {
        slots[k] := slots[k].(audio := -1);
        closes := closes + 1;
      }
    }

    /** if (ca->enable_audio != 1) ... os_sound_start (ca, port) */
    method StartAudio(k: nat, start: bool)
      requires k < slots.Length
      modifies this`starts, slots
      ensures slots[..] == old(slots[..])[k := slots[k]]
      ensures slots[k] == old(slots[k]).(audio := if start then 1 else old(slots[k].audio))
      ensures starts == old(starts) + if start && old(slots[k].audio) != 1 then 1 else 0
    {
      if slots[k].audio != 1 && start {
        slots[k] := slots[k].(audio := 1);
        starts := starts + 1;
      }
    }

    /** ca->state = NOT_USED, after the sound is closed */
    method Free(k: nat)
      requires Valid() && k < MAX_CALLS && Used(slots[k])
      modifies this`closes, slots
      ensures Valid()
      ensures old(Keyed()) ==> Keyed() && View() == old(View()) - {old(KeyOf(slots[k]))}
    {
      ghost var s := slots[..];
      CloseAudio(k);
      slots[k] := slots[k].(state := NOT_USED);
      assert slots[..] == s[k := slots[k]];
      CountsUpdate(s, k, slots[k]);
      if old(Keyed()) { AbsFree(s, k, slots[k]); }
    }

    /** The effect of a handler that rewrote slot `k` of the table `s`, and only that. */
    lemma Rewritten(s: seq<Slot>, k: nat, e: Event)
      requires slots.Length == MAX_CALLS == |s| && k < MAX_CALLS && slots[..] == s[k := slots[k]]
      requires Used(slots[k]) && KeyOf(slots[k]) == (e.cid, e.did) && slots[k].audio <= 1
      requires forall i :: 0 <= i < MAX_CALLS ==> s[i].audio <= 1 && (s[i].audio == 1 ==> Used(s[i]))
      requires starts - closes - (if slots[k].audio == 1 then 1 else 0) == CountPlaying(s) - (if s[k].audio == 1 then 1 else 0)
      ensures Valid()
      ensures Unique(s) && (if Used(s[k]) then KeyOf(s[k]) == (e.cid, e.did)
                            else forall i :: 0 <= i < |s| && Used(s[i]) ==> KeyOf(s[i]) != (e.cid, e.did))
              ==> Keyed() && View() == Abs(s)[(e.cid, e.did) := EntryOf(slots[k])]
    {
      CountsUpdate(s, k, slots[k]);
      if Unique(s) && (if Used(s[k]) then KeyOf(s[k]) == (e.cid, e.did)
                       else forall i :: 0 <= i < |s| && Used(s[i]) ==> KeyOf(s[i]) != (e.cid, e.did)) {
        AbsWrite(s, k, slots[k]);
      }
    }

    // ---------------------------------------------------------------- events

    /** call_proceeding */
    method Proceeding(e: Event) returns (code: int)
      requires Valid() && e.kind != NOT_USED
      modifies this, slots
      ensures Valid()
      ensures old(Keyed()) ==> Keyed() && View() == OnProceeding(old(View()), e)
      ensures old(Keyed()) ==> (code == 0 <==> (e.cid, e.did) in View())
    {
      var k := Locate(e, e.did >= 1 && e.cid >= 1);
      if k == MAX_CALLS { return -1; }
      ghost var s := slots[..];
      slots[k] := slots[k].(state := e.kind);
      Rewritten(s, k, e);
      code := 0;
    }

    /** call_ringing */
    method Ringing(e: Event) returns (code: int)
      requires Valid() && e.kind != NOT_USED
      modifies this, slots
      ensures Valid()
      ensures old(Keyed()) ==> Keyed() && View() == OnRinging(old(View()), e)
      ensures old(Keyed()) ==> (code == 0 <==> (e.cid, e.did) in View())
    {
      var k := Locate(e, e.did >= 1 && e.cid >= 1);
      if k == MAX_CALLS { return -1; }
      ghost var s := slots[..];
      slots[k] := slots[k].(cid := e.cid, did := e.did, tid := e.tid);
      StartAudio(k, e.start);
      slots[k] := slots[k].(state := e.kind);
      Rewritten(s, k, e);
      code := 0;
    }

    /** call_answered; `exits` when the handler ends the program, because a new call comes
        without either id. */
    method Answered(e: Event) returns (code: int, exits: bool)
      requires Valid() && e.kind != NOT_USED
      modifies this, slots
      ensures Valid()
      ensures old(Keyed()) ==> Keyed() && View() == OnAnswered(old(View()), e)
      ensures old(Keyed()) ==> (code == 0 <==> (e.cid, e.did) in View())
      ensures old(Keyed()) ==> (exits <==> (e.cid, e.did) !in old(View()) && |old(View())| < MAX_CALLS && e.did < 1 && e.cid < 1)
    {
      if Keyed() { Room(); }
      var free := FindFree();
      var k := Locate(e, e.did >= 1 || e.cid >= 1);
      if k == MAX_CALLS { return -1, e.did < 1 && e.cid < 1 && free < MAX_CALLS; }
      ghost var s := slots[..];
      if e.sdp { CloseAudio(k); }
      StartAudio(k, e.start);
      slots[k] := slots[k].(state := e.kind);
      Rewritten(s, k, e);
      code, exits := 0, false;
    }

    /** call_new; the application never announces the ids of a call in use. */
    method New(e: Event) returns (code: int)
      requires Valid() && e.kind != NOT_USED
      modifies this, slots
      ensures Valid()
      ensures old(Keyed() && Vacant(e)) ==> Keyed() && View() == OnNew(old(View()), e)
      ensures code == 0 || View() == old(View()) || !old(Keyed())
    {
      var k := FindFree();
      if Keyed() { AbsSize(slots[..]); }
      CountFull(slots[..]);
      if k == MAX_CALLS { return -1; }
      ghost var s := slots[..];
      slots[k] := Slot(e.cid, e.did, e.tid, NOT_USED, 0);
      assert slots[..] == s[k := slots[k]];
      CountsUpdate(s, k, slots[k]);
      if old(Keyed()) { AbsFree(s, k, slots[k]); }
      if slots[k].did < 1 && slots[k].cid < 1 { return -1; }
      if e.refused { return 0; }
      slots[k] := slots[k].(state := e.kind);
      Rewritten(s, k, e);
      code := 0;
    }

    /** call_create_call */
    method Create(cid: int) returns (k: Option<nat>)
      requires Valid()
      modifies slots
      ensures Valid()
      ensures k.None? <==> forall i :: 0 <= i < MAX_CALLS ==> old(Used(slots[i]))
      ensures old(Keyed()) && (cid, -1) !in old(View()) ==>
                Keyed() && View() == if k.Some? then old(View())[(cid, -1) := Entry(0, -1, false)] else old(View())
    {
      var i := FindFree();
      if i == MAX_CALLS { return None; }
      ghost var s := slots[..];
      slots[i] := Slot(cid, -1, 0, -1, 0);
      if Unique(s) { AbsHas(s, (cid, -1)); }
      Rewritten(s, i, Event(-1, cid, -1, 0, false, false, false, false));
      return Some(i);
    }

    /** call_ack */
    method Ack(e: Event) returns (code: int)
      requires Valid() && e.kind != NOT_USED
      modifies this, slots
      ensures Valid()
      ensures old(Keyed()) ==> Keyed() && View() == OnAck(old(View()), e)
      ensures old(Keyed()) ==> (code == 0 <==> (e.cid, e.did) in old(View()))
    {
      var k := FindKey(e.cid, e.did);
      if Keyed() { AbsHas(slots[..], (e.cid, e.did)); }
      if k == MAX_CALLS { return -1; }
      ghost var s := slots[..];
      StartAudio(k, e.start);
      slots[k] := slots[k].(state := e.kind);
      Rewritten(s, k, e);
      code := 0;
    }

    /** call_modified */
    method Modified(e: Event) returns (code: int)
      requires Valid() && e.kind != NOT_USED
      modifies this, slots
      ensures Valid()
      ensures old(Keyed()) ==> Keyed() && View() == OnModified(old(View()), e)
      ensures old(Keyed()) ==> (code == 0 <==> (e.cid, e.did) in old(View()))
    {
      var k := FindKey(e.cid, e.did);
      if Keyed() { AbsHas(slots[..], (e.cid, e.did)); }
      if k == MAX_CALLS { return -1; }
      ghost var s := slots[..];
      slots[k] := slots[k].(tid := e.tid, state := e.kind);
      if e.refused {
        Rewritten(s, k, e);
        return 0;
      }
      CloseAudio(k);
      StartAudio(k, e.start);
      Rewritten(s, k, e);
      code := 0;
    }

    /** call_requestfailure; call_redirected, call_serverfailure and call_globalfailure do the
        same without the test for a challenge. */
    method Over(e: Event) returns (code: int)
      requires Valid()
      modifies this, slots
      ensures Valid()
      ensures old(Keyed()) ==> Keyed() && View() == OnOver(old(View()), e)
      ensures old(Keyed()) ==> (code == 0 <==> e.challenged || (e.cid, e.did) in old(View()))
    {
      var k := FindKey(e.cid, e.did);
      if Keyed() { AbsHas(slots[..], (e.cid, e.did)); }
      if e.challenged { return 0; }
      if k == MAX_CALLS { return -1; }
      Free(k);
      code := 0;
    }

    /** call_closed */
    method Closed(e: Event) returns (code: int)
      requires Valid()
      modifies this, slots
      ensures Valid()
      ensures old(Keyed()) ==> Keyed() && OnClosed(old(View()), View(), e)
    {
      var k := 0;
      while k < MAX_CALLS && !(slots[k].state != NOT_USED && slots[k].cid == e.cid)
        invariant 0 <= k <= MAX_CALLS
        invariant forall i :: 0 <= i < k && Used(slots[i]) ==> slots[i].cid != e.cid
      {
        k := k + 1;
      }
      if k == MAX_CALLS {
        if Keyed() {
          forall did ensures (e.cid, did) !in View() { AbsHas(slots[..], (e.cid, did)); }
        }
        return -1;
      }
      if Keyed() { AbsHas(slots[..], KeyOf(slots[k])); }
      Free(k);
      code := 0;
    }

    /** call_remove, of the call number `pos` on the screen */
    method Remove(pos: int) returns (code: int)
      requires Valid()
      modifies this, slots
      ensures Valid()
      ensures code == 0 <==> 0 <= pos < old(CountUsed(slots[..]))
      ensures old(Keyed()) ==> Keyed() && Effect(DoRemove(pos), old(View()), View())
    {
      var k := FindCall(pos);
      if Keyed() { AbsSize(slots[..]); }
      if k.None? { return -1; }
      if Keyed() { AbsHas(slots[..], KeyOf(slots[k.value])); }
      Free(k.value);
      code := 0;
    }

    /** Free slots are left exactly while the map is not full. */
    lemma Room()
      requires Valid() && Keyed()
      ensures |View()| <= MAX_CALLS
      ensures |View()| == MAX_CALLS <==> forall i :: 0 <= i < MAX_CALLS ==> Used(slots[i])
    {
      AbsSize(slots[..]);
      CountFull(slots[..]);
    }

    lemma VacantKey(e: Event)
      requires Valid() && Keyed()
      ensures Vacant(e) <==> (e.cid, e.did) !in View()
    {
      AbsHas(slots[..], (e.cid, e.did));
    }

    method Handle(c: Command)
      requires Valid() && Typed(c)
      modifies this, slots
      ensures Valid()
      ensures old(Keyed()) && Announces(c, old(View())) ==> Keyed() && Effect(c, old(View()), View())
    {
      hide OnClosed;
      if Keyed() {
        Room();
        if c.DoNew? { VacantKey(c.e); }
      }
      var code;
      match c
      case DoNew(e) => code := New(e);
      case DoCreate(cid) => var k := Create(cid);
      case DoAck(e) => code := Ack(e);
      case DoProceeding(e) => code := Proceeding(e);
      case DoRinging(e) => code := Ringing(e);
      case DoAnswered(e) => var exits; code, exits := Answered(e);
      case DoModified(e) => code := Modified(e);
      case DoOver(e) => code := Over(e);
      case DoClosed(e) => code := Closed(e);
      case DoRemove(pos) => code := Remove(pos);
    }

    /** Any run keeps the sound accounts; and until a call is announced that is in use already,
        the slots are the bounded map at every step. */
    method HandleAll(cs: seq<Command>) returns (ghost ms: seq<Table>)
      requires Valid() && Keyed() && forall i :: 0 <= i < |cs| ==> Typed(cs[i])
      modifies this, slots
      ensures Valid()
      ensures IsRun(ms, cs) && ms[0] == old(View())
      ensures |ms| == |cs| + 1 ==> Keyed() && View() == ms[|cs|]
    {
      hide Effect, Announces;
      ms := [View()];
      ghost var stale := false;
      var n := 0;
      while n < |cs|
        invariant 0 <= n <= |cs| && Valid()
        invariant 1 <= |ms| <= n + 1 && ms[0] == old(View())
        invariant forall i :: 0 <= i < |ms| - 1 ==> Announces(cs[i], ms[i]) && Effect(cs[i], ms[i], ms[i + 1])
        invariant if stale then |ms| <= n && !Announces(cs[|ms| - 1], ms[|ms| - 1])
                  else |ms| == n + 1 && Keyed() && View() == ms[n]
      {
        stale := stale || !Announces(cs[n], View());
        Handle(cs[n]);
        if !stale { ms := ms + [View()]; }
        n := n + 1;
      }
    }
  }

  lemma NothingUsed(s: seq<Slot>)
    requires forall i :: 0 <= i < |s| ==> !Used(s[i]) && s[i].audio != 1
    ensures Unique(s) && Abs(s) == map[] && CountPlaying(s) == 0 && CountUsed(s) == 0
  {
    if s != [] { NothingUsed(s[..|s| - 1]); }
  }

  lemma CountPrefix(s: seq<Slot>, i: nat)
    requires i <= |s|
    ensures CountUsed(s[..i]) <= CountUsed(s)
  {
    if i < |s| {
      assert s[..|s| - 1][..i] == s[..i];
      CountPrefix(s[..|s| - 1], i);
    } else {
      assert s[..i] == s;
    }
  }
}
