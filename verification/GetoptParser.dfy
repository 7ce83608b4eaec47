/** The option parser as an object: an argument array permuted in place, and four positions. */
module GetoptParser {
  import opened Wrappers
  import opened Getopt
  import opened GetoptTheorems

  /** Reverses a[start..start + len]. */
  method Reverse(a: array<string>, start: nat, len: nat)
    requires start + len <= a.Length
    modifies a
    ensures ReversedIn(old(a[..]), a[..], start, len)
  {
    var i, n := start, len;
    while n >= 2
      invariant 0 <= n <= len && start <= i && 2 * i + n == 2 * start + len
      invariant forall k :: 0 <= k < start ==> a[k] == old(a[k])
      invariant forall k :: start + len <= k < a.Length ==> a[k] == old(a[k])
      invariant forall k :: i <= k < i + n ==> a[k] == old(a[k])
      invariant forall k :: start <= k < i ==> a[k] == old(a[2 * start + len - 1 - k])
      invariant forall k :: i + n <= k < start + len ==> a[k] == old(a[2 * start + len - 1 - k])
    {
      a[i], a[i + n - 1] := a[i + n - 1], a[i];
      i, n := i + 1, n - 2;
    }
  }

  function Exchanged(b: seq<string>, start: nat, len1: nat, len2: nat, k: nat): string
    requires start + len1 + len2 <= |b| && k < |b|
  {
    if start <= k < start + len2 then b[k + len1]
    else if start + len2 <= k < start + len2 + len1 then b[k - len2]
    else b[k]
  }

  /** Exchanges the neighbouring blocks of lengths len1 and len2 that begin at start. */
  method Exchange(a: array<string>, start: nat, len1: nat, len2: nat)
    requires start + len1 + len2 <= a.Length
    modifies a
    ensures a[..] == old(a[..start] + a[start + len1..start + len1 + len2] + a[start..start + len1] + a[start + len1 + len2..])
  {
    hide ReversedIn;
    ghost var b := a[..];
    Reverse(a, start, len1 + len2);
    ghost var b1 := a[..];
    Reverse(a, start, len2);
    ghost var b2 := a[..];
    Reverse(a, start + len2, len1);
    Rotation(b, b1, b2, a[..], start, len1, len2);
  }

  /** `c` is `b` with the block of length len at start reversed. */
  predicate ReversedIn(b: seq<string>, c: seq<string>, start: nat, len: nat) {
    && start + len <= |b| == |c|
    && forall k :: 0 <= k < |b| ==> c[k] == b[Mirror(start, len, k)]
  }

  /** Where the element at `k` comes from. */
  function Mirror(start: nat, len: nat, k: nat): (r: nat)
    ensures start <= k < start + len ==> start <= r < start + len
    ensures !(start <= k < start + len) ==> r == k
  {
    if start <= k < start + len then 2 * start + len - 1 - k else k
  }

  lemma ReversedElement(b: seq<string>, c: seq<string>, start: nat, len: nat, k: nat)
    requires ReversedIn(b, c, start, len) && k < |b|
    ensures Mirror(start, len, k) < |b| && c[k] == b[Mirror(start, len, k)]
  {
  }

  /** Three mirrors make the exchange. */
  lemma ThreeMirrors(start: nat, len1: nat, len2: nat, k: nat)
    ensures Mirror(start, len1 + len2, Mirror(start, len2, Mirror(start + len2, len1, k)))
            == if start <= k < start + len2 then k + len1
               else if start + len2 <= k < start + len2 + len1 then k - len2 else k
  {
  }

  lemma ThreeReversals(b: seq<string>, b1: seq<string>, b2: seq<string>, b3: seq<string>, start: nat, len1: nat, len2: nat, k: nat)
    requires start + len1 + len2 <= |b| && k < |b| && |b| == |b1| == |b2| == |b3|
    requires ReversedIn(b, b1, start, len1 + len2) && ReversedIn(b1, b2, start, len2) && ReversedIn(b2, b3, start + len2, len1)
    ensures b3[k] == Exchanged(b, start, len1, len2, k)
  {
    hide ReversedIn, Mirror;
    var k2 := Mirror(start + len2, len1, k);
    var k1 := Mirror(start, len2, k2);
    ReversedElement(b2, b3, start + len2, len1, k);
    ReversedElement(b1, b2, start, len2, k2);
    ReversedElement(b, b1, start, len1 + len2, k1);
    ThreeMirrors(start, len1, len2, k);
  }

  lemma ExchangeOfBlocks(b: seq<string>, c: seq<string>, start: nat, len1: nat, len2: nat)
    requires start + len1 + len2 <= |b| == |c|
    requires forall k :: 0 <= k < |b| ==> c[k] == Exchanged(b, start, len1, len2, k)
    ensures c == b[..start] + b[start + len1..start + len1 + len2] + b[start..start + len1] + b[start + len1 + len2..]
  {
  }

  /** Reversing two neighbouring blocks together, then each alone, exchanges them. */
  lemma Rotation(b: seq<string>, b1: seq<string>, b2: seq<string>, b3: seq<string>, start: nat, len1: nat, len2: nat)
    requires start + len1 + len2 <= |b| && |b| == |b1| == |b2| == |b3|
    requires ReversedIn(b, b1, start, len1 + len2) && ReversedIn(b1, b2, start, len2) && ReversedIn(b2, b3, start + len2, len1)
    ensures b3 == b[..start] + b[start + len1..start + len1 + len2] + b[start..start + len1] + b[start + len1 + len2..]
  {
    hide ReversedIn, Exchanged;
    forall k | 0 <= k < |b| ensures b3[k] == Exchanged(b, start, len1, len2, k) {
      ThreeReversals(b, b1, b2, b3, start, len1, len2, k);
    }
    ExchangeOfBlocks(b, b3, start, len1, len2);
  }

  method SearchLong(opts: seq<Opt>, p: string) returns (r: Option<Opt>)
    ensures r == FindLong(opts, p)
  {
    var i := 0;
    while i < |opts|
      invariant 0 <= i <= |opts|
      invariant FindLong(opts, p) == FindLong(opts[i..], p)
    {
      if MatchesLong(opts[i], p) { return Some(opts[i]); }
      i := i + 1;
    }
    return None;
  }

  method SearchShort(opts: seq<Opt>, ch: char) returns (r: Option<Opt>)
    ensures r == FindShort(opts, ch)
  {
    var i := 0;
    while i < |opts|
      invariant 0 <= i <= |opts|
      invariant FindShort(opts, ch) == FindShort(opts[i..], ch)
    {
      if opts[i].optch == ch as int { return Some(opts[i]); }
      i := i + 1;
    }
    return None;
  }

  class Parser {
    const argv: array<string>
    const interleave: bool
    var ind: nat
    var place: string
    var skipStart: nat
    var skipEnd: nat

    ghost predicate Valid()
      reads this
    {
      && 1 <= skipStart <= ind
      && (ind <= argv.Length || (argv.Length == 0 && ind == 1 && place == ""))
      && (!interleave ==> skipEnd == skipStart)
      && (interleave && place != "" ==> skipEnd == ind)
    }

    ghost function View(): Parse
      reads this, argv
      requires Valid()
    {
      if argv.Length == 0 then Parse([], [], [], "")
      else Parse(argv[..skipStart], argv[skipStart..ind], argv[ind..], place)
    }

    /** The positions and the array stand for `a` with `used` more arguments read. */
    ghost predicate Reading(a: Parse, used: nat)
      reads this, argv
    {
      && used <= |a.rest| && argv.Length > 0 && a.front != []
      && argv[..] == a.front + a.skipped + a.rest
      && skipStart == |a.front|
      && ind == |a.front| + |a.skipped| + used
      && skipEnd == if interleave then |a.front| + |a.skipped| else skipStart
    }

    /** The array, cut at the positions. */
    lemma Cut(a: Parse)
      requires Valid() && argv.Length > 0 && argv[..] == a.front + a.skipped + a.rest
      requires skipStart == |a.front| && ind == |a.front| + |a.skipped| && place == a.place
      ensures View() == a
    {
      var v := View();
      assert v.front == argv[..][..skipStart] && v.skipped == argv[..][skipStart..ind] && v.rest == argv[..][ind..];
    }

    /** ppl_getopt_init; the caller chooses `interleave` before the first call. */
    constructor (argv: array<string>, interleave: bool)
      ensures this.argv == argv && this.interleave == interleave
      ensures Valid() && ind == 1
      ensures View() == if argv.Length == 0 then Parse([], [], [], "") else Parse(argv[..1], [], argv[1..], "")
    {
      this.argv, this.interleave := argv, interleave;
      ind, place, skipStart, skipEnd := 1, "", 1, 1;
    }

    method Permute(ghost a: Parse, ghost used: nat)
      requires Reading(a, used)
      modifies this`skipStart, this`skipEnd, argv
      ensures Valid() && View() == Accept(a, interleave, used, place)
    {
      ghost var b := argv[..];
      ghost var r := Accept(a, interleave, used, place);
      assert b == a.front + a.skipped + a.rest[..used] + a.rest[used..];
      var len1, len2 := skipEnd - skipStart, ind - skipEnd;
      if interleave {
        assert b[..skipStart] == a.front && b[skipStart..skipEnd] == a.skipped
               && b[skipEnd..ind] == a.rest[..used] && b[ind..] == a.rest[used..];
        Exchange(argv, skipStart, len1, len2);
      } else {
        assert r.front + r.skipped + r.rest == b;
      }
      skipStart, skipEnd := skipStart + len2, skipEnd + len2;
      Cut(r);
    }

    /** A long option `arg`, just read. */
    method LongOption(arg: string, opts: seq<Opt>, ghost a: Parse) returns (st: Status)
      requires Reading(a, 1) && place == "" == a.place && a.rest[0] == arg && |arg| > 2
      modifies this`ind, this`skipStart, this`skipEnd, argv
      ensures st != Eof
      ensures Valid() && View() == CallLong(a, opts, interleave).0 && st == CallLong(a, opts, interleave).1
    {
      hide FindLong, Accept, Refuse;
      var p := arg[2..];
      var o := SearchLong(opts, p);
      if o.None? { KeepsReading(a, 1); return BadChar; }
      var len := |o.value.name|;
      var optarg := None;
      if o.value.hasArg {
        if len < |p| { optarg := Some(p[len + 1..]); }
        else if ind >= argv.Length { KeepsReading(a, 1); return BadArg(o.value.optch); }
        else { optarg := Some(argv[ind]); ind := ind + 1; }
      } else if len < |p| {
        KeepsReading(a, 1);
        return BadArg(o.value.optch);
      }
      Permute(a, ind - old(ind) + 1);
      return Success(o.value.optch, optarg);
    }

    /** A short option `p[0]`, of the argument just read (`own` is 1) or of an earlier one. */
    method ShortOption(p: string, opts: seq<Opt>, ghost a: Parse, ghost own: nat) returns (st: Status)
      requires own <= 1 && p != "" && Reading(a, own) && place == a.place
      requires place == if own == 0 then p else ""
      modifies this
      modifies argv
      ensures st != Eof
      ensures Valid() && View() == CallShort(a, opts, interleave, p, own).0
      ensures st == CallShort(a, opts, interleave, p, own).1
    {
      hide FindShort, Accept, Refuse;
      var o := SearchShort(opts, p[0]);
      if o.None? { KeepsReading(a, own); return BadChar; }
      var optarg := None;
      if o.value.hasArg {
        if |p| > 1 { optarg := Some(p[1..]); }
        else if ind >= argv.Length { KeepsReading(a, own); return BadArg(p[0] as int); }
        else { optarg := Some(argv[ind]); ind := ind + 1; }
        place := "";
      } else {
        place := p[1..];
      }
      Permute(a, ind - old(ind) + own);
      return Success(p[0] as int, optarg);
    }

    /** An argument that is refused is left where it was read. */
    lemma KeepsReading(a: Parse, own: nat)
      requires own <= 1 && Reading(a, own) && place == a.place && (own == 1 ==> place == "")
      ensures Valid() && View() == if own == 1 then Refuse(a) else a
    {
      var r := if own == 1 then Refuse(a) else a;
      assert r.front + r.skipped + r.rest == argv[..];
      Cut(r);
    }

    lemma SkipReads(a: Parse, from: nat)
      requires 1 <= skipStart <= from <= ind <= argv.Length
      requires a == Parse(argv[..skipStart], argv[skipStart..from], argv[from..], "")
      requires if interleave then skipEnd == ind && (ind < argv.Length ==> IsOption(argv[ind]))
                                  && forall k :: from <= k < ind ==> !IsOption(argv[k])
               else skipEnd == skipStart && ind == from
      ensures Reading(Skip(a, interleave), 0)
    {
      assert argv[..] == a.front + a.skipped + a.rest;
      if interleave {
        assert forall k :: 0 <= k < ind - from ==> a.rest[k] == argv[from + k];
        assert Operands(a.rest) == ind - from;
      }
    }

    /** With interleaving, goes to the next argument that is an option. */
    method SkipOperands()
      requires Valid() && place == ""
      modifies this`ind, this`skipEnd
      ensures Valid()
      ensures argv.Length > 0 ==> Reading(Skip(old(View()), interleave), 0)
      ensures argv.Length == 0 ==> Skip(old(View()), interleave) == View() == Parse([], [], [], "")
    {
      hide Skip, Operands;
      if argv.Length == 0 { NothingToSkip(interleave); }
      if interleave {
        while ind < argv.Length && !IsOption(argv[ind])
          invariant old(ind) <= ind && (ind <= argv.Length || ind == old(ind))
          invariant forall k :: old(ind) <= k < ind ==> !IsOption(argv[k])
        {
          ind := ind + 1;
        }
        skipEnd := ind;
      }
      if argv.Length > 0 { SkipReads(old(View()), old(ind)); }
    }

    method EndOfOptions(ghost b: Parse)
      requires Valid() && place == "" && argv[..] == b.front + b.skipped + b.rest
      requires argv.Length > 0 ==> skipStart == |b.front|
      modifies this`ind
      ensures Valid() && View() == Finish(b) && ind == skipStart
    {
      ind := skipStart;
      if argv.Length > 0 {
        assert argv[..] == b.front + [] + (b.skipped + b.rest);
        Cut(Finish(b));
      }
    }

    /** A bare "--" was read. */
    method DoubleDash(ghost b: Parse)
      requires Reading(b, 1) && place == ""
      modifies this, argv
      ensures Valid() && View() == Finish(Accept(b, interleave, 1, "")) && ind == skipStart
    {
      hide Accept;
      Permute(b, 1);
      EndOfOptions(View());
    }

    /** Reads the argument at `ind`, which is an option. */
    method NextArgument(opts: seq<Opt>, ghost b: Parse) returns (st: Status)
      requires Reading(b, 0) && b.rest != [] && IsOption(b.rest[0]) && place == "" && b.place == ""
      modifies this, argv
      ensures Valid() && View() == CallArgument(b, opts, interleave).0
      ensures st == CallArgument(b, opts, interleave).1
      ensures st == Eof ==> ind == skipStart
    {
      hide CallLong, CallShort, Accept, Finish, Refuse;
      var arg := argv[ind];
      assert arg == b.rest[0] by { assert argv[..][ind] == arg; }
      ind := ind + 1;
      if |arg| > 2 && arg[1] == '-' {
        st := LongOption(arg, opts, b);
      } else if |arg| == 2 && arg[1] == '-' {
        DoubleDash(b);
        return Eof;
      } else if |arg| == 1 {
        KeepsReading(b, 1);
        return BadChar;
      } else {
        st := ShortOption(arg[1..], opts, b, 1);
      }
    }

    /** ppl_getopt_long */
    method GetoptLong(opts: seq<Opt>) returns (st: Status)
      requires Valid()
      modifies this, argv
      ensures Valid()
      ensures View() == Call(old(View()), opts, interleave).0
      ensures st == Call(old(View()), opts, interleave).1
      ensures st == Eof ==> ind == skipStart
    {
      hide Skip, CallArgument, CallShort;
      ghost var a := View();
      if place != "" {
        assert Reading(a, 0);
        st := ShortOption(place, opts, a, 0);
        return;
      }
      SkipOperands();
      ghost var b := Skip(a, interleave);
      if ind >= argv.Length || !IsOption(argv[ind]) {
        EndOfOptions(b);
        return Eof;
      }
      assert b.rest != [] && b.rest[0] == argv[ind] by { assert argv[..][ind] == argv[ind]; }
      st := NextArgument(opts, b);
    }

    /** A whole run: for as long as the parser succeeds. */
    method ParseAll(opts: seq<Opt>) returns (pairs: seq<Status>, end: Status)
      requires Valid()
      modifies this, argv
      ensures Valid()
      ensures Calls(old(View()), opts, interleave) == Outcome(pairs, View(), end)
      ensures end == Eof ==> ind == skipStart
    {
      hide Call, Calls;
      pairs := [];
      CallsUnfold(View(), opts, interleave);
      end := GetoptLong(opts);
      while end.Success?
        invariant Valid()
        invariant var o := Calls(old(View()), opts, interleave);
                  if end.Success? then o == (var r := Calls(View(), opts, interleave); r.(pairs := pairs + [end] + r.pairs))
                  else o == Outcome(pairs, View(), end)
        invariant end == Eof ==> ind == skipStart
        decreases if end.Success? then 1 else 0, |View().rest|, |View().place|
      {
        pairs := pairs + [end];
        ghost var a := View();
        CallsUnfold(a, opts, interleave);
        end := GetoptLong(opts);
        if end.Success? { CallProgress(a, opts, interleave); }
      }
    }
  }

  /** A program that parses its command line: the options it sees are those of one scan of the
      original arguments, and when the run ends well the array is a stable partition of
      them, with `ind` at the first argument that is left to the program. */
  method ParseCommandLine(argv: array<string>, opts: seq<Opt>, interleave: bool)
    returns (pairs: seq<Status>, end: Status, ind: nat)
    modifies argv
    ensures argv.Length == 0 ==> pairs == [] && end == Eof
    ensures argv.Length > 0 ==>
              var r := Scan(old(argv[1..]), opts, interleave);
              && pairs == r.pairs && end == r.end
              && Partition(old(argv[1..]), r, interleave)
              && (end == Eof ==> argv[..] == [old(argv[0])] + r.taken + (r.operands + r.tail) && ind == 1 + |r.taken|)
  {
    hide Scan, Calls, Partition;
    var parser := new Parser(argv, interleave);
    ghost var args := argv[..];
    pairs, end := parser.ParseAll(opts);
    ind := parser.ind;
    if argv.Length == 0 { NothingToParse(opts, interleave); }
    else {
      assert args[..1] == [args[0]];
      RunConclusion(args[0], args[1..], opts, interleave);
      ghost var b := parser.View();
      assert argv[..] == b.front + b.skipped + b.rest;
    }
  }

  /** A run from the start, in the terms of the scan. */
  lemma RunConclusion(name: string, args: seq<string>, opts: seq<Opt>, interleave: bool)
    ensures var o, r := Calls(Parse([name], [], args, ""), opts, interleave), Scan(args, opts, interleave);
            && o.pairs == r.pairs && o.end == r.end && Partition(args, r, interleave)
            && (o.end == Eof ==>
                  && o.last.front + o.last.skipped + o.last.rest == [name] + r.taken + (r.operands + r.tail)
                  && |o.last.front| == 1 + |r.taken|)
  {
    hide Scan, Calls, Partition;
    CallsAgree(Parse([name], [], args, ""), opts, interleave);
    ScanPartition(args, opts, interleave);
    var r := Scan(args, opts, interleave);
    assert [name] + r.taken + [] + ([] + r.operands + r.tail) == [name] + r.taken + (r.operands + r.tail);
  }

  lemma NothingToSkip(interleave: bool)
    ensures Skip(Parse([], [], [], ""), interleave) == Parse([], [], [], "")
  {
  }

  lemma NothingToParse(opts: seq<Opt>, interleave: bool)
    ensures var o := Calls(Parse([], [], [], ""), opts, interleave); o.pairs == [] && o.end == Eof
  {
  }
}
