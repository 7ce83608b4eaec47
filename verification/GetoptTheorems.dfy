/** What a run of the option parser computes: the scan of the original command line, and a
    stable partition of its arguments. */
module GetoptTheorems {
  import opened Wrappers
  import opened Getopt

  // ---------------------------------------------------------------- runs are scans

  /** `o` is what `r` announces, for a run that starts in `a`. */
  predicate Agrees(a: Parse, r: Scanned, o: Outcome) {
    && o.pairs == r.pairs && o.end == r.end
    && (r.end == Eof ==> o.last == Parse(a.front + r.taken, [], a.skipped + r.operands + r.tail, ""))
  }

  function ScanFrom(a: Parse, opts: seq<Opt>, interleave: bool): Scanned {
    if a.place == "" then Scan(a.rest, opts, interleave) else ScanCluster(a.place, a.rest, opts, interleave)
  }

  lemma EmptyCluster(args: seq<string>, opts: seq<Opt>, interleave: bool)
    ensures ScanCluster("", args, opts, interleave) == Scan(args, opts, interleave)
  {
    var r := Scan(args, opts, interleave);
    assert [] + r.pairs == r.pairs && [] + r.taken == r.taken;
  }

  lemma FlagFirst(p: string, args: seq<string>, opts: seq<Opt>, interleave: bool)
    requires p != "" && FindShort(opts, p[0]).Some? && !FindShort(opts, p[0]).value.hasArg
    ensures ScanCluster(p, args, opts, interleave)
            == Prepend([Success(p[0] as int, None)], [], ScanCluster(p[1..], args, opts, interleave))
  {
    var st := [Success(p[0] as int, None)];
    var r := ReadCluster(p[1..], opts);
    match r {
      case Flags(fs) => PrependTwice(st, [], fs, [], Scan(args, opts, interleave));
      case Unknown(fs) => PrependTwice(st, [], fs, [], Stop(BadChar, args));
      case WithArg(fs, ch, arg) =>
        PrependTwice(st, [], fs + [Success(ch, Some(arg))], [], Scan(args, opts, interleave));
        assert st + (fs + [Success(ch, Some(arg))]) == st + fs + [Success(ch, Some(arg))];
      case NeedsArg(fs, ch) =>
        if args == [] { PrependTwice(st, [], fs, [], Stop(BadArg(ch), args)); }
        else {
          PrependTwice(st, [], fs + [Success(ch, Some(args[0]))], args[..1], Scan(args[1..], opts, interleave));
          assert st + (fs + [Success(ch, Some(args[0]))]) == st + fs + [Success(ch, Some(args[0]))];
        }
    }
  }

  lemma PrependTwice(ps: seq<Status>, ts: seq<string>, qs: seq<Status>, us: seq<string>, r: Scanned)
    ensures Prepend(ps, ts, Prepend(qs, us, r)) == Prepend(ps + qs, ts + us, r)
  {
    assert ps + (qs + r.pairs) == (ps + qs) + r.pairs;
    assert ts + (us + r.taken) == (ts + us) + r.taken;
  }

  /** One successful call, followed by a run that agrees with its scan. */
  lemma SuccessAgrees(a: Parse, opts: seq<Opt>, interleave: bool, used: nat, place: string, st: Status, r: Scanned)
    requires interleave || a.skipped == []
    requires used <= |a.rest| && st.Success?
    requires Call(a, opts, interleave) == (Accept(a, interleave, used, place), st)
    requires Agrees(Accept(a, interleave, used, place), r, Calls(Accept(a, interleave, used, place), opts, interleave))
    ensures Agrees(a, Prepend([st], a.rest[..used], r), Calls(a, opts, interleave))
  {
    hide Call, Scan, FindLong, FindShort;
    assert a.front + [] + a.rest[..used] == a.front + a.rest[..used];
    assert a.front + (a.rest[..used] + r.taken) == a.front + a.rest[..used] + r.taken;
    assert Calls(a, opts, interleave).pairs == [st] + Calls(Accept(a, interleave, used, place), opts, interleave).pairs;
  }

  lemma FailureAgrees(a: Parse, opts: seq<Opt>, interleave: bool)
    requires !Call(a, opts, interleave).1.Success?
    ensures Calls(a, opts, interleave) == Outcome([], Call(a, opts, interleave).0, Call(a, opts, interleave).1)
  {
  }

  /** A non-option is skipped without a trace in the pairs. */
  lemma SkipFirst(a: Parse, opts: seq<Opt>)
    requires a.place == "" && a.rest != [] && !IsOption(a.rest[0])
    ensures Calls(a, opts, true) == Calls(a.(skipped := a.skipped + [a.rest[0]], rest := a.rest[1..]), opts, true)
  {
    var b := a.(skipped := a.skipped + [a.rest[0]], rest := a.rest[1..]);
    var n := Operands(b.rest);
    assert a.rest[..n + 1] == [a.rest[0]] + b.rest[..n];
    assert a.skipped + ([a.rest[0]] + b.rest[..n]) == b.skipped + b.rest[..n];
    assert a.rest[n + 1..] == b.rest[n..];
    assert Skip(a, true) == Skip(b, true);
  }

  lemma NoSkip(a: Parse, interleave: bool)
    requires a.rest == [] || IsOption(a.rest[0])
    ensures Skip(a, interleave) == a
  {
    assert a.skipped + a.rest[..0] == a.skipped && a.rest[0..] == a.rest;
  }

  /** The next letter of a run of short options. */
  lemma LetterAgrees(a: Parse, opts: seq<Opt>, interleave: bool)
    requires a.place != "" && (interleave || a.skipped == [])
    ensures Agrees(a, ScanFrom(a, opts, interleave), Calls(a, opts, interleave))
    decreases |a.rest|, |a.place|, 0
  {
    hide Calls, FindLong, Scan;
    var p := a.place;
    assert a.rest[..0] == [];
    match FindShort(opts, p[0])
    case None => FailureAgrees(a, opts, interleave);
    case Some(o) =>
      var ch := p[0] as int;
      if !o.hasArg {
        var b := Accept(a, interleave, 0, p[1..]);
        assert b.rest == a.rest;
        CallsAgree(b, opts, interleave);
        if p[1..] == "" { EmptyCluster(a.rest, opts, interleave); }
        FlagFirst(p, a.rest, opts, interleave);
        SuccessAgrees(a, opts, interleave, 0, p[1..], Success(ch, None), ScanFrom(b, opts, interleave));
      } else if |p| > 1 {
        var b := Accept(a, interleave, 0, "");
        assert b.rest == a.rest;
        CallsAgree(b, opts, interleave);
        SuccessAgrees(a, opts, interleave, 0, "", Success(ch, Some(p[1..])), ScanFrom(b, opts, interleave));
      } else if a.rest == [] {
        FailureAgrees(a, opts, interleave);
      } else {
        var b := Accept(a, interleave, 1, "");
        CallsAgree(b, opts, interleave);
        SuccessAgrees(a, opts, interleave, 1, "", Success(ch, Some(a.rest[0])), ScanFrom(b, opts, interleave));
      }
  }

  lemma CallIsLong(a: Parse, opts: seq<Opt>, interleave: bool)
    requires a.place == "" && a.rest != [] && |a.rest[0]| > 2 && a.rest[0][0] == '-' && a.rest[0][1] == '-'
    ensures Call(a, opts, interleave) == CallLong(a, opts, interleave)
  {
    hide CallLong, Skip;
    NoSkip(a, interleave);
  }

  lemma LongAgrees(a: Parse, opts: seq<Opt>, interleave: bool)
    requires a.place == "" && a.rest != [] && |a.rest[0]| > 2 && a.rest[0][0] == '-' && a.rest[0][1] == '-'
    requires interleave || a.skipped == []
    ensures Agrees(a, ScanLong(a.rest, opts, interleave), Calls(a, opts, interleave))
    decreases |a.rest|, |a.place|, 0
  {
    hide Call, Calls, Scan, FindLong, Agrees;
    CallIsLong(a, opts, interleave);
    var p := a.rest[0][2..];
    match FindLong(opts, p)
    case None => StopAgrees(a, opts, interleave);
    case Some(o) =>
      if o.hasArg && |p| == |o.name| && |a.rest| > 1 {
        CallsAgree(Accept(a, interleave, 2, ""), opts, interleave);
        SuccessAgrees(a, opts, interleave, 2, "", Success(o.optch, Some(a.rest[1])), Scan(a.rest[2..], opts, interleave));
      } else if o.hasArg && |p| > |o.name| {
        CallsAgree(Accept(a, interleave, 1, ""), opts, interleave);
        var arg := p[|o.name| + 1..];
        assert arg == a.rest[0][3 + |o.name|..];
        SuccessAgrees(a, opts, interleave, 1, "", Success(o.optch, Some(arg)), Scan(a.rest[1..], opts, interleave));
      } else if !o.hasArg && |p| == |o.name| {
        CallsAgree(Accept(a, interleave, 1, ""), opts, interleave);
        SuccessAgrees(a, opts, interleave, 1, "", Success(o.optch, None), Scan(a.rest[1..], opts, interleave));
      } else {
        StopAgrees(a, opts, interleave);
      }
  }

  lemma StopAgrees(a: Parse, opts: seq<Opt>, interleave: bool)
    requires Call(a, opts, interleave).1.BadChar? || Call(a, opts, interleave).1.BadArg?
    ensures Agrees(a, Stop(Call(a, opts, interleave).1, a.rest), Calls(a, opts, interleave))
  {
    FailureAgrees(a, opts, interleave);
  }

  /** The first letter of an argument behaves like a letter whose argument is already consumed. */
  lemma FirstLetter(a: Parse, opts: seq<Opt>, interleave: bool)
    requires a.place == "" && a.rest != [] && |a.rest[0]| > 1
    requires interleave || a.skipped == []
    ensures var st := CallShort(a, opts, interleave, a.rest[0][1..], 1);
            var st' := Call(Accept(a, interleave, 1, a.rest[0][1..]), opts, interleave);
            st'.1 == st.1 && (st.1.Success? ==> st' == st)
  {
    hide FindShort, FindLong;
    var p := a.rest[0][1..];
    var b := Accept(a, interleave, 1, p);
    assert a.front + [] == a.front;
    assert b == Parse(a.front + a.rest[..1], a.skipped, a.rest[1..], p);
    assert Accept(b, interleave, 0, "") == b.(place := "") && Accept(b, interleave, 0, p[1..]) == b.(place := p[1..]) by {
      assert b.front + b.rest[..0] == b.front && b.rest[0..] == b.rest;
    }
    if |a.rest| > 1 {
      assert a.front + a.rest[..1] + b.rest[..1] == a.front + a.rest[..2];
      assert b.rest[1..] == a.rest[2..];
      assert Accept(b, interleave, 1, "") == Accept(a, interleave, 2, "");
    }
  }

  lemma CallsFrom(a: Parse, b: Parse, opts: seq<Opt>, interleave: bool)
    requires Call(a, opts, interleave) == Call(b, opts, interleave)
    ensures Calls(a, opts, interleave) == Calls(b, opts, interleave)
  {
    hide Call;
  }

  lemma CallIsShort(a: Parse, opts: seq<Opt>, interleave: bool)
    requires a.place == "" && a.rest != [] && |a.rest[0]| > 1 && a.rest[0][0] == '-' && a.rest[0][1] != '-'
    ensures Call(a, opts, interleave) == CallShort(a, opts, interleave, a.rest[0][1..], 1)
  {
    hide CallShort, Skip;
    NoSkip(a, interleave);
  }

  lemma ScanIsCluster(args: seq<string>, opts: seq<Opt>, interleave: bool)
    requires args != [] && |args[0]| > 1 && args[0][0] == '-' && args[0][1] != '-'
    ensures var r := ScanCluster(args[0][1..], args[1..], opts, interleave);
            Scan(args, opts, interleave) == if r.pairs == [] then Stop(r.end, args) else Prepend([], args[..1], r)
  {
    hide ScanCluster;
  }

  lemma ClusterAgrees(a: Parse, opts: seq<Opt>, interleave: bool)
    requires a.place == "" && a.rest != [] && |a.rest[0]| > 1 && a.rest[0][0] == '-' && a.rest[0][1] != '-'
    requires interleave || a.skipped == []
    ensures Agrees(a, Scan(a.rest, opts, interleave), Calls(a, opts, interleave))
    decreases |a.rest|, |a.place|, 0
  {
    hide Call, Calls, CallShort, Scan, ScanCluster;
    CallIsShort(a, opts, interleave);
    ScanIsCluster(a.rest, opts, interleave);
    var p := a.rest[0][1..];
    var b := Accept(a, interleave, 1, p);
    assert b.rest == a.rest[1..];
    FirstLetter(a, opts, interleave);
    LetterAgrees(b, opts, interleave);
    if Call(a, opts, interleave).1.Success? {
      CallsFrom(a, b, opts, interleave);
      PairsOfSuccess(b, opts, interleave);
      assert a.front + [] == a.front;
      var r := ScanCluster(p, a.rest[1..], opts, interleave);
      assert a.front + (a.rest[..1] + r.taken) == a.front + a.rest[..1] + r.taken;
      assert [] + r.pairs == r.pairs;
    } else {
      FailureAgrees(a, opts, interleave);
      FailureAgrees(b, opts, interleave);
      ShortFails(a, opts, interleave, p);
    }
  }

  lemma ShortFails(a: Parse, opts: seq<Opt>, interleave: bool, p: string)
    requires p != "" && a.rest != []
    ensures CallShort(a, opts, interleave, p, 1).1 != Eof
  {
  }

  lemma PairsOfSuccess(a: Parse, opts: seq<Opt>, interleave: bool)
    requires Call(a, opts, interleave).1.Success?
    ensures Calls(a, opts, interleave).pairs != []
  {
    hide Call;
  }

  /** The run from any state computes the scan of what is left. */
  lemma CallsAgree(a: Parse, opts: seq<Opt>, interleave: bool)
    requires interleave || a.skipped == []
    ensures Agrees(a, ScanFrom(a, opts, interleave), Calls(a, opts, interleave))
    decreases |a.rest|, |a.place|, 1
  {
    hide Calls, ScanLong, ScanCluster, Agrees;
    if a.place != "" { LetterAgrees(a, opts, interleave); }
    else if a.rest == [] { EndAgrees(a, opts, interleave); }
    else if !IsOption(a.rest[0]) {
      if interleave { OperandAgrees(a, opts); } else { EndAgrees(a, opts, interleave); }
    }
    else if a.rest[0] == "--" { DashesAgree(a, opts, interleave); }
    else if a.rest[0] == "-" { DashAgrees(a, opts, interleave); }
    else if a.rest[0][1] == '-' { LongAgrees(a, opts, interleave); }
    else { ClusterAgrees(a, opts, interleave); }
  }

  lemma OperandAgrees(a: Parse, opts: seq<Opt>)
    requires a.place == "" && a.rest != [] && !IsOption(a.rest[0])
    ensures Agrees(a, Scan(a.rest, opts, true), Calls(a, opts, true))
    decreases |a.rest|, |a.place|, 0
  {
    hide Calls;
    SkipFirst(a, opts);
    var b := a.(skipped := a.skipped + [a.rest[0]], rest := a.rest[1..]);
    CallsAgree(b, opts, true);
    var r := Scan(b.rest, opts, true);
    assert a.skipped + [a.rest[0]] + r.operands == a.skipped + ([a.rest[0]] + r.operands);
  }

  lemma EndAgrees(a: Parse, opts: seq<Opt>, interleave: bool)
    requires a.place == "" && (a.rest == [] || (!interleave && !IsOption(a.rest[0])))
    ensures Agrees(a, Scan(a.rest, opts, interleave), Calls(a, opts, interleave))
  {
    hide CallArgument;
    if a.rest == [] { NoSkip(a, interleave); }
    FailureAgrees(a, opts, interleave);
    assert a.front + [] == a.front && a.skipped + [] + a.rest == a.skipped + a.rest;
  }

  lemma CallIsDashes(a: Parse, opts: seq<Opt>, interleave: bool)
    requires a.place == "" && a.rest != [] && a.rest[0] == "--"
    ensures Call(a, opts, interleave) == (Finish(Accept(a, interleave, 1, "")), Eof)
  {
    hide CallLong, CallShort, Skip, Accept, Finish;
    NoSkip(a, interleave);
  }

  lemma ScanIsDashes(args: seq<string>, opts: seq<Opt>, interleave: bool)
    requires args != [] && args[0] == "--"
    ensures Scan(args, opts, interleave) == Scanned([], ["--"], [], args[1..], Eof)
  {
    hide ScanLong, ScanCluster;
  }

  lemma DashesAgree(a: Parse, opts: seq<Opt>, interleave: bool)
    requires a.place == "" && a.rest != [] && a.rest[0] == "--" && (interleave || a.skipped == [])
    ensures Agrees(a, Scan(a.rest, opts, interleave), Calls(a, opts, interleave))
  {
    hide Call, Calls, Scan;
    CallIsDashes(a, opts, interleave);
    ScanIsDashes(a.rest, opts, interleave);
    FailureAgrees(a, opts, interleave);
    assert a.rest[..1] == ["--"];
    assert a.front + [] == a.front;
    assert a.skipped + [] + a.rest[1..] == a.skipped + a.rest[1..];
  }

  lemma DashAgrees(a: Parse, opts: seq<Opt>, interleave: bool)
    requires a.place == "" && a.rest != [] && a.rest[0] == "-"
    ensures Agrees(a, Scan(a.rest, opts, interleave), Calls(a, opts, interleave))
  {
    hide CallLong, CallShort;
    NoSkip(a, interleave);
    FailureAgrees(a, opts, interleave);
  }

  // ---------------------------------------------------------------- the stable partition

  /** `args` is an interleaving of `xs` and `ys`: both appear in it in their own order and
      nothing else does. */
  predicate Merges(args: seq<string>, xs: seq<string>, ys: seq<string>) {
    if args == [] then xs == [] && ys == []
    else || (xs != [] && xs[0] == args[0] && Merges(args[1..], xs[1..], ys))
         || (ys != [] && ys[0] == args[0] && Merges(args[1..], xs, ys[1..]))
  }

  lemma MergesFront(args: seq<string>, n: nat, xs: seq<string>, ys: seq<string>)
    requires n <= |args| && Merges(args[n..], xs, ys)
    ensures Merges(args, args[..n] + xs, ys)
    decreases n
  {
    if n == 0 {
      assert args[0..] == args && args[..0] + xs == xs;
    } else {
      assert args[1..][n - 1..] == args[n..];
      MergesFront(args[1..], n - 1, xs, ys);
      assert (args[..n] + xs)[1..] == args[1..][..n - 1] + xs;
    }
  }

  lemma MergesOperand(args: seq<string>, xs: seq<string>, ys: seq<string>)
    requires args != [] && Merges(args[1..], xs, ys)
    ensures Merges(args, xs, [args[0]] + ys)
  {
    assert ([args[0]] + ys)[1..] == ys;
  }

  /** A scan loses no argument and keeps their order: what it took and the operands merge to
      the arguments before the tail.  Operands are no options; a scan that ends well leaves a
      tail only behind "--" or, without interleaving, from the first operand on. */
  predicate Partition(args: seq<string>, r: Scanned, interleave: bool) {
    && |r.tail| <= |args| && r.tail == args[|args| - |r.tail|..]
    && Merges(args[..|args| - |r.tail|], r.taken, r.operands)
    && (forall x :: x in r.operands ==> !IsOption(x))
    && (!interleave ==> r.operands == [])
    && (r.end == Eof && r.tail != [] ==>
          (r.taken != [] && r.taken[|r.taken| - 1] == "--") || (!interleave && !IsOption(r.tail[0])))
  }

  lemma PrependPartition(args: seq<string>, n: nat, ps: seq<Status>, r: Scanned, interleave: bool)
    requires n <= |args| && Partition(args[n..], r, interleave)
    ensures Partition(args, Prepend(ps, args[..n], r), interleave)
  {
    var m := |args| - |r.tail|;
    assert args[n..][..m - n] == args[..m][n..];
    assert args[..m][..n] == args[..n];
    MergesFront(args[..m], n, r.taken, r.operands);
    assert args[n..][m - n..] == args[m..];
  }

  lemma StopPartition(args: seq<string>, end: Status, interleave: bool)
    requires end == Eof ==> args == [] || (!interleave && !IsOption(args[0]))
    ensures Partition(args, Stop(end, args), interleave)
  {
    assert args[..0] == [] && args[0..] == args;
  }

  lemma ClusterPartition(p: string, args: seq<string>, opts: seq<Opt>, interleave: bool)
    ensures Partition(args, ScanCluster(p, args, opts, interleave), interleave)
    decreases |args|, 1
  {
    hide Partition, Scan;
    assert args[..0] == [] && args[0..] == args;
    match ReadCluster(p, opts)
    case Flags(fs) =>
      ScanPartition(args, opts, interleave);
      PrependPartition(args, 0, fs, Scan(args, opts, interleave), interleave);
    case Unknown(fs) =>
      StopPartition(args, BadChar, interleave);
      PrependPartition(args, 0, fs, Stop(BadChar, args), interleave);
    case WithArg(fs, ch, arg) =>
      ScanPartition(args, opts, interleave);
      PrependPartition(args, 0, fs + [Success(ch, Some(arg))], Scan(args, opts, interleave), interleave);
    case NeedsArg(fs, ch) =>
      if args == [] {
        StopPartition(args, BadArg(ch), interleave);
        PrependPartition(args, 0, fs, Stop(BadArg(ch), args), interleave);
      } else {
        ScanPartition(args[1..], opts, interleave);
        PrependPartition(args, 1, fs + [Success(ch, Some(args[0]))], Scan(args[1..], opts, interleave), interleave);
      }
  }

  lemma TakePartition(args: seq<string>, n: nat, p: Status, opts: seq<Opt>, interleave: bool)
    requires 0 < n <= |args|
    ensures Partition(args, Prepend([p], args[..n], Scan(args[n..], opts, interleave)), interleave)
    decreases |args|, 0, -1
  {
    hide Partition, Scan;
    ScanPartition(args[n..], opts, interleave);
    PrependPartition(args, n, [p], Scan(args[n..], opts, interleave), interleave);
  }

  lemma LongPartition(args: seq<string>, opts: seq<Opt>, interleave: bool)
    requires args != [] && |args[0]| > 2
    ensures Partition(args, ScanLong(args, opts, interleave), interleave)
    decreases |args|, 0, 0
  {
    hide Partition, Scan, FindLong, Prepend, Stop;
    match FindLong(opts, args[0][2..])
    case None => StopPartition(args, BadChar, interleave);
    case Some(o) =>
      var inline := |args[0]| > 2 + |o.name|;
      if inline != o.hasArg && (inline || |args| == 1) { StopPartition(args, BadArg(o.optch), interleave); }
      else if !o.hasArg { TakePartition(args, 1, Success(o.optch, None), opts, interleave); }
      else if inline { TakePartition(args, 1, Success(o.optch, Some(args[0][3 + |o.name|..])), opts, interleave); }
      else { TakePartition(args, 2, Success(o.optch, Some(args[1])), opts, interleave); }
  }

  lemma OperandPartition(args: seq<string>, r: Scanned)
    requires args != [] && !IsOption(args[0]) && Partition(args[1..], r, true)
    ensures Partition(args, r.(operands := [args[0]] + r.operands), true)
  {
    var m := |args| - |r.tail|;
    assert args[1..][..m - 1] == args[..m][1..];
    assert args[1..][m - 1..] == args[m..];
    MergesOperand(args[..m], r.taken, r.operands);
  }

  lemma ScanPartition(args: seq<string>, opts: seq<Opt>, interleave: bool)
    ensures Partition(args, Scan(args, opts, interleave), interleave)
    decreases |args|, 0, 1
  {
    hide ScanCluster, ScanLong;
    if args == [] { StopPartition(args, Eof, interleave); }
    else if !IsOption(args[0]) {
      if interleave {
        ScanPartition(args[1..], opts, interleave);
        OperandPartition(args, Scan(args[1..], opts, interleave));
      } else {
        StopPartition(args, Eof, interleave);
      }
    }
    else if args[0] == "--" {
      assert args[..1] == ["--"] && (args[..1])[1..] == [];
    }
    else if args[0] == "-" { StopPartition(args, BadChar, interleave); }
    else if args[0][1] == '-' { LongPartition(args, opts, interleave); }
    else {
      ClusterPartition(args[0][1..], args[1..], opts, interleave);
      var r := ScanCluster(args[0][1..], args[1..], opts, interleave);
      PrependPartition(args, 1, [], r, interleave);
      if r.pairs == [] {
        FirstLetterNotEof(args[0][1..], args[1..], opts, interleave);
        StopPartition(args, r.end, interleave);
      }
    }
  }

  lemma FirstLetterNotEof(p: string, args: seq<string>, opts: seq<Opt>, interleave: bool)
    requires p != "" && ScanCluster(p, args, opts, interleave).pairs == []
    ensures ScanCluster(p, args, opts, interleave).end != Eof
  {
    hide Scan;
  }

  // ---------------------------------------------------------------- command lines that say what they mean

  datatype ShortTail = NoArg | Glued(opt: Opt, arg: string) | Separate(opt: Opt, arg: string)

  /** The ways to write an option, and an operand. */
  datatype Word =
    | Operand(text: string)
    | LongFlag(opt: Opt)
    | LongInline(opt: Opt, arg: string)
    | LongSeparate(opt: Opt, arg: string)
    | Short(flags: seq<Opt>, tail: ShortTail)

  predicate ShortName(o: Opt) {
    0 < o.optch < 128 && o.optch != '-' as int
  }

  /** A table whose rows can be told apart. */
  predicate WellFormed(opts: seq<Opt>) {
    && (forall i, j :: 0 <= i < j < |opts| ==> opts[i].optch != opts[j].optch && opts[i].name != opts[j].name)
    && (forall i :: 0 <= i < |opts| ==> opts[i].name != "" && '=' !in opts[i].name)
  }

  predicate WordOk(w: Word, opts: seq<Opt>) {
    match w
    case Operand(s) => !IsOption(s)
    case LongFlag(o) => o in opts && !o.hasArg
    case LongInline(o, _) => o in opts && o.hasArg
    case LongSeparate(o, _) => o in opts && o.hasArg
    case Short(fs, t) =>
      && (forall i :: 0 <= i < |fs| ==> fs[i] in opts && !fs[i].hasArg && ShortName(fs[i]))
      && (t.NoArg? ==> fs != [])
      && (!t.NoArg? ==> t.opt in opts && t.opt.hasArg && ShortName(t.opt))
      && (t.Glued? ==> t.arg != "")
  }

  function Letters(fs: seq<Opt>): (r: string)
    requires forall i :: 0 <= i < |fs| ==> ShortName(fs[i])
  {
    if fs == [] then "" else assert ShortName(fs[0]); [fs[0].optch as char] + Letters(fs[1..])
  }

  function Run(fs: seq<Opt>, t: ShortTail): string
    requires forall i :: 0 <= i < |fs| ==> ShortName(fs[i])
    requires !t.NoArg? ==> ShortName(t.opt)
  {
    Letters(fs) + match t
    case NoArg => ""
    case Glued(o, arg) => [o.optch as char] + arg
    case Separate(o, arg) => [o.optch as char]
  }

  /** The arguments a word is written as. */
  function Write(w: Word, opts: seq<Opt>): seq<string>
    requires WordOk(w, opts)
  {
    match w
    case Operand(s) => [s]
    case LongFlag(o) => ["--" + o.name]
    case LongInline(o, arg) => ["--" + o.name + "=" + arg]
    case LongSeparate(o, arg) => ["--" + o.name, arg]
    case Short(fs, t) => ["-" + Run(fs, t)] + if t.Separate? then [t.arg] else []
  }

  function FlagPairs(fs: seq<Opt>): seq<Status> {
    if fs == [] then [] else [Success(fs[0].optch, None)] + FlagPairs(fs[1..])
  }

  /** The options a word means. */
  function Meaning(w: Word): seq<Status> {
    match w
    case Operand(_) => []
    case LongFlag(o) => [Success(o.optch, None)]
    case LongInline(o, arg) => [Success(o.optch, Some(arg))]
    case LongSeparate(o, arg) => [Success(o.optch, Some(arg))]
    case Short(fs, t) => FlagPairs(fs) + if t.NoArg? then [] else [Success(t.opt.optch, Some(t.arg))]
  }

  predicate WordsOk(ws: seq<Word>, opts: seq<Opt>) {
    forall i :: 0 <= i < |ws| ==> WordOk(ws[i], opts)
  }

  function WriteAll(ws: seq<Word>, opts: seq<Opt>): seq<string>
    requires WordsOk(ws, opts)
  {
    if ws == [] then [] else Write(ws[0], opts) + WriteAll(ws[1..], opts)
  }

  function MeaningAll(ws: seq<Word>): seq<Status> {
    if ws == [] then [] else Meaning(ws[0]) + MeaningAll(ws[1..])
  }

  /** The arguments of the options, and the operands, each in order. */
  function OptionsOf(ws: seq<Word>, opts: seq<Opt>): seq<string>
    requires WordsOk(ws, opts)
  {
    if ws == [] then [] else (if ws[0].Operand? then [] else Write(ws[0], opts)) + OptionsOf(ws[1..], opts)
  }

  function OperandsOf(ws: seq<Word>): seq<string> {
    if ws == [] then [] else (if ws[0].Operand? then [ws[0].text] else []) + OperandsOf(ws[1..])
  }

  lemma FindsShort(opts: seq<Opt>, o: Opt)
    requires o in opts && ShortName(o) && WellFormed(opts)
    ensures FindShort(opts, o.optch as char) == Some(o)
  {
    if opts[0] != o {
      assert o in opts[1..];
      FindsShort(opts[1..], o);
    }
  }

  lemma SameName(o: Opt, o': Opt, p: string)
    requires MatchesLong(o, p) && MatchesLong(o', p) && '=' !in o.name && '=' !in o'.name
    ensures o.name == o'.name
  {
    var a, b := o.name, o'.name;
    assert forall x :: 0 <= x < |a| ==> p[x] == a[x] by { assert p[..|a|] == a; }
    assert forall x :: 0 <= x < |b| ==> p[x] == b[x] by { assert p[..|b|] == b; }
  }

  lemma FindsLong(opts: seq<Opt>, o: Opt, p: string)
    requires o in opts && WellFormed(opts) && MatchesLong(o, p)
    ensures FindLong(opts, p) == Some(o)
  {
    if opts[0] != o {
      assert o in opts[1..];
      if MatchesLong(opts[0], p) { SameName(opts[0], o, p); }
      FindsLong(opts[1..], o, p);
    }
  }

  lemma ReadsTail(t: ShortTail, opts: seq<Opt>)
    requires WellFormed(opts) && (t.NoArg? || WordOk(Short([], t), opts))
    ensures ReadCluster(Run([], t), opts) ==
              match t
              case NoArg => Flags([])
              case Glued(o, arg) => WithArg([], o.optch, arg)
              case Separate(o, arg) => NeedsArg([], o.optch)
  {
    if !t.NoArg? {
      FindsShort(opts, t.opt);
      var p := Run([], t);
      assert p[0] == t.opt.optch as char;
      if t.Glued? { assert p[1..] == t.arg; }
    }
  }

  lemma ReadsFlag(o: Opt, p: string, opts: seq<Opt>)
    requires WellFormed(opts) && o in opts && !o.hasArg && ShortName(o)
    requires p != "" && p[0] == o.optch as char
    ensures var r := ReadCluster(p[1..], opts);
            ReadCluster(p, opts) == r.(flags := [Success(o.optch, None)] + r.flags)
  {
    FindsShort(opts, o);
  }

  lemma RunFirst(fs: seq<Opt>, t: ShortTail)
    requires fs != [] && forall i :: 0 <= i < |fs| ==> ShortName(fs[i])
    requires !t.NoArg? ==> ShortName(t.opt)
    ensures Run(fs, t) != "" && Run(fs, t)[0] == fs[0].optch as char && Run(fs, t)[1..] == Run(fs[1..], t)
  {
    assert ShortName(fs[0]);
  }

  lemma ReadsRun(fs: seq<Opt>, t: ShortTail, opts: seq<Opt>)
    requires WellFormed(opts) && (t.NoArg? || WordOk(Short([], t), opts))
    requires forall i :: 0 <= i < |fs| ==> fs[i] in opts && !fs[i].hasArg && ShortName(fs[i])
    ensures ReadCluster(Run(fs, t), opts) ==
              match t
              case NoArg => Flags(FlagPairs(fs))
              case Glued(o, arg) => WithArg(FlagPairs(fs), o.optch, arg)
              case Separate(o, arg) => NeedsArg(FlagPairs(fs), o.optch)
  {
    hide ReadCluster, WellFormed, Run;
    if fs == [] {
      ReadsTail(t, opts);
    } else {
      var p := Run(fs, t);
      RunFirst(fs, t);
      ReadsFlag(fs[0], p, opts);
      ReadsRun(fs[1..], t, opts);
    }
  }

  lemma ScanWord(w: Word, args: seq<string>, opts: seq<Opt>, interleave: bool)
    requires WellFormed(opts) && WordOk(w, opts) && (w.Operand? ==> interleave)
    ensures var r := Scan(args, opts, interleave);
            Scan(Write(w, opts) + args, opts, interleave)
            == if w.Operand? then r.(operands := [w.text] + r.operands) else Prepend(Meaning(w), Write(w, opts), r)
  {
    var all := Write(w, opts) + args;
    match w
    case Operand(s) => assert all[1..] == args;
    case LongFlag(o) => ScanLongWord(o, "", args, opts, interleave, w);
    case LongInline(o, arg) => ScanLongWord(o, "=" + arg, args, opts, interleave, w);
    case LongSeparate(o, arg) => ScanLongWord(o, "", [arg] + args, opts, interleave, w);
    case Short(fs, t) => ScanShortWord(fs, t, args, opts, interleave);
  }

  lemma ScanLongWord(o: Opt, suffix: string, args: seq<string>, opts: seq<Opt>, interleave: bool, w: Word)
    requires WellFormed(opts) && o in opts && WordOk(w, opts)
    requires || (w == LongFlag(o) && suffix == "")
             || (w.LongInline? && w.opt == o && suffix == "=" + w.arg)
             || (w.LongSeparate? && w.opt == o && suffix == "" && args != [] && args[0] == w.arg)
    ensures Scan(["--" + o.name + suffix] + args, opts, interleave)
            == Prepend(Meaning(w), Write(w, opts), Scan(if w.LongSeparate? then args[1..] else args, opts, interleave))
    ensures Write(w, opts) + (if w.LongSeparate? then args[1..] else args) == ["--" + o.name + suffix] + args
  {
    var all := ["--" + o.name + suffix] + args;
    var p := all[0][2..];
    assert p == o.name + suffix;
    FindsLong(opts, o, p);
    assert |all[0]| > 2 && all[0][0] == '-' && all[0][1] == '-';
    assert "--" + o.name + "" == "--" + o.name;
    assert all[1..] == args && all[..1] == ["--" + o.name + suffix];
    assert Scan(all, opts, interleave) == ScanLong(all, opts, interleave);
    if w.LongInline? {
      assert "--" + o.name + suffix == "--" + o.name + "=" + w.arg;
      assert all[0][3 + |o.name|..] == w.arg;
    }
    if w.LongSeparate? {
      assert all[..2] == Write(w, opts) && all[2..] == args[1..];
    }
  }

  lemma ScanShortWord(fs: seq<Opt>, t: ShortTail, args: seq<string>, opts: seq<Opt>, interleave: bool)
    requires WellFormed(opts) && WordOk(Short(fs, t), opts)
    ensures Scan(Write(Short(fs, t), opts) + args, opts, interleave)
            == Prepend(Meaning(Short(fs, t)), Write(Short(fs, t), opts), Scan(args, opts, interleave))
  {
    hide Scan, ReadCluster;
    var w := Short(fs, t);
    var all := Write(w, opts) + args;
    var p := Run(fs, t);
    assert fs != [] ==> p[0] == fs[0].optch as char;
    assert all[0] == "-" + p && all[0][1..] == p && p != "" && p[0] != '-';
    ReadsRun(fs, t, opts);
    var r := Scan(args, opts, interleave);
    var r1 := ScanCluster(p, all[1..], opts, interleave);
    assert all[..1] == ["-" + p];
    if t.Separate? {
      assert all[1..] == [t.arg] + args && all[1..][1..] == args && all[1..][..1] == [t.arg];
      assert r1 == Prepend(Meaning(w), [t.arg], r);
      PrependTwice([], all[..1], Meaning(w), [t.arg], r);
    } else {
      assert all[1..] == args;
      assert FlagPairs(fs) + [] == FlagPairs(fs);
      assert r1 == Prepend(Meaning(w), [], r);
      PrependTwice([], all[..1], Meaning(w), [], r);
      assert Write(w, opts) == all[..1] + [];
    }
    assert [] + Meaning(w) == Meaning(w);
    ScanIsCluster(all, opts, interleave);
  }

  /** Scanning a written command line gives back exactly the options, arguments and operands
      it was written from. */
  lemma {:induction false} ScanWritten(ws: seq<Word>, opts: seq<Opt>)
    requires WellFormed(opts) && WordsOk(ws, opts)
    ensures Scan(WriteAll(ws, opts), opts, true) == Scanned(MeaningAll(ws), OptionsOf(ws, opts), OperandsOf(ws), [], Eof)
  {
    hide Scan, Write, Meaning;
    if ws == [] {
      ScanNothing(opts);
    } else {
      ScanWritten(ws[1..], opts);
      ScanWord(ws[0], WriteAll(ws[1..], opts), opts, true);
      if ws[0].Operand? { OperandMeaning(ws[0], opts); }
      assert [] + MeaningAll(ws[1..]) == MeaningAll(ws[1..]) && [] + OptionsOf(ws[1..], opts) == OptionsOf(ws[1..], opts);
      assert [] + OperandsOf(ws[1..]) == OperandsOf(ws[1..]);
    }
  }

  lemma ScanNothing(opts: seq<Opt>)
    ensures Scan([], opts, true) == Scanned([], [], [], [], Eof)
  {
  }

  lemma OperandMeaning(w: Word, opts: seq<Opt>)
    requires w.Operand? && WordOk(w, opts)
    ensures Meaning(w) == [] && Write(w, opts) == [w.text]
  {
  }
}
