/** The permuting option parser of josua (pplgetopt.c): what one call computes, and what a
    whole run of calls computes, as functions of the argument list. */
module Getopt {
  import opened Wrappers

  /** One row of the caller's table; the terminating row (`optch` 0) is not part of it. */
  datatype Opt = Opt(name: string, hasArg: bool, optch: int)

  datatype Status =
    | Success(optch: int, arg: Option<string>)
    | Eof
    | BadChar
    | BadArg(optch: int)

  /** The parser between two calls: `front` is what was consumed, `skipped` the non-options
      met since, `rest` what was not looked at, `place` the rest of a run of short options.
      The array is always `front + skipped + rest`. */
  datatype Parse = Parse(front: seq<string>, skipped: seq<string>, rest: seq<string>, place: string)

  predicate IsOption(a: string) {
    a != "" && a[0] == '-'
  }

  predicate MatchesLong(o: Opt, p: string) {
    |o.name| <= |p| && p[..|o.name|] == o.name && (|p| == |o.name| || p[|o.name|] == '=')
  }

  function FindLong(opts: seq<Opt>, p: string): (r: Option<Opt>)
    ensures r.Some? ==> MatchesLong(r.value, p)
  {
    if opts == [] then None else if MatchesLong(opts[0], p) then Some(opts[0]) else FindLong(opts[1..], p)
  }

  function FindShort(opts: seq<Opt>, ch: char): Option<Opt> {
    if opts == [] then None else if opts[0].optch == ch as int then Some(opts[0]) else FindShort(opts[1..], ch)
  }

  function Operands(args: seq<string>): (n: nat)
    ensures n <= |args|
    ensures n < |args| ==> IsOption(args[n])
    ensures forall i :: 0 <= i < n ==> !IsOption(args[i])
  {
    if args == [] || IsOption(args[0]) then 0 else 1 + Operands(args[1..])
  }

  // ---------------------------------------------------------------- one call

  /** The option just read, when `used` arguments belong to it, moves in front of what was
      skipped; without interleaving nothing moves. */
  function Accept(a: Parse, interleave: bool, used: nat, place: string): Parse
    requires used <= |a.rest|
  {
    if interleave then Parse(a.front + a.rest[..used], a.skipped, a.rest[used..], place)
    else Parse(a.front + a.skipped + a.rest[..used], [], a.rest[used..], place)
  }

  /** A refused argument stays where it is. */
  function Refuse(a: Parse): Parse
    requires a.rest != []
  {
    a.(skipped := a.skipped + [a.rest[0]], rest := a.rest[1..])
  }

  function Finish(a: Parse): Parse {
    Parse(a.front, [], a.skipped + a.rest, "")
  }

  function CallLong(a: Parse, opts: seq<Opt>, interleave: bool): (Parse, Status)
    requires a.rest != [] && |a.rest[0]| > 2
  {
    var p := a.rest[0][2..];
    match FindLong(opts, p)
    case None => (Refuse(a), BadChar)
    case Some(o) =>
      if o.hasArg then
        if |p| > |o.name| then (Accept(a, interleave, 1, ""), Success(o.optch, Some(p[|o.name| + 1..])))
        else if |a.rest| == 1 then (Refuse(a), BadArg(o.optch))
        else (Accept(a, interleave, 2, ""), Success(o.optch, Some(a.rest[1])))
      else if |p| > |o.name| then (Refuse(a), BadArg(o.optch))
      else (Accept(a, interleave, 1, ""), Success(o.optch, None))
  }

  /** A short option `p[0]`; `own` is 1 when `p` belongs to the argument `a.rest[0]`, 0 when
      that argument was consumed by an earlier call. */
  function CallShort(a: Parse, opts: seq<Opt>, interleave: bool, p: string, own: nat): (Parse, Status)
    requires p != "" && own <= |a.rest| && own <= 1
  {
    var bad := if own == 1 then Refuse(a) else a;
    match FindShort(opts, p[0])
    case None => (bad, BadChar)
    case Some(o) =>
      var ch := p[0] as int;
      if !o.hasArg then (Accept(a, interleave, own, p[1..]), Success(ch, None))
      else if |p| > 1 then (Accept(a, interleave, own, ""), Success(ch, Some(p[1..])))
      else if |a.rest| == own then (bad, BadArg(ch))
      else (Accept(a, interleave, own + 1, ""), Success(ch, Some(a.rest[own])))
  }

  function Skip(a: Parse, interleave: bool): (r: Parse)
    ensures r.front + r.skipped + r.rest == a.front + a.skipped + a.rest
    ensures r.place == a.place && r.front == a.front
    ensures interleave && r.rest != [] ==> IsOption(r.rest[0])
  {
    if interleave
    then
      assert a.rest == a.rest[..Operands(a.rest)] + a.rest[Operands(a.rest)..];
      a.(skipped := a.skipped + a.rest[..Operands(a.rest)], rest := a.rest[Operands(a.rest)..])
    else a
  }

  function CallArgument(b: Parse, opts: seq<Opt>, interleave: bool): (Parse, Status)
    requires b.rest != [] && IsOption(b.rest[0])
  {
    if b.rest[0] == "--" then (Finish(Accept(b, interleave, 1, "")), Eof)
    else if b.rest[0] == "-" then (Refuse(b), BadChar)
    else if b.rest[0][1] == '-' then CallLong(b, opts, interleave)
    else CallShort(b, opts, interleave, b.rest[0][1..], 1)
  }

  /** ppl_getopt_long */
  function Call(a: Parse, opts: seq<Opt>, interleave: bool): (Parse, Status) {
    if a.place != "" then CallShort(a, opts, interleave, a.place, 0)
    else
      var b := Skip(a, interleave);
      if b.rest == [] || !IsOption(b.rest[0]) then (Finish(b), Eof) else CallArgument(b, opts, interleave)
  }

  // ---------------------------------------------------------------- the scan of an argument list

  /** What a whole command line says: its options with their arguments, the arguments that
      make them up (`taken`), the operands, and what nobody looked at. */
  datatype Scanned = Scanned(pairs: seq<Status>, taken: seq<string>, operands: seq<string>, tail: seq<string>, end: Status)

  /** A run of short options: flags, then possibly one option that takes an argument, in the
      run itself or in the next argument; `None` when the run holds an unknown letter. */
  datatype Cluster = Flags(flags: seq<Status>) | WithArg(flags: seq<Status>, optch: int, arg: string)
                   | NeedsArg(flags: seq<Status>, optch: int) | Unknown(flags: seq<Status>)

  function ReadCluster(p: string, opts: seq<Opt>): (r: Cluster)
    ensures forall i :: 0 <= i < |r.flags| ==> r.flags[i].Success?
  {
    if p == "" then Flags([])
    else match FindShort(opts, p[0])
      case None => Unknown([])
      case Some(o) =>
        if !o.hasArg then
          var r := ReadCluster(p[1..], opts);
          r.(flags := [Success(p[0] as int, None)] + r.flags)
        else if |p| > 1 then WithArg([], p[0] as int, p[1..])
        else NeedsArg([], p[0] as int)
  }

  function Prepend(pairs: seq<Status>, taken: seq<string>, r: Scanned): Scanned {
    r.(pairs := pairs + r.pairs, taken := taken + r.taken)
  }

  function Stop(end: Status, args: seq<string>): Scanned {
    Scanned([], [], [], args, end)
  }

  /** Reads the command line from left to right, once. */
  function Scan(args: seq<string>, opts: seq<Opt>, interleave: bool): Scanned
    decreases |args|, 0, 1
  {
    if args == [] then Stop(Eof, [])
    else if !IsOption(args[0]) then
      if interleave then
        var r := Scan(args[1..], opts, interleave);
        r.(operands := [args[0]] + r.operands)
      else Stop(Eof, args)
    else if args[0] == "--" then Scanned([], ["--"], [], args[1..], Eof)
    else if args[0] == "-" then Stop(BadChar, args)
    else if args[0][1] == '-' then ScanLong(args, opts, interleave)
    else
      var r := ScanCluster(args[0][1..], args[1..], opts, interleave);
      if r.pairs == [] then Stop(r.end, args) else Prepend([], args[..1], r)
  }

  function ScanLong(args: seq<string>, opts: seq<Opt>, interleave: bool): Scanned
    requires args != [] && |args[0]| > 2
    decreases |args|, 0, 0
  {
    match FindLong(opts, args[0][2..])
    case None => Stop(BadChar, args)
    case Some(o) =>
      var inline := |args[0]| > 2 + |o.name|;
      if inline != o.hasArg && (inline || |args| == 1) then Stop(BadArg(o.optch), args)
      else if !o.hasArg then Prepend([Success(o.optch, None)], args[..1], Scan(args[1..], opts, interleave))
      else if inline then
        Prepend([Success(o.optch, Some(args[0][3 + |o.name|..]))], args[..1], Scan(args[1..], opts, interleave))
      else Prepend([Success(o.optch, Some(args[1]))], args[..2], Scan(args[2..], opts, interleave))
  }

  function ScanCluster(p: string, args: seq<string>, opts: seq<Opt>, interleave: bool): Scanned
    decreases |args|, 1, 0
  {
    match ReadCluster(p, opts)
    case Flags(fs) => Prepend(fs, [], Scan(args, opts, interleave))
    case Unknown(fs) => Prepend(fs, [], Stop(BadChar, args))
    case WithArg(fs, ch, arg) => Prepend(fs + [Success(ch, Some(arg))], [], Scan(args, opts, interleave))
    case NeedsArg(fs, ch) =>
      if args == [] then Prepend(fs, [], Stop(BadArg(ch), args))
      else Prepend(fs + [Success(ch, Some(args[0]))], args[..1], Scan(args[1..], opts, interleave))
  }

  // ---------------------------------------------------------------- a run of calls

  /** Each success makes progress: fewer arguments left, or the same and fewer letters. */
  lemma CallProgress(a: Parse, opts: seq<Opt>, interleave: bool)
    requires Call(a, opts, interleave).1.Success?
    ensures var b := Call(a, opts, interleave).0;
            |b.rest| < |a.rest| || (|b.rest| == |a.rest| && |b.place| < |a.place|)
  {
  }

  datatype Outcome = Outcome(pairs: seq<Status>, last: Parse, end: Status)

  /** Calls the parser for as long as it succeeds. */
  function Calls(a: Parse, opts: seq<Opt>, interleave: bool): Outcome
    decreases |a.rest|, |a.place|
  {
    var (b, st) := Call(a, opts, interleave);
    if st.Success? then
      CallProgress(a, opts, interleave);
      var r := Calls(b, opts, interleave);
      r.(pairs := [st] + r.pairs)
    else Outcome([], b, st)
  }

  lemma CallsUnfold(a: Parse, opts: seq<Opt>, interleave: bool)
    ensures var (b, st) := Call(a, opts, interleave);
            Calls(a, opts, interleave) ==
              if st.Success? then var r := Calls(b, opts, interleave); r.(pairs := [st] + r.pairs)
              else Outcome([], b, st)
  {
    hide Call;
  }
}
