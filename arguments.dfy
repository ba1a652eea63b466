/**
 * The command line of dali2dali: the option scan of parameter_proc with
 * getoptval, the "-x file:interval" split and the interval check.
 */
module Arguments {
  import opened Wrappers
  import opened CNumbers

  /** What the option scan collects: the program's globals and the two server addresses. */
  datatype Options = Options(
    verbose: nat,
    statefile: Option<string>,
    matchPattern: Option<string>,
    rejectPattern: Option<string>,
    src: Option<string>,
    dest: Option<string>)

  /** The globals' static initial values; no address given yet. */
  const Defaults := Options(0, None, None, None, None, None)

  /** The scan either ends with the options collected or stops the program with an exit status. */
  datatype Scan = Scanned(opts: Options) | Exits(status: int)

  /** An argument that does not begin with '-' (an empty one does not). */
  predicate IsValue(a: string) {
    a == [] || a[0] != '-'
  }

  /**
   * getoptval, for `args` starting at the option: the following argument,
   * when there is one and it is not itself an option. This is the
   * reference definition of getoptval; ScanFlag and ParseRender state what
   * the scan makes of the value it yields.
   */
  function GetOptVal(args: seq<string>): (r: Option<string>)
    requires args != []
    ensures r.Some? <==> |args| >= 2 && IsValue(args[1])
    ensures r.Some? ==> r.value == args[1]
  {
    if |args| >= 2 && IsValue(args[1]) then Some(args[1]) else None
  }

  /** strspn(s, "v"): the number of leading 'v' characters. */
  function LeadingVs(s: string): (n: nat)
    ensures n <= |s|
    ensures forall k | 0 <= k < n :: s[k] == 'v'
    ensures n < |s| ==> s[n] != 'v'
  {
    if s != [] && s[0] == 'v' then 1 + LeadingVs(s[1..]) else 0
  }

  /** The options that take a value. */
  datatype Valued = StateFileOption | MatchOption | RejectOption

  /** How parameter_proc's chain of comparisons classifies one argument. */
  datatype ArgKind =
    | Stop              // "-V" or "-h": report and exit with status 0
    | Verbosity(n: nat) // begins with "-v": n more levels of verbosity
    | Takes(opt: Valued) // "-x", "-m" or "-r"
    | Unknown           // any other argument beginning with '-'
    | Plain             // an address

  function Kind(a: string): ArgKind {
    if a == "-V" || a == "-h" then Stop
    else if |a| >= 2 && a[..2] == "-v" then Verbosity(LeadingVs(a[1..]))
    else if a == "-x" then Takes(StateFileOption)
    else if a == "-m" then Takes(MatchOption)
    else if a == "-r" then Takes(RejectOption)
    else if |a| >= 1 && a[0] == '-' then Unknown
    else Plain
  }

  /** The global an option's value is stored in. */
  function SetOption(acc: Options, opt: Valued, v: string): Options {
    match opt
    case StateFileOption => acc.(statefile := Some(v))
    case MatchOption => acc.(matchPattern := Some(v))
    case RejectOption => acc.(rejectPattern := Some(v))
  }

  /**
   * The for loop of parameter_proc over the arguments after the program
   * name. "-V" and "-h" end the program with status 0; an argument
   * beginning with "-v" adds its run of 'v's to the verbosity; "-x", "-m"
   * and "-r" take the next argument as their value, or exit with status 1
   * without one; any other argument beginning with '-' exits with status
   * 1; the first two other arguments are the source and destination
   * addresses and a third exits with status 1.
   */
  function ScanArgs(args: seq<string>, acc: Options): Scan
    decreases |args|
  {
    if args == [] then Scanned(acc)
    else
      match Kind(args[0])
      case Stop => Exits(0)
      case Verbosity(n) => ScanArgs(args[1..], acc.(verbose := acc.verbose + n))
      case Takes(opt) =>
        (match GetOptVal(args)
         case None => Exits(1)
         case Some(v) => ScanArgs(args[2..], SetOption(acc, opt, v)))
      case Unknown => Exits(1)
      case Plain =>
        if acc.src.None? then ScanArgs(args[1..], acc.(src := Some(args[0])))
        else if acc.dest.None? then ScanArgs(args[1..], acc.(dest := Some(args[0])))
        else Exits(1)
  }

  /** The arguments the scan visits: all but the program name. */
  function Operands(argv: seq<string>): seq<string> {
    if |argv| <= 1 then [] else argv[1..]
  }

  /**
   * The scan followed by the checks after it: a missing source or
   * destination address exits with status 1.
   */
  function Parse(argv: seq<string>): (r: Scan)
    ensures r.Scanned? ==> r.opts.src.Some? && r.opts.dest.Some?
  {
    match ScanArgs(Operands(argv), Defaults)
    case Exits(status) => Exits(status)
    case Scanned(o) => if o.src.None? || o.dest.None? then Exits(1) else Scanned(o)
  }

  /** The fields of `o` that hold arguments all hold values, not options. */
  predicate ValuesAreValues(o: Options) {
    (o.statefile.Some? ==> IsValue(o.statefile.value)) &&
    (o.matchPattern.Some? ==> IsValue(o.matchPattern.value)) &&
    (o.rejectPattern.Some? ==> IsValue(o.rejectPattern.value)) &&
    (o.src.Some? ==> IsValue(o.src.value)) &&
    (o.dest.Some? ==> IsValue(o.dest.value))
  }

  /** Whatever the scan records is an argument that does not begin with '-'. */
  lemma {:induction false} ScanRecordsValues(args: seq<string>, acc: Options)
    requires ValuesAreValues(acc)
    ensures ScanArgs(args, acc).Scanned? ==> ValuesAreValues(ScanArgs(args, acc).opts)
    decreases |args|
  {
    if args != [] {
      match Kind(args[0])
      case Verbosity(n) =>
        ScanRecordsValues(args[1..], acc.(verbose := acc.verbose + n));
      case Takes(opt) =>
        if GetOptVal(args).Some? {
          SetOptionKeepsValues(acc, opt, args[1]);
          ScanRecordsValues(args[2..], SetOption(acc, opt, args[1]));
        }
      case Plain =>
        if acc.src.None? {
          ScanRecordsValues(args[1..], acc.(src := Some(args[0])));
        } else if acc.dest.None? {
          ScanRecordsValues(args[1..], acc.(dest := Some(args[0])));
        }
      case _ =>
    }
  }

  lemma SetOptionKeepsValues(acc: Options, opt: Valued, v: string)
    requires ValuesAreValues(acc) && IsValue(v)
    ensures ValuesAreValues(SetOption(acc, opt, v))
  {
  }

  /**
   * Once the source or the destination address is set, no later argument
   * changes it, and the verbosity only grows.
   */
  lemma {:induction false} ScanKeepsAddresses(args: seq<string>, acc: Options)
    ensures ScanArgs(args, acc).Scanned? ==>
      var o := ScanArgs(args, acc).opts;
      o.verbose >= acc.verbose &&
      (acc.src.Some? ==> o.src == acc.src) &&
      (acc.dest.Some? ==> o.dest == acc.dest)
    decreases |args|
  {
    if args != [] {
      match Kind(args[0])
      case Verbosity(n) =>
        ScanKeepsAddresses(args[1..], acc.(verbose := acc.verbose + n));
      case Takes(opt) =>
        if GetOptVal(args).Some? {
          ScanKeepsAddresses(args[2..], SetOption(acc, opt, args[1]));
        }
      case Plain =>
        if acc.src.None? {
          ScanKeepsAddresses(args[1..], acc.(src := Some(args[0])));
        } else if acc.dest.None? {
          ScanKeepsAddresses(args[1..], acc.(dest := Some(args[0])));
        }
      case _ =>
    }
  }

  // ------------------------------------------------------------- rendering

  /** n letters 'v'. */
  function Vs(n: nat): (s: string)
    ensures |s| == n && forall k | 0 <= k < n :: s[k] == 'v'
  {
    seq(n, _ => 'v')
  }

  lemma KindOfVerbosity(n: nat)
    requires n > 0
    ensures Kind("-" + Vs(n)) == Verbosity(n)
  {
    var a := "-" + Vs(n);
    assert a[1..] == Vs(n);
    assert LeadingVs(Vs(n)) == n;
    assert a[0] == '-' && a[1] == 'v';
    assert a[..2] == "-v";
    assert a != "-V" && a != "-h" by {
      assert "-V"[1] == 'V' && "-h"[1] == 'h';
    }
  }

  lemma KindOfValue(a: string)
    requires IsValue(a)
    ensures Kind(a) == Plain
  {
    if a != [] {
      assert "-V"[0] == '-' && "-h"[0] == '-' && "-x"[0] == '-' && "-m"[0] == '-' && "-r"[0] == '-';
      assert |a| >= 2 ==> a[..2][0] == a[0];
      assert "-v"[0] == '-';
    }
  }

  function Flag(name: string, value: Option<string>): seq<string> {
    if value.Some? then [name, value.value] else []
  }

  function VerbosityFlag(n: nat): seq<string> {
    if n > 0 then ["-" + Vs(n)] else []
  }

  /** A command line that asks for `o`: verbosity flag, the three options, then the two addresses. */
  function Render(o: Options): seq<string>
    requires o.src.Some? && o.dest.Some?
  {
    ["dali2dali"] +
    (VerbosityFlag(o.verbose) +
     (Flag("-x", o.statefile) +
      (Flag("-m", o.matchPattern) +
       (Flag("-r", o.rejectPattern) +
        [o.src.value, o.dest.value]))))
  }

  /** A verbosity flag adds its run of 'v's and moves the scan on by one argument. */
  lemma ScanVerbosity(args: seq<string>, acc: Options)
    requires args != [] && Kind(args[0]).Verbosity?
    ensures ScanArgs(args, acc) == ScanArgs(args[1..], acc.(verbose := acc.verbose + Kind(args[0]).n))
  {
  }

  lemma ScanFlag(name: string, opt: Valued, value: Option<string>, rest: seq<string>, acc: Options)
    requires Kind(name) == Takes(opt)
    requires value.Some? ==> IsValue(value.value)
    ensures ScanArgs(Flag(name, value) + rest, acc) ==
      ScanArgs(rest, if value.Some? then SetOption(acc, opt, value.value) else acc)
  {
    if value.Some? {
      var args := Flag(name, value) + rest;
      assert args[0] == name && args[1] == value.value;
      assert args[2..] == rest;
    } else {
      assert Flag(name, value) + rest == rest;
    }
  }

  /** A plain argument fills the first free address slot, or exits when both are taken. */
  lemma ScanPlain(args: seq<string>, acc: Options)
    requires args != [] && IsValue(args[0])
    ensures ScanArgs(args, acc) ==
      if acc.src.None? then ScanArgs(args[1..], acc.(src := Some(args[0])))
      else if acc.dest.None? then ScanArgs(args[1..], acc.(dest := Some(args[0])))
      else Exits(1)
  {
    KindOfValue(args[0]);
  }

  /**
   * Parsing a rendered command line gives back the options it was rendered
   * from, as long as no value begins with '-'.
   */
  lemma ParseRender(o: Options)
    requires o.src.Some? && o.dest.Some? && ValuesAreValues(o)
    ensures Parse(Render(o)) == Scanned(o)
  {
    var pos := [o.src.value, o.dest.value];
    var r3 := Flag("-r", o.rejectPattern) + pos;
    var r2 := Flag("-m", o.matchPattern) + r3;
    var r1 := Flag("-x", o.statefile) + r2;
    var r0 := VerbosityFlag(o.verbose) + r1;
    assert Operands(Render(o)) == r0;
    ScanRendered(o, r0, r1, r2, r3, pos);
  }

  lemma ScanRendered(o: Options, r0: seq<string>, r1: seq<string>, r2: seq<string>, r3: seq<string>, pos: seq<string>)
    requires o.src.Some? && o.dest.Some? && ValuesAreValues(o)
    requires pos == [o.src.value, o.dest.value]
    requires r3 == Flag("-r", o.rejectPattern) + pos
    requires r2 == Flag("-m", o.matchPattern) + r3
    requires r1 == Flag("-x", o.statefile) + r2
    requires r0 == VerbosityFlag(o.verbose) + r1
    ensures ScanArgs(r0, Defaults) == Scanned(o)
  {
    var a0 := Defaults.(verbose := o.verbose);
    var a1 := a0.(statefile := o.statefile);
    var a2 := a1.(matchPattern := o.matchPattern);
    var a3 := a2.(rejectPattern := o.rejectPattern);
    assert ScanArgs(r0, Defaults) == ScanArgs(r1, a0) by {
      if o.verbose > 0 {
        KindOfVerbosity(o.verbose);
        assert r0[0] == "-" + Vs(o.verbose) && r0[1..] == r1;
        ScanVerbosity(r0, Defaults);
      } else {
        assert r0 == r1;
      }
    }
    assert ScanArgs(r1, a0) == ScanArgs(r2, a1) by {
      assert Kind("-x") == Takes(StateFileOption);
      ScanFlag("-x", StateFileOption, o.statefile, r2, a0);
    }
    assert ScanArgs(r2, a1) == ScanArgs(r3, a2) by {
      assert Kind("-m") == Takes(MatchOption);
      ScanFlag("-m", MatchOption, o.matchPattern, r3, a1);
    }
    assert ScanArgs(r3, a2) == ScanArgs(pos, a3) by {
      assert Kind("-r") == Takes(RejectOption);
      ScanFlag("-r", RejectOption, o.rejectPattern, pos, a2);
    }
    ScanAddresses(o.src.value, o.dest.value, a3);
    assert a3.(src := o.src).(dest := o.dest) == o;
  }

  /** The two addresses, with no address set before them. */
  lemma ScanAddresses(src: string, dest: string, acc: Options)
    requires IsValue(src) && IsValue(dest) && acc.src.None? && acc.dest.None?
    ensures ScanArgs([src, dest], acc) == Scanned(acc.(src := Some(src)).(dest := Some(dest)))
  {
    var args := [src, dest];
    ScanPlain(args, acc);
    assert args[1..] == [dest];
    ScanPlain(args[1..], acc.(src := Some(src)));
    assert args[1..][1..] == [];
  }

  /** With no address on the command line the program exits with status 1. */
  lemma {:induction false} NoAddressExits(argv: seq<string>)
    requires forall k | 1 <= k < |argv| :: |argv[k]| >= 1 && argv[k][0] == '-'
    ensures Parse(argv).Exits?
  {
    NoAddressScan(Operands(argv), Defaults);
  }

  lemma {:induction false} NoAddressScan(args: seq<string>, acc: Options)
    requires acc.src.None?
    requires forall k | 0 <= k < |args| :: |args[k]| >= 1 && args[k][0] == '-'
    ensures ScanArgs(args, acc).Scanned? ==> ScanArgs(args, acc).opts.src.None?
    decreases |args|
  {
    if args != [] {
      match Kind(args[0])
      case Verbosity(n) =>
        NoAddressScan(args[1..], acc.(verbose := acc.verbose + n));
      case Takes(_) =>
        assert GetOptVal(args).None?;
      case _ =>
    }
  }

  // --------------------------------------------------------- "-x" argument

  /** The index of the first ':' in `s`, if any (strchr). */
  function FirstColon(s: string): (r: Option<nat>)
    ensures r.Some? ==> r.value < |s| && s[r.value] == ':' && ':' !in s[..r.value]
    ensures r.None? ==> ':' !in s
  {
    if s == [] then None
    else if s[0] == ':' then Some(0)
    else match FirstColon(s[1..])
      case None => None
      case Some(i) => assert s[..i + 1] == [s[0]] + s[1..][..i]; Some(i + 1)
  }

  /**
   * The state file argument split at its first ':' into the file name and
   * the text of the saving interval.
   */
  function SplitStateArg(s: string): (r: (string, Option<string>))
    ensures ':' !in r.0
    ensures r.1.None? ==> r.0 == s
    ensures r.1.Some? ==> r.0 + ":" + r.1.value == s
  {
    match FirstColon(s)
    case None => (s, None)
    case Some(i) => assert s[..i] + ":" + s[i + 1..] == s; (s[..i], Some(s[i + 1..]))
  }

  /** A file name without ':' followed by ":t" splits back into the name and t. */
  lemma SplitAtColon(f: string, t: string)
    requires ':' !in f
    ensures SplitStateArg(f + ":" + t) == (f, Some(t))
  {
    var s := f + ":" + t;
    assert s[|f|] == ':';
    assert s[..|f|] == f && s[|f| + 1..] == t;
  }

  /** The largest interval accepted, 1e9. */
  const MaxInterval: int := 1_000_000_000

  /**
   * The saving interval: strtoul with base 0, cast to `unsigned int` and
   * stored in an `int`; rejected when characters follow the number or the
   * stored value lies outside 0..1e9.
   */
  function Interval(t: string): (r: Option<int>)
    ensures r.Some? ==> 0 <= r.value <= MaxInterval
  {
    var (v, tail) := StrToUL(t);
    var n := ToInt32(v);
    if tail < |t| || n < 0 || n > MaxInterval then None else Some(n)
  }

  /** A decimal interval in range is accepted as written. */
  lemma IntervalOfDecimal(n: nat)
    requires n <= MaxInterval
    ensures Interval(Digits(n)) == Some(n)
  {
    StrToULOfDigits(n);
    ToInt32Small(n);
    IntervalOfConverted(Digits(n), n);
  }

  /** A decimal interval above 1e9 that stays positive as an `int` is rejected. */
  lemma IntervalOutOfRange(n: nat)
    requires MaxInterval < n < 0x8000_0000
    ensures Interval(Digits(n)).None?
  {
    StrToULOfDigits(n);
    ToInt32Small(n);
  }

  lemma IntervalOfConverted(t: string, v: nat)
    requires StrToUL(t) == (v, |t|) && 0 <= ToInt32(v) <= MaxInterval
    ensures Interval(t) == Some(ToInt32(v))
  {
  }

  /** Characters after the number make the interval invalid. */
  lemma IntervalTrailing(n: nat, rest: string)
    requires rest != [] && !('0' <= rest[0] <= '9')
    requires n == 0 ==> rest[0] != 'x' && rest[0] != 'X'
    ensures Interval(Digits(n) + rest).None?
  {
    StrToULStopsAfterDigits(n, rest);
    IntervalRejectsTail(Digits(n) + rest);
  }

  lemma IntervalRejectsTail(t: string)
    requires StrToUL(t).1 < |t|
    ensures Interval(t).None?
  {
  }

  /**
   * An empty interval ("file:") is accepted as 0, which turns intermediate
   * saving off: strtoul finds no digits and leaves the tail at the start,
   * which is already the end.
   */
  lemma IntervalEmpty()
    ensures Interval("") == Some(0)
  {
  }

  /**
   * The cast to `unsigned int` wraps: an interval written as n + 2^32 is
   * accepted as n.
   */
  lemma IntervalWraps(n: nat)
    requires n <= MaxInterval
    ensures Interval(Digits(n + 0x1_0000_0000)) == Some(n)
  {
    StrToULOfDigits(n + 0x1_0000_0000);
    ToInt32Wraps(n);
    IntervalOfConverted(Digits(n + 0x1_0000_0000), n + 0x1_0000_0000);
  }
}
