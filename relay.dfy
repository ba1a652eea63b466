/**
 * The dali2dali program: parameter_proc turns the command line and the
 * files it names into two DataLink descriptors and the globals, and main
 * then relays every packet collected from the source server to the
 * destination server, reconnecting the destination until each write
 * succeeds and saving the source's position to the state file.
 */
module Relay {
  import opened Wrappers
  import opened CText
  import opened CNumbers
  import opened Files
  import opened StreamList
  import opened Link
  import opened StateFile
  import opened Arguments
  import opened Events

  /** How the program ends: main returning a code, or a call of exit(). */
  datatype Outcome = Return(code: int) | Exit(status: int)

  /** What the file calls made by parameter_proc do: reading each list file, and the state file. */
  datatype StartupIo = StartupIo(matchIo: Io, rejectIo: Io, recoverIo: Io)

  /**
   * What parameter_proc leaves for main: the globals (with the two
   * addresses), the saving interval and the source's starting cursor; or
   * how the program ends before main's relay starts.
   */
  datatype Setup = Proceed(opts: Options, stateint: nat, start: Cursor) | Ends(outcome: Outcome)

  // ------------------------------------------------------------ specification

  /** The copy of an address that dl_newdlcp keeps in the descriptor's 100-byte buffer. */
  function DescriptorAddress(a: string): (d: string)
    ensures |d| < AddressSize && d <= a
  {
    Truncate(a, AddressSize - 1)
  }

  /** An argument that names a stream list file: it begins with '@'. */
  predicate NamesList(arg: Option<string>) {
    arg.Some? && arg.value != [] && arg.value[0] == '@'
  }

  /**
   * The match or reject argument after loading: one beginning with '@' is
   * replaced by the pattern compiled from the file it names, any other is
   * kept as it is; None when the file gives no pattern, which ends the
   * program with exit(1). This is the reference definition the startup
   * method Dali2Dali.LoadList is proved against; what the loaded pattern
   * holds is stated by StreamList.CompiledAlternatives and
   * Startup.MatchListAlternatives.
   */
  function LoadList(arg: Option<string>, files: map<string, seq<char>>, io: Io, maxSize: nat): (r: Option<Option<string>>)
    ensures !NamesList(arg) ==> r == Some(arg)
    ensures NamesList(arg) ==>
      var c := CompileList(OpenForReading(files, arg.value[1..], io), io.closeFails, maxSize);
      (r.Some? <==> c.Pattern?) && (r.Some? ==> r.value == Some(c.regex))
  {
    if !NamesList(arg) then Some(arg)
    else match CompileList(OpenForReading(files, arg.value[1..], io), io.closeFails, maxSize)
      case Pattern(regex, _) => Some(Some(regex))
      case _ => None
  }

  /**
   * The source cursor after dl_recoverstate on `path`: the cursor of the
   * first complete line for `addr` when the file can be read and has one,
   * otherwise the cursor the descriptor started with.
   */
  function RecoveredCursor(files: map<string, seq<char>>, path: string, io: Io, addr: string, initial: Cursor): Cursor {
    match OpenForReading(files, path, io)
    case Readable(content) =>
      var rec := Recover(Lines(content), addr, 1, []);
      if rec.found.Some? then rec.found.value else initial
    case _ => initial
  }

  /**
   * The state file argument's part of parameter_proc: its split into file
   * name and interval, where an invalid interval (None) makes
   * parameter_proc return -1 and no interval leaves it at 0; then the
   * recovery of the cursor of the descriptor for `addr`, whose failure does
   * not stop the program.
   */
  function StateSetup(statefile: Option<string>, files: map<string, seq<char>>, io: Io, addr: string, start: Cursor)
    : Option<(Option<string>, nat, Cursor)>
  {
    if statefile.None? then Some((None, 0, start))
    else
      var split := SplitStateArg(statefile.value);
      var n := if split.1.None? then Some(0) else Interval(split.1.value);
      if n.None? then None
      else Some((Some(split.0), n.value, RecoveredCursor(files, split.0, io, addr, start)))
  }

  /**
   * parameter_proc: the option scan and its address checks; loading the
   * match list, then the reject list; then the state file.
   */
  function Configure(argv: seq<string>, files: map<string, seq<char>>, maxSize: nat, initial: Cursor, io: StartupIo): (r: Setup)
    ensures r.Proceed? ==> r.opts.src.Some? && r.opts.dest.Some?
  {
    match Parse(argv)
    case Exits(status) => Ends(Exit(status))
    case Scanned(o) => Prepare(o, files, maxSize, initial, io)
  }

  /** parameter_proc once the scan has found both addresses. */
  function Prepare(o: Options, files: map<string, seq<char>>, maxSize: nat, initial: Cursor, io: StartupIo): (r: Setup)
    requires o.src.Some? && o.dest.Some?
    ensures r.Proceed? ==> r.opts.src == o.src && r.opts.dest == o.dest
  {
    match LoadList(o.matchPattern, files, io.matchIo, maxSize)
    case None => Ends(Exit(1))
    case Some(m) =>
      match LoadList(o.rejectPattern, files, io.rejectIo, maxSize)
      case None => Ends(Exit(1))
      case Some(rj) =>
        match StateSetup(o.statefile, files, io.recoverIo, DescriptorAddress(o.src.value), initial)
        case None => Ends(Return(-1))
        case Some((path, n, start)) =>
          Proceed(o.(matchPattern := m, rejectPattern := rj, statefile := path), n, start)
  }

  /** A list file named by an '@' argument has lines that fit the read buffer. */
  predicate ListFits(arg: Option<string>, files: map<string, seq<char>>) {
    NamesList(arg) && arg.value[1..] in files ==> LinesFit(files[arg.value[1..]])
  }

  /**
   * The arguments are C strings, and the files parameter_proc reads fit
   * the buffers they are read into.
   */
  predicate InputsFit(argv: seq<string>, files: map<string, seq<char>>) {
    (forall a | a in argv :: IsCString(a)) &&
    (Parse(argv).Scanned? ==> OptionsFit(Parse(argv).opts, files))
  }

  /** The list files and the state file the options name fit the buffers they are read into. */
  predicate OptionsFit(o: Options, files: map<string, seq<char>>) {
    ListFits(o.matchPattern, files) && ListFits(o.rejectPattern, files) &&
    (o.statefile.Some? ==>
      var path := SplitStateArg(o.statefile.value).0;
      path in files ==> StateFileFits(files[path]))
  }

  /** The arguments from index i on; none once i reaches the end. */
  function From(argv: seq<string>, i: nat): seq<string> {
    if i < |argv| then argv[i..] else []
  }

  /**
   * What the network does while main runs, decided outside the model:
   * whether each dl_connect, dl_position, dl_match and dl_reject succeeds;
   * the packets dl_collect returns before it returns something else, and
   * whether that last call closed the source socket; for each packet, how
   * its failed writes go; and the file calls of the k-th state save.
   */
  datatype Network = Network(
    srcConnects: bool,
    destConnects: bool,
    repositions: bool,
    matches: bool,
    rejects: bool,
    packets: seq<Packet>,
    retries: seq<seq<Retry>>,
    srcLost: bool,
    saveIo: nat -> Io)

  /** One list of write outcomes per packet, and 64-bit packet cursors. */
  predicate NetworkFits(net: Network) {
    |net.retries| == |net.packets| &&
    forall k | 0 <= k < |net.packets| :: net.packets[k].Fits()
  }

  /** Whether main gets past its set-up: both connects, and the match and reject patterns it sends, succeed. */
  predicate Started(net: Network, matchpattern: Option<string>, rejectpattern: Option<string>) {
    net.srcConnects && net.destConnects &&
    (matchpattern.Some? ==> net.matches) && (rejectpattern.Some? ==> net.rejects)
  }

  /**
   * The calls main makes before collecting: connect the source, then the
   * destination, each failure ending main; reposition the source when its
   * packet ID is positive, whatever the outcome; send the match pattern,
   * then the reject pattern, when given, each failure ending main.
   */
  function Opening(start: Cursor, net: Network, matchpattern: Option<string>, rejectpattern: Option<string>): seq<Event> {
    var s := [Connected(Source, net.srcConnects)];
    if !net.srcConnects then s
    else
      var d := s + [Connected(Destination, net.destConnects)];
      if !net.destConnects then d
      else d + Requests(start, net, matchpattern, rejectpattern)
  }

  /** The requests main sends on the source once both links are up. */
  function Requests(start: Cursor, net: Network, matchpattern: Option<string>, rejectpattern: Option<string>): seq<Event> {
    var p := if start.pktid > 0 then [Positioned(start, net.repositions)] else [];
    var m := if matchpattern.Some? then p + [Matched(matchpattern.value, net.matches)] else p;
    if matchpattern.Some? && !net.matches then m
    else if rejectpattern.Some? then m + [Rejected(rejectpattern.value, net.rejects)] else m
  }

  /** The source cursor after collecting `ps`: the last packet's, or the start when there is none. */
  function FinalPosition(start: Cursor, ps: seq<Packet>): Cursor {
    if ps == [] then start else ps[|ps| - 1].Position()
  }

  /** The files change at most in the state file. */
  predicate OnlyStateFile(before: map<string, seq<char>>, after: map<string, seq<char>>, statefile: Option<string>) {
    after == before ||
    (statefile.Some? && statefile.value in after && after == before[statefile.value := after[statefile.value]])
  }

  // ----------------------------------------------------------- the program

  class Dali2Dali {
    var verbose: nat
    var stateint: nat
    var statefile: Option<string>
    var matchpattern: Option<string>
    var rejectpattern: Option<string>
    var srcdlcp: Connection?
    var destdlcp: Connection?
    /** The file system the program reads and writes. */
    const fs: FileStore

    /** The globals at their static initial values. */
    constructor (fs: FileStore)
      ensures this.fs == fs && Initial() && srcdlcp == null && destdlcp == null
    {
      this.fs := fs;
      verbose := 0;
      stateint := 0;
      statefile := None;
      matchpattern := None;
      rejectpattern := None;
      srcdlcp := null;
      destdlcp := null;
    }

    predicate Initial()
      reads this
    {
      verbose == 0 && stateint == 0 && statefile.None? && matchpattern.None? && rejectpattern.None?
    }

    /** The globals the option scan sets, with the two addresses. */
    function Globals(src: Option<string>, dest: Option<string>): Options
      reads this
    {
      Options(verbose, statefile, matchpattern, rejectpattern, src, dest)
    }

    /** What main needs from parameter_proc: two distinct descriptors, not connected. */
    predicate Ready()
      reads this, srcdlcp, destdlcp
    {
      srcdlcp != null && destdlcp != null && srcdlcp != destdlcp &&
      srcdlcp.Fits() && srcdlcp.link == -1 && destdlcp.link == -1
    }

    /**
     * The globals hold the options `o` and the interval `n`, and the two
     * descriptors are ready, on the addresses of `o`, the source at `start`
     * and the destination at `initial`.
     */
    predicate Configured(o: Options, n: nat, start: Cursor, initial: Cursor)
      reads this, srcdlcp, destdlcp
    {
      verbose == o.verbose && statefile == o.statefile && stateint == n &&
      matchpattern == o.matchPattern && rejectpattern == o.rejectPattern &&
      Ready() && o.src.Some? && o.dest.Some? &&
      srcdlcp.addr == DescriptorAddress(o.src.value) && destdlcp.addr == DescriptorAddress(o.dest.value) &&
      srcdlcp.Position() == start && destdlcp.Position() == initial
    }

    /** The interval the collect loop saves with: stateint with a state file, none without. */
    function Saving(): nat
      reads this
    {
      if statefile.Some? then stateint else 0
    }

    /**
     * The for loop of parameter_proc: `status` is the exit status when it
     * ends the program, and otherwise the globals and the two addresses are
     * what the option scan collects.
     */
    method ScanCommandLine(argv: seq<string>) returns (status: Option<int>, src: Option<string>, dest: Option<string>)
      requires Initial()
      modifies this`verbose, this`statefile, this`matchpattern, this`rejectpattern
      ensures match ScanArgs(Operands(argv), Defaults)
        case Exits(s) => status == Some(s)
        case Scanned(o) => status.None? && Globals(src, dest) == o
      ensures src.Some? ==> src.value in argv
      ensures dest.Some? ==> dest.value in argv
    {
      src, dest := None, None;
      var optind := 1;
      while optind < |argv|
        invariant 1 <= optind
        invariant ScanArgs(From(argv, optind), Globals(src, dest)) == ScanArgs(Operands(argv), Defaults)
        invariant src.Some? ==> src.value in argv
        invariant dest.Some? ==> dest.value in argv
      {
        status, optind, src, dest := ScanArgument(argv, optind, src, dest);
        if status.Some? {
          return;
        }
      }
      status := None;
    }

    /**
     * One turn of the for loop, on the argument at `optind`: either the
     * exit status, or the index of the next argument to look at, with the
     * globals and addresses updated as the option scan says.
     */
    method ScanArgument(argv: seq<string>, optind: nat, src: Option<string>, dest: Option<string>)
      returns (status: Option<int>, next: nat, src': Option<string>, dest': Option<string>)
      requires 1 <= optind < |argv|
      modifies this`verbose, this`statefile, this`matchpattern, this`rejectpattern
      ensures optind < next
      ensures ScanMoves(argv, optind, old(Globals(src, dest)), status, next, Globals(src', dest'))
      ensures src'.Some? ==> src' == src || src'.value in argv
      ensures dest'.Some? ==> dest' == dest || dest'.value in argv
    {
      var arg := argv[optind];
      src', dest', next := src, dest, optind + 1;
      match Kind(arg) {
        case Stop =>
          status := Some(0);
          ScanEnds(argv, optind, Globals(src, dest));
        case Unknown =>
          status := Some(1);
          ScanEnds(argv, optind, Globals(src, dest));
        case Verbosity(n) =>
          status := None;
          ScanVerbose(argv, optind, n, src, dest);
        case Takes(opt) =>
          status, next := ScanValue(argv, optind, opt, src, dest);
        case Plain =>
          status, src', dest' := ScanAddress(argv, optind, src, dest);
      }
    }

    /** A verbosity flag ("-v", "-vv", ...) adds its run of 'v's to the verbosity. */
    method ScanVerbose(argv: seq<string>, optind: nat, n: nat, src: Option<string>, dest: Option<string>)
      requires 1 <= optind < |argv| && Kind(argv[optind]) == Verbosity(n)
      modifies this`verbose
      ensures ScanMoves(argv, optind, old(Globals(src, dest)), None, optind + 1, Globals(src, dest))
    {
      ghost var args, g := argv[optind..], Globals(src, dest);
      assert args[0] == argv[optind] && args[1..] == From(argv, optind + 1);
      ScanVerbosity(args, g);
      verbose := verbose + n;
      assert Globals(src, dest) == g.(verbose := g.verbose + n);
    }

    /** An option that takes the next argument as its value ("-x", "-m", "-r"). */
    method ScanValue(argv: seq<string>, optind: nat, opt: Valued, src: Option<string>, dest: Option<string>)
      returns (status: Option<int>, next: nat)
      requires 1 <= optind < |argv| && Kind(argv[optind]) == Takes(opt)
      modifies this`statefile, this`matchpattern, this`rejectpattern
      ensures optind < next
      ensures ScanMoves(argv, optind, old(Globals(src, dest)), status, next, Globals(src, dest))
    {
      ghost var args := argv[optind..];
      ghost var acc := Globals(src, dest);
      var v := GetOptVal(argv[optind..]);
      ScanTakes(args, acc, opt);
      status, next := None, optind + 1;
      if v.None? {
        status := Some(1);
      } else {
        Store(opt, v.value, src, dest);
        assert args[2..] == From(argv, optind + 2);
        next := optind + 2;
      }
    }

    /** Stores the value of an option in its global. */
    method Store(opt: Valued, v: string, ghost src: Option<string>, ghost dest: Option<string>)
      modifies this`statefile, this`matchpattern, this`rejectpattern
      ensures Globals(src, dest) == SetOption(old(Globals(src, dest)), opt, v)
    {
      match opt {
        case StateFileOption => statefile := Some(v);
        case MatchOption => matchpattern := Some(v);
        case RejectOption => rejectpattern := Some(v);
      }
    }

    /** An argument that is not an option: the source address, then the destination address. */
    method ScanAddress(argv: seq<string>, optind: nat, src: Option<string>, dest: Option<string>)
      returns (status: Option<int>, src': Option<string>, dest': Option<string>)
      requires 1 <= optind < |argv| && Kind(argv[optind]).Plain?
      ensures ScanMoves(argv, optind, Globals(src, dest), status, optind + 1, Globals(src', dest'))
      ensures src'.Some? ==> src' == src || src'.value in argv
      ensures dest'.Some? ==> dest' == dest || dest'.value in argv
    {
      var arg := argv[optind];
      ghost var args := argv[optind..];
      assert args[0] == arg && args[1..] == From(argv, optind + 1);
      assert IsValue(arg);
      ScanPlain(args, Globals(src, dest));
      src', dest', status := src, dest, None;
      if src.None? {
        src' := Some(arg);
      } else if dest.None? {
        dest' := Some(arg);
      } else {
        status := Some(1);
      }
    }

    /** Loads a match or reject argument that names a stream list file. */
    method LoadPattern(arg: Option<string>, io: Io, maxSize: nat) returns (r: Option<Option<string>>)
      requires ListFits(arg, fs.files)
      ensures r == LoadList(arg, fs.files, io, maxSize)
    {
      if !NamesList(arg) {
        return Some(arg);
      }
      var list := ReadStreamList(fs, arg.value[1..], io, maxSize);
      if !list.Pattern? {
        return None;
      }
      return Some(Some(list.regex));
    }

    /**
     * parameter_proc, with the exits it makes as Exit outcomes: on success
     * the globals, the interval and both descriptors are as Configure says,
     * with the source positioned where the state file says.
     */
    method ParameterProc(argv: seq<string>, maxSize: nat, initial: Cursor, io: StartupIo) returns (r: Outcome)
      requires Initial() && InputsFit(argv, fs.files)
      requires IsInt64(initial.pktid) && IsInt64(initial.pkttime)
      modifies this
      ensures match Configure(argv, fs.files, maxSize, initial, io)
        case Ends(outcome) => r == outcome
        case Proceed(o, n, start) =>
          r == Return(0) && fresh(srcdlcp) && fresh(destdlcp) && Configured(o, n, start, initial)
    {
      var status, src, dest := ScanCommandLine(argv);
      if status.Some? {
        return Exit(status.value);
      }
      if src.None? || dest.None? {
        return Exit(1);
      }
      r := SetUp(src.value, dest.value, maxSize, initial, io);
    }

    /**
     * parameter_proc after the scan: the two connection descriptors, the
     * lists, then the state file.
     */
    method SetUp(src: string, dest: string, maxSize: nat, initial: Cursor, io: StartupIo) returns (r: Outcome)
      requires stateint == 0 && IsCString(src) && OptionsFit(Globals(Some(src), Some(dest)), fs.files)
      requires IsInt64(initial.pktid) && IsInt64(initial.pkttime)
      modifies this
      ensures match Prepare(old(Globals(Some(src), Some(dest))), fs.files, maxSize, initial, io)
        case Ends(outcome) => r == outcome
        case Proceed(o, n, start) =>
          r == Return(0) && fresh(srcdlcp) && fresh(destdlcp) && Configured(o, n, start, initial)
    {
      srcdlcp := new Connection(DescriptorAddress(src), initial);
      destdlcp := new Connection(DescriptorAddress(dest), initial);
      var loaded := LoadLists(maxSize, io);
      if !loaded {
        return Exit(1);
      }
      var stated := SetUpState(io.recoverIo);
      if !stated {
        return Return(-1);
      }
      return Return(0);
    }

    /** Loads the match list, then the reject list, for the arguments that name list files. */
    method LoadLists(maxSize: nat, io: StartupIo) returns (ok: bool)
      requires ListFits(matchpattern, fs.files) && ListFits(rejectpattern, fs.files)
      modifies this`matchpattern, this`rejectpattern
      ensures var m := LoadList(old(matchpattern), fs.files, io.matchIo, maxSize);
        var rj := LoadList(old(rejectpattern), fs.files, io.rejectIo, maxSize);
        (ok <==> m.Some? && rj.Some?) &&
        (ok ==> matchpattern == m.value && rejectpattern == rj.value)
    {
      var m := LoadPattern(matchpattern, io.matchIo, maxSize);
      if m.None? {
        return false;
      }
      var rj := LoadPattern(rejectpattern, io.rejectIo, maxSize);
      if rj.None? {
        return false;
      }
      matchpattern, rejectpattern := m.value, rj.value;
      return true;
    }

    /**
     * The state file part of parameter_proc: the interval split off the
     * file name and checked, then the source cursor recovered, the
     * outcome of dl_recoverstate being only reported.
     */
    method SetUpState(io: Io) returns (ok: bool)
      requires srcdlcp != null && stateint == 0
      requires statefile.Some? ==>
        var path := SplitStateArg(statefile.value).0;
        path in fs.files ==> StateFileFits(fs.files[path])
      modifies this`statefile, this`stateint, srcdlcp
      ensures srcdlcp.addr == old(srcdlcp.addr) && srcdlcp.link == old(srcdlcp.link)
      ensures var s := StateSetup(old(statefile), fs.files, io, srcdlcp.addr, old(srcdlcp.Position()));
        (ok <==> s.Some?) &&
        (ok ==> statefile == s.value.0 && stateint == s.value.1 && srcdlcp.Position() == s.value.2)
    {
      if statefile.None? {
        return true;
      }
      var split := SplitStateArg(statefile.value);
      statefile := Some(split.0);
      if split.1.Some? {
        var n := Interval(split.1.value);
        if n.None? {
          return false;
        }
        stateint := n.value;
      }
      var recovered, warnings := RecoverState(srcdlcp, statefile, fs, io);
      return true;
    }

    /**
     * The write loop of main for packet `p`: after each failed write, the
     * destination is disconnected if its link is still open and connected
     * again, with a sleep when that fails, until a write succeeds.
     */
    method Deliver(p: Packet, retries: seq<Retry>) returns (events: seq<Event>)
      requires destdlcp != null
      modifies destdlcp`link
      ensures events == Delivery(p, retries, old(destdlcp.link) != -1)
      ensures (destdlcp.link != -1) == UpAfter(retries, old(destdlcp.link) != -1)
    {
      events := [];
      var i := 0;
      while i < |retries|
        invariant i <= |retries|
        invariant events + Delivery(p, retries[i..], destdlcp.link != -1) ==
          Delivery(p, retries, old(destdlcp.link) != -1)
        invariant (destdlcp.link != -1) == UpAfter(retries[..i], old(destdlcp.link) != -1)
      {
        ghost var up := destdlcp.link != -1;
        var failed := FailedWrite(p, retries[i]);
        RetryStep(events, p, retries[i..], up);
        events := events + failed;
        assert retries[..i + 1][i] == retries[i];
        i := i + 1;
      }
      assert retries[..i] == retries;
      events := events + [Written(p, true)];
    }

    /** One failed dl_write to the destination and the reconnection after it. */
    method FailedWrite(p: Packet, r: Retry) returns (events: seq<Event>)
      requires destdlcp != null
      modifies destdlcp`link
      ensures events == RetryEvents(p, r, old(destdlcp.link) != -1)
      ensures (destdlcp.link != -1) == r.reconnects
    {
      events := [Written(p, false)];
      if r.lost && destdlcp.link != -1 {
        destdlcp.Lose();
        events := events + [Lost(Destination)];
      }
      if destdlcp.link != -1 {
        destdlcp.Disconnect();
        events := events + [Disconnected(Destination)];
      }
      assert events == [Written(p, false)] + Drop(r, old(destdlcp.link) != -1);
      destdlcp.Connect(r.reconnects);
      events := events + [Connected(Destination, r.reconnects)];
      if !r.reconnects {
        events := events + [Slept];
      }
    }

    /**
     * main after parameter_proc: the set-up calls, then the collect loop,
     * then the shut-down. The code is -1 when a set-up call ends main and 0
     * otherwise, whatever the state saves return.
     */
    method Run(net: Network) returns (code: int, events: seq<Event>)
      requires Ready() && NetworkFits(net)
      modifies srcdlcp, destdlcp, fs
      ensures srcdlcp.addr == old(srcdlcp.addr)
      ensures Opening(old(srcdlcp.Position()), net, matchpattern, rejectpattern) <= events
      ensures DisconnectsOnlyLive(events)
      ensures code == (if Started(net, matchpattern, rejectpattern) then 0 else -1)
      ensures code == -1 ==>
        events == Opening(old(srcdlcp.Position()), net, matchpattern, rejectpattern) &&
        fs.files == old(fs.files)
      ensures code == 0 ==>
        var final := FinalPosition(old(srcdlcp.Position()), net.packets);
        Milestones(events) == Interleave(net.packets) &&
        SavedAt(events) == Checkpoints(net.packets, Saving()) + (if statefile.Some? then [final] else []) &&
        srcdlcp.Position() == final && srcdlcp.link == -1 && destdlcp.link == -1
      ensures OnlyStateFile(old(fs.files), fs.files, statefile)
      ensures code == 0 && statefile.Some? && !net.saveIo(|Checkpoints(net.packets, Saving())|).openFails ==>
        var record := StateRecord(srcdlcp.addr, srcdlcp.Position());
        var io := net.saveIo(|Checkpoints(net.packets, Saving())|);
        fs.files == old(fs.files)[statefile.value := record[..Min(io.written, |record|)]]
    {
      var started;
      started, events := Open(net);
      if !started {
        return -1, events;
      }
      ghost var opening := events;
      var saves;
      events, saves := Forward(net, events);
      ghost var collected := events;
      ghost var files := fs.files;
      events := Close(net, events, saves);
      assert opening <= events;
      if statefile.Some? && fs.files != files {
        LastSaveWins(old(fs.files), files, statefile.value, fs.files[statefile.value]);
      }
      code := 0;
    }

    /**
     * The calls main makes before collecting; `started` is false when one
     * of them ends main.
     */
    method Open(net: Network) returns (started: bool, events: seq<Event>)
      requires Ready()
      modifies srcdlcp`link, destdlcp`link
      ensures events == Opening(srcdlcp.Position(), net, matchpattern, rejectpattern)
      ensures started == Started(net, matchpattern, rejectpattern)
      ensures DisconnectsOnlyLive(events) && Milestones(events) == [] && SavedAt(events) == []
      ensures LinkUp(events, Source) == (srcdlcp.link != -1)
      ensures LinkUp(events, Destination) == (destdlcp.link != -1)
      ensures started ==> srcdlcp.link != -1
    {
      started := false;
      srcdlcp.Connect(net.srcConnects);
      AppendCall([], Connected(Source, net.srcConnects));
      events := [Connected(Source, net.srcConnects)];
      if !net.srcConnects {
        return;
      }
      destdlcp.Connect(net.destConnects);
      AppendCall(events, Connected(Destination, net.destConnects));
      events := events + [Connected(Destination, net.destConnects)];
      if !net.destConnects {
        return;
      }
      var requests;
      started, requests := Request(net);
      AppendRequests(events, requests);
      events := events + requests;
    }

    /**
     * The requests on the source after both connects: dl_position when the
     * packet ID is positive, whatever it returns, then the match and reject
     * patterns when given, a failure of either ending main.
     */
    method Request(net: Network) returns (started: bool, requests: seq<Event>)
      requires srcdlcp != null && net.srcConnects && net.destConnects
      ensures requests == Requests(srcdlcp.Position(), net, matchpattern, rejectpattern)
      ensures started == Started(net, matchpattern, rejectpattern)
      ensures forall k | 0 <= k < |requests| :: IsRequest(requests[k])
    {
      started := false;
      requests := [];
      if srcdlcp.pktid > 0 {
        requests := [Positioned(srcdlcp.Position(), net.repositions)];
      }
      if matchpattern.Some? {
        requests := requests + [Matched(matchpattern.value, net.matches)];
      }
      if matchpattern.None? || net.matches {
        if rejectpattern.Some? {
          requests := requests + [Rejected(rejectpattern.value, net.rejects)];
        }
        started := rejectpattern.None? || net.rejects;
      }
    }

    /**
     * The collect loop after `i` packets from `start`: both descriptors in
     * place, the source link open and at the last packet's position, the
     * events so far those of the packets so far, and the packet counter
     * and the number of saves where those packets leave them.
     */
    predicate Collecting(net: Network, start: Cursor, i: nat, events: seq<Event>, packetcnt: nat, saves: nat)
      requires i <= |net.packets|
      reads this, srcdlcp, destdlcp
    {
      srcdlcp != null && destdlcp != null && srcdlcp != destdlcp && srcdlcp.Fits() &&
      srcdlcp.Position() == FinalPosition(start, net.packets[..i]) &&
      DisconnectsOnlyLive(events) && LinkUp(events, Source) &&
      LinkUp(events, Destination) == (destdlcp.link != -1) &&
      Milestones(events) == Interleave(net.packets[..i]) &&
      SavedAt(events) == Checkpoints(net.packets[..i], Saving()) &&
      saves == |Checkpoints(net.packets[..i], Saving())| &&
      (Saving() > 0 ==> packetcnt == CounterAfter(i, Saving()))
    }

    /**
     * The collect loop of main: each packet moves the source cursor, is
     * delivered, and with a state file and an interval advances the packet
     * counter, which decides when the state is saved. `saves` is the number
     * of intermediate saves.
     */
    method Forward(net: Network, opening: seq<Event>) returns (events: seq<Event>, saves: nat)
      requires srcdlcp != null && destdlcp != null && srcdlcp != destdlcp
      requires srcdlcp.Fits() && srcdlcp.link != -1 && NetworkFits(net)
      requires DisconnectsOnlyLive(opening) && Milestones(opening) == [] && SavedAt(opening) == []
      requires LinkUp(opening, Source) && LinkUp(opening, Destination) == (destdlcp.link != -1)
      modifies srcdlcp`pktid, srcdlcp`pkttime, destdlcp`link, fs
      ensures opening <= events
      ensures DisconnectsOnlyLive(events) && LinkUp(events, Source)
      ensures LinkUp(events, Destination) == (destdlcp.link != -1)
      ensures Milestones(events) == Interleave(net.packets)
      ensures SavedAt(events) == Checkpoints(net.packets, Saving())
      ensures saves == |Checkpoints(net.packets, Saving())|
      ensures srcdlcp.Fits() && srcdlcp.Position() == FinalPosition(old(srcdlcp.Position()), net.packets)
      ensures OnlyStateFile(old(fs.files), fs.files, statefile)
    {
      ghost var start := srcdlcp.Position();
      events := opening;
      var packetcnt := 0;
      saves := 0;
      var i := 0;
      assert net.packets[..0] == [];
      while i < |net.packets|
        invariant i <= |net.packets| && opening <= events
        invariant Collecting(net, start, i, events, packetcnt, saves)
        invariant OnlyStateFile(old(fs.files), fs.files, statefile)
      {
        ghost var before := events;
        ghost var files := fs.files;
        events, packetcnt, saves := ForwardPacket(net, start, i, packetcnt, saves, events);
        FilesStayApart(old(fs.files), files, fs.files, statefile);
        assert opening <= events;
        i := i + 1;
      }
      assert net.packets[..i] == net.packets;
    }

    /**
     * One pass of the collect loop, for the packet at index `i`: collect
     * it, deliver it, then count it and save the state when it is due.
     */
    method ForwardPacket(net: Network, ghost start: Cursor, i: nat, packetcnt: nat, saves: nat, before: seq<Event>)
      returns (events: seq<Event>, count: nat, saves': nat)
      requires i < |net.packets| && NetworkFits(net)
      requires Collecting(net, start, i, before, packetcnt, saves)
      modifies srcdlcp`pktid, srcdlcp`pkttime, destdlcp`link, fs
      ensures before <= events && Collecting(net, start, i + 1, events, count, saves')
      ensures OnlyStateFile(old(fs.files), fs.files, statefile)
    {
      var p := net.packets[i];
      srcdlcp.Collect(p);
      var delivered := Deliver(p, net.retries[i]);
      var saved;
      count, saved := CountRecord(packetcnt, i, net.saveIo(saves));
      saves' := if saved.Some? then saves + 1 else saves;
      events := before + [Collected(p)] + delivered + SaveEvent(srcdlcp.Position(), saved);
      ForwardStep(before, net.packets, i, Saving(), net.retries[i], saved);
    }

    /**
     * The packet counter of the collect loop for record `k + 1`: with a
     * state file and an interval it is incremented, the state is saved and
     * the counter reset once it reaches the interval, and it is incremented
     * once more; `saved` holds what dl_savestate returned.
     */
    method CountRecord(packetcnt: nat, ghost k: nat, io: Io) returns (count: nat, saved: Option<int>)
      requires srcdlcp != null && srcdlcp.Fits()
      requires Saving() > 0 ==> packetcnt == CounterAfter(k, Saving())
      modifies fs
      ensures saved.Some? <==> SavesAtRecord(k + 1, Saving())
      ensures Saving() > 0 ==> count == CounterAfter(k + 1, Saving())
      ensures OnlyStateFile(old(fs.files), fs.files, statefile)
    {
      count, saved := packetcnt, None;
      if statefile.Some? && stateint != 0 {
        count := count + 1;
        if count >= stateint {
          var result := SaveState(srcdlcp, statefile, fs, io);
          saved := Some(result);
          count := 0;
        }
        count := count + 1;
      }
    }

    /**
     * The end of main, once dl_collect returns something other than a
     * packet: that call may have closed the source socket; each link still
     * open is disconnected; with a state file the state is saved.
     */
    method Close(net: Network, collected: seq<Event>, saves: nat) returns (events: seq<Event>)
      requires srcdlcp != null && destdlcp != null && srcdlcp != destdlcp && srcdlcp.Fits()
      requires DisconnectsOnlyLive(collected)
      requires LinkUp(collected, Source) == (srcdlcp.link != -1)
      requires LinkUp(collected, Destination) == (destdlcp.link != -1)
      modifies srcdlcp`link, destdlcp`link, fs
      ensures collected <= events && DisconnectsOnlyLive(events)
      ensures Milestones(events) == Milestones(collected)
      ensures SavedAt(events) == SavedAt(collected) + (if statefile.Some? then [srcdlcp.Position()] else [])
      ensures srcdlcp.link == -1 && destdlcp.link == -1
      ensures statefile.None? || net.saveIo(saves).openFails ==> fs.files == old(fs.files)
      ensures statefile.Some? && !net.saveIo(saves).openFails ==>
        var record := StateRecord(srcdlcp.addr, srcdlcp.Position());
        fs.files == old(fs.files)[statefile.value := record[..Min(net.saveIo(saves).written, |record|)]]
    {
      events := ShutDown(net.srcLost, collected);
      if statefile.Some? {
        var result := SaveState(srcdlcp, statefile, fs, net.saveIo(saves));
        AppendCall(events, Saved(srcdlcp.Position(), result));
        assert collected <= events + [Saved(srcdlcp.Position(), result)];
        events := events + [Saved(srcdlcp.Position(), result)];
      }
    }

    /**
     * The links at the end of main: the source socket closed by dl_collect
     * when `srcLost`, then dl_disconnect on each link still open.
     */
    method ShutDown(srcLost: bool, collected: seq<Event>) returns (events: seq<Event>)
      requires srcdlcp != null && destdlcp != null && srcdlcp != destdlcp
      requires DisconnectsOnlyLive(collected)
      requires LinkUp(collected, Source) == (srcdlcp.link != -1)
      requires LinkUp(collected, Destination) == (destdlcp.link != -1)
      modifies srcdlcp`link, destdlcp`link
      ensures collected <= events && DisconnectsOnlyLive(events)
      ensures Milestones(events) == Milestones(collected) && SavedAt(events) == SavedAt(collected)
      ensures srcdlcp.link == -1 && destdlcp.link == -1
    {
      events := collected;
      if srcLost {
        events := LoseLink(srcdlcp, Source, events);
      }
      var hung := HangUp(srcdlcp, Source, events);
      assert collected <= hung;
      events := HangUp(destdlcp, Destination, hung);
      assert collected <= events;
    }
  }

  /** A failing call has closed the socket of `conn`. */
  method LoseLink(conn: Connection, side: Side, before: seq<Event>) returns (events: seq<Event>)
    requires DisconnectsOnlyLive(before)
    modifies conn`link
    ensures events == before + [Lost(side)] && conn.link == -1
    ensures DisconnectsOnlyLive(events) && !LinkUp(events, side)
    ensures LinkUp(events, Other(side)) == LinkUp(before, Other(side))
    ensures Milestones(events) == Milestones(before) && SavedAt(events) == SavedAt(before)
  {
    conn.Lose();
    AppendCall(before, Lost(side));
    events := before + [Lost(side)];
  }

  /** dl_disconnect on `conn` when its link is still open. */
  method HangUp(conn: Connection, side: Side, before: seq<Event>) returns (events: seq<Event>)
    requires DisconnectsOnlyLive(before) && LinkUp(before, side) == (conn.link != -1)
    modifies conn`link
    ensures events == before + (if old(conn.link) != -1 then [Disconnected(side)] else [])
    ensures conn.link == -1 && DisconnectsOnlyLive(events)
    ensures LinkUp(events, Other(side)) == LinkUp(before, Other(side))
    ensures Milestones(events) == Milestones(before) && SavedAt(events) == SavedAt(before)
  {
    events := before;
    if conn.link != -1 {
      AppendCall(before, Disconnected(side));
      conn.Disconnect();
      events := before + [Disconnected(side)];
    }
  }

  /** "-V", "-h" and unknown options end the scan. */
  lemma ScanEnds(argv: seq<string>, optind: nat, acc: Options)
    requires 1 <= optind < |argv| && (Kind(argv[optind]).Stop? || Kind(argv[optind]).Unknown?)
    ensures ScanArgs(From(argv, optind), acc) == Exits(if Kind(argv[optind]).Stop? then 0 else 1)
  {
    assert From(argv, optind)[0] == argv[optind];
  }

  /**
   * One turn of the scan from argument `optind` with the globals `before`:
   * it exits with `status`, or it goes on from argument `next` with the
   * globals `after`.
   */
  predicate ScanMoves(argv: seq<string>, optind: nat, before: Options, status: Option<int>, next: nat, after: Options) {
    if status.Some? then ScanArgs(From(argv, optind), before) == Exits(status.value)
    else ScanArgs(From(argv, optind), before) == ScanArgs(From(argv, next), after)
  }

  /** An option that takes a value moves the scan on by two arguments, or ends it without a value. */
  lemma ScanTakes(args: seq<string>, acc: Options, opt: Valued)
    requires args != [] && Kind(args[0]) == Takes(opt)
    ensures ScanArgs(args, acc) ==
      if GetOptVal(args).None? then Exits(1) else ScanArgs(args[2..], SetOption(acc, opt, args[1]))
  {
  }

  /** Two steps that each change at most the state file change at most the state file. */
  lemma FilesStayApart(a: map<string, seq<char>>, b: map<string, seq<char>>, c: map<string, seq<char>>, statefile: Option<string>)
    requires OnlyStateFile(a, b, statefile) && OnlyStateFile(b, c, statefile)
    ensures OnlyStateFile(a, c, statefile)
  {
    if c != b {
      LastSaveWins(a, b, statefile.value, c[statefile.value]);
    }
  }

  /** Writing the state file again leaves no trace of what earlier saves wrote. */
  lemma LastSaveWins(a: map<string, seq<char>>, b: map<string, seq<char>>, path: string, content: seq<char>)
    requires OnlyStateFile(a, b, Some(path))
    ensures b[path := content] == a[path := content]
  {
    if b != a {
      assert a[path := b[path]][path := content] == a[path := content];
    }
  }

  /**
   * main: parameter_proc, whose negative return makes main return -1 and
   * whose exits end the program, then the relay.
   */
  method Execute(argv: seq<string>, fs: FileStore, maxSize: nat, initial: Cursor, io: StartupIo, net: Network)
    returns (r: Outcome, events: seq<Event>)
    requires InputsFit(argv, fs.files) && NetworkFits(net)
    requires IsInt64(initial.pktid) && IsInt64(initial.pkttime)
    modifies fs
    ensures match Configure(argv, old(fs.files), maxSize, initial, io)
      case Ends(outcome) =>
        r == (if outcome.Return? then Return(-1) else outcome) && events == [] && fs.files == old(fs.files)
      case Proceed(o, n, start) =>
        var started := Started(net, o.matchPattern, o.rejectPattern);
        var saving := if o.statefile.Some? then n else 0;
        var final := if o.statefile.Some? then [FinalPosition(start, net.packets)] else [];
        r == Return(if started then 0 else -1) &&
        Opening(start, net, o.matchPattern, o.rejectPattern) <= events &&
        DisconnectsOnlyLive(events) &&
        OnlyStateFile(old(fs.files), fs.files, o.statefile) &&
        (started ==>
          Milestones(events) == Interleave(net.packets) &&
          SavedAt(events) == Checkpoints(net.packets, saving) + final) &&
        (started && o.statefile.Some? && !net.saveIo(|Checkpoints(net.packets, saving)|).openFails ==>
          var record := StateRecord(DescriptorAddress(o.src.value), FinalPosition(start, net.packets));
          var written := net.saveIo(|Checkpoints(net.packets, saving)|).written;
          fs.files == old(fs.files)[o.statefile.value := record[..Min(written, |record|)]])
  {
    var relay := new Dali2Dali(fs);
    var status := relay.ParameterProc(argv, maxSize, initial, io);
    events := [];
    if status.Exit? {
      return status, events;
    }
    if status.code < 0 {
      return Return(-1), events;
    }
    var code;
    code, events := relay.Run(net);
    r := Return(code);
  }
}
