/**
 * What parameter_proc makes of whole command lines and of the files they
 * name: the configuration a command line yields, restarting from a saved
 * state, the invalid intervals that stop the program, and the loaded
 * stream lists.
 */
module Startup {
  import opened Wrappers
  import opened CText
  import opened CNumbers
  import opened Files
  import opened StreamList
  import opened Link
  import opened StateFile
  import opened Arguments
  import opened Relay

  /** Neither list argument names a list file, so both are used as given. */
  predicate PlainLists(o: Options) {
    !NamesList(o.matchPattern) && !NamesList(o.rejectPattern)
  }

  /**
   * The command line rendered from `o`, whose state file argument is
   * "f:n" with a decimal interval n in range: the state file becomes f,
   * the interval n, every other option is kept, and the source starts at
   * the cursor recovered from f.
   */
  lemma ConfigureRendered(o: Options, f: string, n: nat, files: map<string, seq<char>>, maxSize: nat, initial: Cursor, io: StartupIo)
    requires o.src.Some? && o.dest.Some? && ValuesAreValues(o) && PlainLists(o)
    requires o.statefile == Some(f + ":" + Digits(n)) && ':' !in f && n <= MaxInterval
    ensures Configure(Render(o), files, maxSize, initial, io) ==
      Proceed(o.(statefile := Some(f)), n, RecoveredCursor(files, f, io.recoverIo, DescriptorAddress(o.src.value), initial))
  {
    ParseRender(o);
    SplitAtColon(f, Digits(n));
    IntervalOfDecimal(n);
  }

  /** The descriptor's copy of a non-empty address without white space is non-empty and has none. */
  lemma DescriptorAddressNoSpace(a: string)
    requires a != [] && NoSpace(a)
    ensures DescriptorAddress(a) != [] && NoSpace(DescriptorAddress(a))
  {
    var d := DescriptorAddress(a);
    assert d == a[..|d|];
    assert d[0] == a[0];
  }

  /**
   * Restarting after a complete save: when the state file holds the record
   * dl_savestate writes for the source descriptor at cursor c, the
   * command line configures the source to start at c.
   */
  lemma RestartResumes(o: Options, f: string, n: nat, files: map<string, seq<char>>, maxSize: nat, initial: Cursor, io: StartupIo, c: Cursor)
    requires o.src.Some? && o.dest.Some? && ValuesAreValues(o) && PlainLists(o)
    requires o.statefile == Some(f + ":" + Digits(n)) && ':' !in f && n <= MaxInterval
    requires o.src.value != [] && NoSpace(o.src.value)
    requires IsInt64(c.pktid) && IsInt64(c.pkttime)
    requires f in files && files[f] == StateRecord(DescriptorAddress(o.src.value), c) && !io.recoverIo.openFails
    ensures Configure(Render(o), files, maxSize, initial, io) == Proceed(o.(statefile := Some(f)), n, c)
  {
    var addr := DescriptorAddress(o.src.value);
    ConfigureRendered(o, f, n, files, maxSize, initial, io);
    DescriptorAddressNoSpace(o.src.value);
    SaveThenRecover(addr, c, addr);
  }

  /**
   * An interval that does not parse completely or lies outside 0..1e9
   * makes parameter_proc return -1, once both lists have loaded.
   */
  lemma BadIntervalFails(o: Options, f: string, t: string, files: map<string, seq<char>>, maxSize: nat, initial: Cursor, io: StartupIo)
    requires o.src.Some? && o.dest.Some?
    requires LoadList(o.matchPattern, files, io.matchIo, maxSize).Some?
    requires LoadList(o.rejectPattern, files, io.rejectIo, maxSize).Some?
    requires o.statefile == Some(f + ":" + t) && ':' !in f && Interval(t).None?
    ensures Prepare(o, files, maxSize, initial, io) == Ends(Return(-1))
  {
    SplitAtColon(f, t);
  }

  /**
   * The outcome of dl_recoverstate is only reported: whatever the state
   * file's system calls do, parameter_proc ends the same way and sets the
   * same globals and interval; only the source's start can differ.
   */
  lemma RecoveryOnlyMovesStart(o: Options, files: map<string, seq<char>>, maxSize: nat, initial: Cursor, io: StartupIo, recoverIo: Io)
    requires o.src.Some? && o.dest.Some?
    ensures var a := Prepare(o, files, maxSize, initial, io);
      var b := Prepare(o, files, maxSize, initial, io.(recoverIo := recoverIo));
      (a.Ends? ==> a == b) &&
      (a.Proceed? ==> b.Proceed? && a.opts == b.opts && a.stateint == b.stateint)
  {
  }

  /**
   * When the state file does not exist or cannot be opened, the source
   * starts where its descriptor was created.
   */
  lemma UnreadableStateStartsFresh(o: Options, files: map<string, seq<char>>, maxSize: nat, initial: Cursor, io: StartupIo)
    requires o.src.Some? && o.dest.Some? && o.statefile.Some?
    requires var path := SplitStateArg(o.statefile.value).0; path !in files || io.recoverIo.openFails
    ensures var r := Prepare(o, files, maxSize, initial, io); r.Proceed? ==> r.start == initial
  {
  }

  /**
   * A match list file read in full becomes the pattern whose alternatives
   * are the file's kept streams, in order, when none contains '|'.
   */
  lemma MatchListAlternatives(o: Options, files: map<string, seq<char>>, maxSize: nat, initial: Cursor, io: StartupIo)
    requires o.src.Some? && o.dest.Some? && NamesList(o.matchPattern)
    requires var path := o.matchPattern.value[1..];
      path in files && forall l | l in Kept(Lines(files[path])) :: '|' !in l
    ensures var r := Prepare(o, files, maxSize, initial, io);
      r.Proceed? ==>
        r.opts.matchPattern.Some? && Split(r.opts.matchPattern.value) == Kept(Lines(files[o.matchPattern.value[1..]]))
  {
    CompiledAlternatives(files[o.matchPattern.value[1..]], io.matchIo.closeFails, maxSize);
  }
}
