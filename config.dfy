/**
 * dl_read_streamlist: compiling a stream list file into one compound
 * regular expression.
 */
module StreamList {
  import opened Wrappers
  import opened CText
  import opened Files

  /** Size of the buffer each line is read into (`char line[100]`). */
  const LineBufferSize: nat := 100

  /** The outcome of compiling a stream list; every outcome but Pattern is a NULL return. */
  datatype ListResult =
    | Pattern(regex: string, count: nat)
    | NotFound     // the file does not exist
    | OpenFailed   // any other failure to open it
    | TooLarge     // appending a stream would exceed the size bound
    | NoStreams    // no line survives trimming and comment removal
    | CloseFailed  // close() failed after a successful read

  // ------------------------------------------------------------ specification

  function TrimLeft(s: string): (t: string)
    decreases |s|
  {
    if s != [] && IsSpace(s[0]) then TrimLeft(s[1..]) else s
  }

  function TrimRight(s: string): (t: string)
    decreases |s|
  {
    if s != [] && IsSpace(s[|s| - 1]) then TrimRight(s[..|s| - 1]) else s
  }

  /** A line with leading, then trailing, white space removed. */
  function Trim(s: string): string {
    TrimRight(TrimLeft(s))
  }

  /** Blank lines and lines starting with '#' or '*' contribute nothing. */
  predicate Ignored(t: string) {
    t == [] || t[0] == '#' || t[0] == '*'
  }

  /** The trimmed lines that survive, in file order. */
  function Kept(lines: seq<string>): (ks: seq<string>)
    ensures |ks| <= |lines|
  {
    if lines == [] then []
    else
      var t := Trim(lines[|lines| - 1]);
      Kept(lines[..|lines| - 1]) + if Ignored(t) then [] else [t]
  }

  /** Streams joined by the alternation bar. */
  function Join(xs: seq<string>): string
    requires xs != []
  {
    if |xs| == 1 then xs[0] else Join(xs[..|xs| - 1]) + "|" + xs[|xs| - 1]
  }

  /**
   * dl_addtostring(&regex, add, "|", maxSize): start the string with `add`
   * or append "|" and `add`; fails, leaving nothing, when the result and its
   * terminating NUL would not fit in maxSize bytes.
   */
  function AddToString(regex: Option<string>, add: string, maxSize: nat): (r: Option<string>)
    ensures r.Some? ==> |r.value| < maxSize
  {
    var joined := if regex.None? then add else regex.value + "|" + add;
    if |joined| + 1 > maxSize then None else Some(joined)
  }

  /** What compiling a stream list file yields. */
  function CompileList(file: Opened, closeFails: bool, maxSize: nat): ListResult {
    match file
    case Missing => NotFound
    case Refused => OpenFailed
    case Readable(content) =>
      var kept := Kept(Lines(content));
      if kept == [] then NoStreams
      else if |Join(kept)| + 1 > maxSize then TooLarge
      else if closeFails then CloseFailed
      else Pattern(Join(kept), |kept|)
  }

  /** Every line fits the read buffer, with room for its terminating NUL. */
  predicate LinesFit(content: seq<char>) {
    IsCString(content) && forall l | l in Lines(content) :: |l| < LineBufferSize
  }

  // ----------------------------------------------------------- implementation

  /**
   * Trims the line held in `line` in place: `start` moves past leading white
   * space, then trailing white space is overwritten with NUL from the end
   * downwards. The trimmed text is line[start..end].
   */
  method TrimLine(line: array<char>) returns (start: nat, end: nat)
    modifies line
    ensures start <= end <= line.Length
    ensures line[start..end] == Trim(old(line[..]))
    ensures line[..end] == old(line[..end])
    ensures forall k | end <= k < line.Length :: line[k] == '\0'
  {
    ghost var s := line[..];
    start := 0;
    while start < line.Length && IsSpace(line[start])
      invariant start <= line.Length
      invariant TrimLeft(s) == TrimLeft(s[start..])
    {
      assert s[start..][1..] == s[start + 1..];
      start := start + 1;
    }
    assert TrimLeft(s) == s[start..];
    var idx: int := line.Length - 1;
    assert s[start..idx + 1] == s[start..];
    while idx >= start && IsSpace(line[idx])
      invariant start - 1 <= idx < line.Length
      invariant line[..idx + 1] == s[..idx + 1]
      invariant forall k | idx < k < line.Length :: line[k] == '\0'
      invariant Trim(s) == TrimRight(s[start..idx + 1])
    {
      assert s[start..idx + 1][..idx - start] == s[start..idx];
      line[idx] := '\0';
      idx := idx - 1;
    }
    end := idx + 1;
    assert line[start..end] == s[start..end];
  }

  /** One line read into a fresh buffer and trimmed there. */
  method ReadTrimmed(text: string) returns (ptr: string)
    ensures ptr == Trim(text)
  {
    var line := new char[|text|](k requires 0 <= k < |text| => text[k]);
    assert line[..] == text;
    var start, end := TrimLine(line);
    ptr := line[start..end];
  }

  /**
   * dl_read_streamlist: reads the stream list at `path` line by line,
   * trims each line, skips blank and comment lines and joins the rest with
   * '|' under the size bound `maxSize` (MAXREGEXSIZE).
   */
  method ReadStreamList(fs: FileStore, path: string, io: Io, maxSize: nat) returns (r: ListResult)
    requires path in fs.files ==> LinesFit(fs.files[path])
    ensures r == CompileList(OpenForReading(fs.files, path, io), io.closeFails, maxSize)
  {
    var file := OpenForReading(fs.files, path, io);
    if file.Missing? {
      return NotFound;
    } else if file.Refused? {
      return OpenFailed;
    }
    var regex, count, tooLarge := AddStreams(Lines(file.content), maxSize);
    if tooLarge {
      r := TooLarge;
    } else if count == 0 {
      r := NoStreams;
    } else if io.closeFails {
      r := CloseFailed;
    } else {
      r := Pattern(regex.value, count);
    }
  }

  /**
   * The read loop of dl_read_streamlist. `tooLarge` says that an append
   * failed, which ends the loop and the function; otherwise `regex` is the
   * joined pattern (None when no line was kept) and `count` the number of
   * kept lines.
   */
  method AddStreams(lines: seq<string>, maxSize: nat) returns (regex: Option<string>, count: nat, tooLarge: bool)
    ensures var kept := Kept(lines);
      if kept == [] then regex == None && count == 0 && !tooLarge
      else if |Join(kept)| + 1 > maxSize then regex == None && tooLarge
      else regex == Some(Join(kept)) && count == |kept| && !tooLarge
  {
    regex, count, tooLarge := None, 0, false;
    var n := 0;
    while n < |lines|
      invariant n <= |lines|
      invariant count == |Kept(lines[..n])|
      invariant count == 0 ==> regex.None?
      invariant count > 0 ==> regex == Some(Join(Kept(lines[..n])))
      invariant regex.Some? ==> |regex.value| + 1 <= maxSize
    {
      var ptr := ReadTrimmed(lines[n]);
      KeptStep(lines, n);
      n := n + 1;
      if ptr == [] || ptr[0] == '#' || ptr[0] == '*' {
        assert Kept(lines[..n]) == Kept(lines[..n - 1]) + [] == Kept(lines[..n - 1]);
        continue;
      }
      var added := AddToString(regex, ptr, maxSize);
      if added.None? {
        KeptPrefixTooLarge(lines, n, maxSize);
        return None, count, true;
      }
      ghost var before := Kept(lines[..n - 1]);
      assert Kept(lines[..n]) == before + [ptr];
      if before != [] {
        assert (before + [ptr])[..|before|] == before;
      }
      regex := added;
      count := count + 1;
      assert regex == Some(Join(Kept(lines[..n])));
    }
    assert lines[..n] == lines;
  }

  // ------------------------------------------------------------------ lemmas

  lemma KeptStep(lines: seq<string>, n: nat)
    requires n < |lines|
    ensures var t := Trim(lines[n]);
      Kept(lines[..n + 1]) == Kept(lines[..n]) + if Ignored(t) then [] else [t]
  {
    assert lines[..n + 1][..n] == lines[..n];
  }

  /** Compiling line by line is compiling the concatenation. */
  lemma {:induction false} KeptAppend(a: seq<string>, b: seq<string>)
    ensures Kept(a + b) == Kept(a) + Kept(b)
    decreases |b|
  {
    if b != [] {
      var init := b[..|b| - 1];
      assert (a + b)[..|a + b| - 1] == a + init;
      assert (a + b)[|a + b| - 1] == b[|b| - 1];
      KeptAppend(a, init);
      var t := Trim(b[|b| - 1]);
      var tail := if Ignored(t) then [] else [t];
      calc {
        Kept(a + b);
        Kept(a + init) + tail;
        Kept(a) + Kept(init) + tail;
        Kept(a) + (Kept(init) + tail);
        Kept(a) + Kept(b);
      }
    } else {
      assert a + b == a;
    }
  }

  /** Appending streams never shortens the joined pattern. */
  lemma {:induction false} JoinGrows(xs: seq<string>, ys: seq<string>)
    requires xs != []
    ensures |Join(xs + ys)| >= |Join(xs)|
    decreases |ys|
  {
    if ys != [] {
      var init := ys[..|ys| - 1];
      assert (xs + ys)[..|xs + ys| - 1] == xs + init;
      JoinGrows(xs, init);
      assert |Join(xs + ys)| > |Join(xs + init)|;
    } else {
      assert xs + ys == xs;
    }
  }

  /** Once the pattern built from the first n lines is too large, the whole file's is too. */
  lemma KeptPrefixTooLarge(lines: seq<string>, n: nat, maxSize: nat)
    requires 0 < n <= |lines|
    requires Kept(lines[..n]) != [] && |Join(Kept(lines[..n]))| + 1 > maxSize
    ensures Kept(lines) != [] && |Join(Kept(lines))| + 1 > maxSize
  {
    assert lines == lines[..n] + lines[n..];
    KeptAppend(lines[..n], lines[n..]);
    JoinGrows(Kept(lines[..n]), Kept(lines[n..]));
  }

  /**
   * Trimming removes exactly the leading and the trailing white space: the
   * result is a slice of the line, everything before and after it is white
   * space, and it neither starts nor ends with white space.
   */
  lemma {:induction false} TrimShape(s: string)
    ensures var t := Trim(s); var i := |s| - |TrimLeft(s)|;
      0 <= i && i + |t| <= |s| && t == s[i..i + |t|] &&
      (forall k | 0 <= k < i :: IsSpace(s[k])) &&
      (forall k | i + |t| <= k < |s| :: IsSpace(s[k])) &&
      (t != [] ==> !IsSpace(t[0]) && !IsSpace(t[|t| - 1]))
  {
    TrimLeftShape(s);
    TrimRightShape(TrimLeft(s));
  }

  lemma {:induction false} TrimLeftShape(s: string)
    ensures |TrimLeft(s)| <= |s| && TrimLeft(s) == s[|s| - |TrimLeft(s)|..]
    ensures forall k | 0 <= k < |s| - |TrimLeft(s)| :: IsSpace(s[k])
    ensures TrimLeft(s) != [] ==> !IsSpace(TrimLeft(s)[0])
    decreases |s|
  {
    if s != [] && IsSpace(s[0]) {
      TrimLeftShape(s[1..]);
    }
  }

  lemma {:induction false} TrimRightShape(s: string)
    ensures |TrimRight(s)| <= |s| && TrimRight(s) == s[..|TrimRight(s)|]
    ensures forall k | |TrimRight(s)| <= k < |s| :: IsSpace(s[k])
    ensures TrimRight(s) != [] ==> !IsSpace(TrimRight(s)[|TrimRight(s)| - 1])
    ensures TrimRight(s) != [] && !IsSpace(s[0]) ==> !IsSpace(TrimRight(s)[0])
    decreases |s|
  {
    if s != [] && IsSpace(s[|s| - 1]) {
      TrimRightShape(s[..|s| - 1]);
    }
  }

  /** Some line of `lines` trims to `x`, which is neither blank nor a comment. */
  predicate Occurs(lines: seq<string>, x: string) {
    exists k :: 0 <= k < |lines| && x == Trim(lines[k]) && !Ignored(x)
  }

  /** A line is kept exactly when its trimmed text is neither blank nor a comment. */
  lemma {:induction false} KeptMembers(lines: seq<string>, x: string)
    ensures x in Kept(lines) <==> Occurs(lines, x)
    decreases |lines|
  {
    if lines != [] {
      var init := lines[..|lines| - 1];
      var t := Trim(lines[|lines| - 1]);
      KeptMembers(init, x);
      assert x in Kept(lines) <==> x in Kept(init) || (x == t && !Ignored(x));
      OccursStep(lines, x);
    }
  }

  lemma OccursStep(lines: seq<string>, x: string)
    requires lines != []
    ensures Occurs(lines, x) <==>
      Occurs(lines[..|lines| - 1], x) || (x == Trim(lines[|lines| - 1]) && !Ignored(x))
  {
    var init := lines[..|lines| - 1];
    if Occurs(init, x) {
      var k :| 0 <= k < |init| && x == Trim(init[k]) && !Ignored(x);
      assert lines[k] == init[k];
    }
    if Occurs(lines, x) {
      var k :| 0 <= k < |lines| && x == Trim(lines[k]) && !Ignored(x);
      if k < |init| {
        assert init[k] == lines[k];
      }
    }
  }

  /**
   * Once appending a stream fails, no later line matters: the compilation
   * of the file with more lines after them fails the same way.
   */
  lemma TooLargeStops(content: seq<char>, more: seq<string>, closeFails: bool, maxSize: nat)
    requires CompileList(Readable(content), closeFails, maxSize) == TooLarge
    ensures var lines := Lines(content) + more;
      Kept(lines) != [] && |Join(Kept(lines))| + 1 > maxSize
  {
    var lines := Lines(content);
    KeptAppend(lines, more);
    JoinGrows(Kept(lines), Kept(more));
  }

  // ------------------------------------------------ the bar-separated pattern

  /** Index of the last '|' in `s`, or -1. */
  function LastBar(s: string): (i: int)
    ensures -1 <= i < |s|
    ensures i >= 0 ==> s[i] == '|'
    ensures forall k | i < k < |s| :: s[k] != '|'
  {
    if s == [] then -1 else if s[|s| - 1] == '|' then |s| - 1 else LastBar(s[..|s| - 1])
  }

  /** The alternatives of a compound pattern, split at each '|'. */
  function Split(s: string): (xs: seq<string>)
    ensures xs != []
    decreases |s|
  {
    var i := LastBar(s);
    if i < 0 then [s] else Split(s[..i]) + [s[i + 1..]]
  }

  /**
   * When no stream contains '|', each kept stream is one alternative of the
   * compiled pattern, in order: splitting undoes joining.
   */
  lemma {:induction false} SplitJoin(xs: seq<string>)
    requires xs != []
    requires forall k | 0 <= k < |xs| :: '|' !in xs[k]
    ensures Split(Join(xs)) == xs
    decreases |xs|
  {
    if |xs| == 1 {
      assert LastBar(xs[0]) == -1;
    } else {
      var init := xs[..|xs| - 1];
      var last := xs[|xs| - 1];
      assert '|' !in last;
      SplitStep(Join(init), last);
      assert forall k | 0 <= k < |init| :: '|' !in init[k];
      SplitJoin(init);
      assert init + [last] == xs;
    }
  }

  /** Splitting a pattern that ends in "|last" splits off `last`. */
  lemma SplitStep(j: string, last: string)
    requires '|' !in last
    ensures Split(j + "|" + last) == Split(j) + [last]
  {
    var s := j + "|" + last;
    LastBarOfJoin(j, last);
    assert s[..|j|] == j && s[|j| + 1..] == last;
  }

  /**
   * A compiled pattern has the kept streams as its alternatives, in file
   * order, when no stream contains '|'; its count is their number.
   */
  lemma CompiledAlternatives(content: seq<char>, closeFails: bool, maxSize: nat)
    requires forall l | l in Kept(Lines(content)) :: '|' !in l
    ensures var r := CompileList(Readable(content), closeFails, maxSize);
      r.Pattern? ==> Split(r.regex) == Kept(Lines(content)) && r.count == |Split(r.regex)|
  {
    var kept := Kept(Lines(content));
    if kept != [] {
      SplitJoin(kept);
    }
  }

  lemma LastBarOfJoin(j: string, last: string)
    requires '|' !in last
    ensures LastBar(j + "|" + last) == |j|
  {
    var s := j + "|" + last;
    assert s[|j|] == '|';
  }
}
