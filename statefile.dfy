/**
 * dl_savestate and dl_recoverstate: saving a connection's position to a
 * state file as one line "<address> <packet id> <packet time>", and scanning
 * a state file for the line of a given server address.
 */
module StateFile {
  import opened Wrappers
  import opened CText
  import opened CNumbers
  import opened Files
  import opened Link

  /** Size of the buffer a state line is formatted into, and read into (`char line[200]`). */
  const LineBufferSize: nat := 200
  /** Size of the buffer the address token is scanned into (`char addrstr[100]`). */
  const TokenBufferSize: nat := 100

  // ----------------------------------------------------------------- saving

  /** The state line without its newline. */
  function StateLine(addr: string, c: Cursor): string {
    addr + " " + FormatLL(c.pktid) + " " + FormatLL(c.pkttime)
  }

  /** "%s %lld %lld\n": what dl_savestate writes. */
  function StateRecord(addr: string, c: Cursor): string {
    StateLine(addr, c) + "\n"
  }

  /** The record of a descriptor always fits the 200-byte buffer, so snprintf never truncates it. */
  lemma StateRecordFits(addr: string, c: Cursor)
    requires |addr| < AddressSize && IsInt64(c.pktid) && IsInt64(c.pkttime)
    ensures |StateRecord(addr, c)| < LineBufferSize
  {
    FormatLLLength(c.pktid);
    FormatLLLength(c.pkttime);
  }

  function Min(a: nat, b: nat): nat {
    if a < b then a else b
  }

  /**
   * dl_savestate: -1 without a descriptor or a path; otherwise the file is
   * opened for writing (created or truncated), the record is written with
   * one write() and the file is closed. Any failure gives -1; only after all
   * three succeed is the result 0. A failed open leaves the file as it was; a
   * short write leaves only the bytes written.
   */
  method SaveState(conn: Connection?, path: Option<string>, fs: FileStore, io: Io) returns (r: int)
    requires conn != null ==> conn.Fits()
    modifies fs
    ensures r == 0 || r == -1
    ensures conn == null || path.None? || io.openFails ==> r == -1 && fs.files == old(fs.files)
    ensures conn != null && path.Some? && !io.openFails ==>
      var record := StateRecord(conn.addr, conn.Position());
      fs.files == old(fs.files)[path.value := record[..Min(io.written, |record|)]] &&
      (r == 0 <==> io.written >= |record| && !io.closeFails)
  {
    if conn == null || path.None? {
      return -1;
    }
    if io.openFails {
      return -1;
    }
    fs.files := fs.files[path.value := []];
    var record := StateRecord(conn.addr, conn.Position());
    StateRecordFits(conn.addr, conn.Position());
    var n := Min(io.written, |record|);
    fs.files := fs.files[path.value := record[..n]];
    if n != |record| {
      return -1;
    }
    if io.closeFails {
      return -1;
    }
    return 0;
  }

  // --------------------------------------------------------------- scanning

  /** First index at or after `i` holding white space. */
  function TokenEnd(s: string, i: nat): (j: nat)
    requires i <= |s|
    ensures i <= j <= |s|
    ensures forall k | i <= k < j :: !IsSpace(s[k])
    ensures j < |s| ==> IsSpace(s[j])
    decreases |s| - i
  {
    if i < |s| && !IsSpace(s[i]) then TokenEnd(s, i + 1) else i
  }

  /**
   * What sscanf(line, "%s %lld %lld\n", ...) assigns: Blank when the line
   * holds only white space (sscanf returns EOF), otherwise the address token
   * and the numbers that converted (1, 2 or 3 fields).
   */
  datatype Scan = Blank | Fields(addr: string, pktid: Option<int>, pkttime: Option<int>) {
    predicate Complete() {
      Fields? && pktid.Some? && pkttime.Some?
    }
  }

  function ScanStateLine(line: string): (r: Scan)
    ensures r.Fields? ==> r.addr != [] && NoSpace(r.addr)
    ensures r.Fields? && r.pkttime.Some? ==> r.pktid.Some?
    ensures r.Complete() ==> IsInt64(r.pktid.value) && IsInt64(r.pkttime.value)
  {
    var j := SkipSpaces(line, 0);
    if j == |line| then Blank
    else
      var e := TokenEnd(line, j);
      var addr := line[j..e];
      match ScanLL(line, e)
      case None => Fields(addr, None, None)
      case Some((id, e2)) =>
        match ScanLL(line, e2)
        case None => Fields(addr, Some(id), None)
        case Some((t, _)) => Fields(addr, Some(id), Some(t))
  }

  function Truncate(s: string, n: nat): string {
    if |s| <= n then s else s[..n]
  }

  /** strncmp(addr, token, sizeof(addrstr)) == 0. */
  predicate SameAddress(addr: string, token: string) {
    Truncate(addr, TokenBufferSize) == Truncate(token, TokenBufferSize)
  }

  /** Addresses shorter than the compared length are the same exactly when equal. */
  lemma SameAddressShort(a: string, b: string)
    requires |a| < TokenBufferSize && |b| < TokenBufferSize
    ensures SameAddress(a, b) <==> a == b
  {
  }

  /** A line that holds a complete record for `addr`. */
  predicate Matches(line: string, addr: string) {
    var s := ScanStateLine(line);
    s.Complete() && SameAddress(addr, s.addr)
  }

  function CursorOf(line: string): Cursor
    requires ScanStateLine(line).Complete()
  {
    var s := ScanStateLine(line);
    Cursor(s.pktid.value, s.pkttime.value)
  }

  /**
   * The line scanner reads a written record back: the address token, then
   * both numbers.
   */
  lemma ScanStateLineOfRecord(addr: string, c: Cursor)
    requires addr != [] && NoSpace(addr)
    requires IsInt64(c.pktid) && IsInt64(c.pkttime)
    ensures ScanStateLine(StateLine(addr, c)) == Fields(addr, Some(c.pktid), Some(c.pkttime))
  {
    var f1 := FormatLL(c.pktid);
    var f2 := FormatLL(c.pkttime);
    var line := StateLine(addr, c);
    var a := |addr|;
    var e1 := a + 1 + |f1|;
    FormatLLLength(c.pkttime);
    assert line[..a] == addr;
    assert line[a] == ' ';
    assert line[a + 1..e1] == f1;
    assert line[e1] == ' ';
    assert line[e1 + 1..] == f2;
    ScanRecordParts(line, addr, c.pktid, c.pkttime);
  }

  /** The same, stated on the positions of the three fields within the line. */
  lemma ScanRecordParts(line: string, addr: string, id: int, t: int)
    requires addr != [] && NoSpace(addr)
    requires IsInt64(id) && IsInt64(t)
    requires |addr| + 2 + |FormatLL(id)| < |line|
    requires line[..|addr|] == addr && line[|addr|] == ' '
    requires line[|addr| + 1..|addr| + 1 + |FormatLL(id)|] == FormatLL(id)
    requires line[|addr| + 1 + |FormatLL(id)|] == ' '
    requires line[|addr| + 2 + |FormatLL(id)|..] == FormatLL(t)
    ensures ScanStateLine(line) == Fields(addr, Some(id), Some(t))
  {
    var a := |addr|;
    var e1 := a + 1 + |FormatLL(id)|;
    TokenAt(line, addr);
    ScanFormatLL(line, a, a + 1, id);
    ScanFormatLL(line, e1, e1 + 1, t);
    ScanFields(line, addr, id, e1, t);
  }

  /** A token at the start of a line, ended by white space. */
  lemma TokenAt(line: string, token: string)
    requires token != [] && NoSpace(token)
    requires |token| < |line| && line[..|token|] == token && IsSpace(line[|token|])
    ensures SkipSpaces(line, 0) == 0 && TokenEnd(line, 0) == |token|
  {
    assert line[0] == token[0];
    SkipSpacesAt(line, 0, 0);
    forall k | 0 <= k < |token|
      ensures !IsSpace(line[k])
    {
      assert line[k] == token[k];
    }
  }

  lemma ScanFields(line: string, addr: string, id: int, e1: nat, t: int)
    requires |addr| < |line| && line[..|addr|] == addr
    requires SkipSpaces(line, 0) == 0 && TokenEnd(line, 0) == |addr|
    requires ScanLL(line, |addr|) == Some((id, e1))
    requires ScanLL(line, e1).Some? && ScanLL(line, e1).value.0 == t
    ensures ScanStateLine(line) == Fields(addr, Some(id), Some(t))
  {
    assert line[0..|addr|] == addr;
  }

  // -------------------------------------------------------------- recovering

  /** What scanning a state file finds, and the line numbers it warns about. */
  datatype Recovery = Recovery(found: Option<Cursor>, warnings: seq<nat>)

  /**
   * The scan of dl_recoverstate, with lines that do not hold all three fields
   * skipped: blank lines are passed over without counting them; an
   * incomplete line is reported under its number `count` and passed over;
   * the first complete line with the address ends the scan.
   */
  function Recover(lines: seq<string>, addr: string, count: nat, warned: seq<nat>): (r: Recovery)
    ensures r.found.Some? ==> IsInt64(r.found.value.pktid) && IsInt64(r.found.value.pkttime)
    decreases |lines|
  {
    if lines == [] then Recovery(None, warned)
    else
      match ScanStateLine(lines[0])
      case Blank => Recover(lines[1..], addr, count, warned)
      case Fields(a, id, t) =>
        if id.None? || t.None? then Recover(lines[1..], addr, count + 1, warned + [count])
        else if SameAddress(addr, a) then Recovery(Some(Cursor(id.value, t.value)), warned)
        else Recover(lines[1..], addr, count + 1, warned)
  }

  /**
   * The scan of dl_recoverstate as written: an incomplete line is reported
   * but still compared by address, and if it matches, the numbers it lacks
   * are whatever the uninitialised locals spktid and spkttime hold, given
   * here as `uninit`.
   */
  function RecoverAsWritten(lines: seq<string>, addr: string, uninit: Cursor, count: nat, warned: seq<nat>): Recovery
    decreases |lines|
  {
    if lines == [] then Recovery(None, warned)
    else
      match ScanStateLine(lines[0])
      case Blank => RecoverAsWritten(lines[1..], addr, uninit, count, warned)
      case Fields(a, id, t) =>
        var warned' := if id.None? || t.None? then warned + [count] else warned;
        if SameAddress(addr, a) then
          Recovery(Some(Cursor(if id.Some? then id.value else uninit.pktid,
                               if t.Some? then t.value else uninit.pkttime)), warned')
        else RecoverAsWritten(lines[1..], addr, uninit, count + 1, warned')
  }

  /** Every line fits the 200-byte read buffer and its address token the 100-byte one. */
  predicate StateFileFits(content: seq<char>) {
    IsCString(content) &&
    forall l | l in Lines(content) ::
      |l| < LineBufferSize && (ScanStateLine(l).Fields? ==> |ScanStateLine(l).addr| < TokenBufferSize)
  }

  /**
   * dl_recoverstate: -1 without a descriptor or a path; 1 when the state
   * file does not exist, -1 when it cannot be opened otherwise, in both
   * cases with the cursor untouched. Otherwise the lines are scanned in
   * order and the first complete line for the descriptor's address sets its
   * cursor; with no such line the cursor is unchanged. The result is then 0,
   * or -1 when close() fails.
   */
  method RecoverState(conn: Connection?, path: Option<string>, fs: FileStore, io: Io) returns (r: int, warnings: seq<nat>)
    requires path.Some? && path.value in fs.files ==> StateFileFits(fs.files[path.value])
    modifies conn
    ensures conn != null ==> conn.addr == old(conn.addr) && conn.link == old(conn.link)
    ensures conn == null || path.None? ==> r == -1 && warnings == []
    ensures conn != null && path.None? ==> conn.Position() == old(conn.Position())
    ensures conn != null && path.Some? ==>
      match OpenForReading(fs.files, path.value, io)
      case Missing => r == 1 && warnings == [] && conn.Position() == old(conn.Position())
      case Refused => r == -1 && warnings == [] && conn.Position() == old(conn.Position())
      case Readable(content) =>
        var rec := Recover(Lines(content), conn.addr, 1, []);
        conn.Position() == (if rec.found.Some? then rec.found.value else old(conn.Position())) &&
        warnings == rec.warnings &&
        r == (if io.closeFails then -1 else 0)
  {
    warnings := [];
    if conn == null || path.None? {
      return -1, [];
    }
    var file := OpenForReading(fs.files, path.value, io);
    if file.Missing? {
      return 1, [];
    } else if file.Refused? {
      return -1, [];
    }
    var lines := Lines(file.content);
    var found := false;
    var count := 1;
    var n := 0;
    while n < |lines|
      invariant n <= |lines|
      invariant conn.addr == old(conn.addr) && conn.link == old(conn.link)
      invariant conn.Position() == old(conn.Position())
      invariant Recover(lines[n..], conn.addr, count, warnings) == Recover(lines, conn.addr, 1, [])
    {
      var fields := ScanStateLine(lines[n]);
      assert lines[n..][1..] == lines[n + 1..];
      if fields.Blank? {
        n := n + 1;
        continue;
      }
      if !fields.Complete() {
        warnings := warnings + [count];
        count := count + 1;
        n := n + 1;
        continue;
      }
      if SameAddress(conn.addr, fields.addr) {
        conn.pktid := fields.pktid.value;
        conn.pkttime := fields.pkttime.value;
        found := true;
        break;
      }
      count := count + 1;
      n := n + 1;
    }
    if !found {
      assert lines[n..] == [];
    }
    r := if io.closeFails then -1 else 0;
  }

  // ------------------------------------------------------------------ lemmas

  /** The first complete line for the address decides the cursor; later lines do not matter. */
  lemma {:induction false} RecoverFindsFirstMatch(lines: seq<string>, addr: string, count: nat, warned: seq<nat>, k: nat)
    requires k < |lines| && Matches(lines[k], addr)
    requires forall j | 0 <= j < k :: !Matches(lines[j], addr)
    ensures Recover(lines, addr, count, warned).found == Some(CursorOf(lines[k]))
    decreases k
  {
    if k > 0 {
      var s := ScanStateLine(lines[0]);
      assert !Matches(lines[0], addr);
      var c := if s.Blank? then count else count + 1;
      var w := if s.Fields? && !s.Complete() then warned + [count] else warned;
      assert Recover(lines, addr, count, warned) == Recover(lines[1..], addr, c, w);
      RecoverFindsFirstMatch(lines[1..], addr, c, w, k - 1);
    }
  }

  /** With no complete line for the address, nothing is found and the cursor stays as it was. */
  lemma {:induction false} RecoverWithoutMatch(lines: seq<string>, addr: string, count: nat, warned: seq<nat>)
    requires forall j | 0 <= j < |lines| :: !Matches(lines[j], addr)
    ensures Recover(lines, addr, count, warned).found == None
    decreases |lines|
  {
    if lines != [] {
      var s := ScanStateLine(lines[0]);
      assert !Matches(lines[0], addr);
      var c := if s.Blank? then count else count + 1;
      var w := if s.Fields? && !s.Complete() then warned + [count] else warned;
      assert Recover(lines, addr, count, warned) == Recover(lines[1..], addr, c, w);
      RecoverWithoutMatch(lines[1..], addr, c, w);
    }
  }

  /**
   * Saving then recovering: a file written by dl_savestate for a
   * whitespace-free address reads back to exactly the saved cursor for that
   * address, and to nothing for any address that compares different.
   */
  lemma SaveThenRecover(addr: string, c: Cursor, other: string)
    requires addr != [] && NoSpace(addr) && |addr| < AddressSize
    requires IsInt64(c.pktid) && IsInt64(c.pkttime)
    ensures Recover(Lines(StateRecord(addr, c)), addr, 1, []) == Recovery(Some(c), [])
    ensures !SameAddress(other, addr) ==> Recover(Lines(StateRecord(addr, c)), other, 1, []).found == None
  {
    var line := StateLine(addr, c);
    ScanStateLineOfRecord(addr, c);
    RecordHasNoNewline(addr, c);
    LinesOfOneLine(line);
    assert Lines(StateRecord(addr, c)) == [line];
    assert [line][1..] == [];
  }

  lemma RecordHasNoNewline(addr: string, c: Cursor)
    requires NoSpace(addr)
    ensures '\n' !in StateLine(addr, c)
  {
    FormatHasNoNewline(c.pktid);
    FormatHasNoNewline(c.pkttime);
    assert IsSpace('\n');
    assert '\n' !in addr;
  }

  lemma FormatHasNoNewline(n: int)
    ensures '\n' !in FormatLL(n)
  {
    var f := FormatLL(n);
    DigitsAreDigits(if n < 0 then -n else n);
    forall k | 0 <= k < |f| ensures f[k] != '\n' {
      if n < 0 && k > 0 { assert f[k] == Digits(-n)[k - 1]; }
    }
  }

  /** On files whose non-blank lines are all complete, the scan as written and the corrected one agree. */
  lemma {:induction false} AsWrittenAgreesOnCompleteLines(lines: seq<string>, addr: string, uninit: Cursor, count: nat, warned: seq<nat>)
    requires forall j | 0 <= j < |lines| :: ScanStateLine(lines[j]).Blank? || ScanStateLine(lines[j]).Complete()
    ensures RecoverAsWritten(lines, addr, uninit, count, warned) == Recover(lines, addr, count, warned)
    decreases |lines|
  {
    if lines != [] {
      AsWrittenAgreesOnCompleteLines(lines[1..], addr, uninit, if ScanStateLine(lines[0]).Blank? then count else count + 1, warned);
    }
  }

  /**
   * The defect of the scan as written: a line holding only the address
   * matches, and the cursor it "recovers" is whatever the uninitialised
   * locals hold; the corrected scan finds nothing there.
   */
  lemma AsWrittenRecoversUninitialised(addr: string, uninit: Cursor)
    requires addr != [] && NoSpace(addr) && |addr| < TokenBufferSize
    ensures RecoverAsWritten([addr], addr, uninit, 1, []) == Recovery(Some(uninit), [1])
    ensures Recover([addr], addr, 1, []) == Recovery(None, [1])
  {
    assert addr[0] == addr[0];
    SkipSpacesAt(addr, 0, 0);
    assert TokenEnd(addr, 0) == |addr|;
    assert addr[0..|addr|] == addr;
    assert ScanLL(addr, |addr|) == None;
    assert ScanStateLine(addr) == Fields(addr, None, None);
    assert [addr][1..] == [];
  }
}
