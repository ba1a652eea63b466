/**
 * Character classes of the C library in the "C" locale, and the line reader
 * that every file operation of the relay goes through.
 */
module CText {

  /** isspace() in the "C" locale: space, tab, newline, vertical tab, form feed, carriage return. */
  predicate IsSpace(c: char) {
    c == ' ' || '\t' <= c <= '\r'
  }

  predicate IsDigit(c: char) {
    '0' <= c <= '9'
  }

  /** A C string cannot hold a NUL character: it would end the string. */
  predicate IsCString(s: string) {
    '\0' !in s
  }

  /** True when no character of `s` is white space (a single scanf token). */
  predicate NoSpace(s: string) {
    forall k | 0 <= k < |s| :: !IsSpace(s[k])
  }

  /** Index of the first newline in `s`, or |s| when there is none. */
  function LineEnd(s: seq<char>): (i: nat)
    ensures i <= |s|
    ensures '\n' !in s[..i]
    ensures i < |s| ==> s[i] == '\n'
  {
    if s == [] || s[0] == '\n' then 0
    else
      var j := LineEnd(s[1..]);
      assert s[..j + 1] == [s[0]] + s[1..][..j];
      j + 1
  }

  /**
   * The lines dl_readline returns from a file with contents `s`: text up to
   * each newline, the newline dropped; a final line without a newline is
   * still returned; an empty file has no lines.
   */
  function Lines(s: seq<char>): (ls: seq<string>)
    decreases |s|
  {
    if s == [] then []
    else
      var i := LineEnd(s);
      if i == |s| then [s] else [s[..i]] + Lines(s[i + 1..])
  }

  /** No line of a file contains the newline that ends it. */
  lemma {:induction false} LinesHaveNoNewline(s: seq<char>)
    ensures forall l | l in Lines(s) :: '\n' !in l
    decreases |s|
  {
    if s != [] {
      var i := LineEnd(s);
      if i < |s| {
        LinesHaveNoNewline(s[i + 1..]);
      }
    }
  }

  /** Writing one newline-terminated line gives a file that reads back as exactly that line. */
  lemma {:induction false} LinesOfOneLine(l: string)
    requires '\n' !in l
    ensures Lines(l + "\n") == [l]
  {
    var s := l + "\n";
    assert s[|l|] == '\n';
    assert s[..|l|] == l;
    var i := LineEnd(s);
    assert i == |l|;
    assert s[i + 1..] == [];
  }
}
