/** The three Arduino text primitives the credential file is built from:
    `String::trim()`, `Stream::readStringUntil()` and `Print::println()`. */
module ArduinoText {

  /** `isspace` in the C locale: the characters `String::trim()` strips. */
  predicate IsSpace(c: char) {
    c == ' ' || c == '\t' || c == '\n' || c == '\U{0B}' || c == '\U{0C}' || c == '\r'
  }

  /** No leading and no trailing whitespace: what `trim()` leaves behind. */
  predicate Trimmed(s: string) {
    s == [] || (!IsSpace(s[0]) && !IsSpace(s[|s| - 1]))
  }

  /** Drop trailing whitespace. */
  function TrimEnd(s: string): (r: string)
    ensures |r| <= |s| && r == s[..|r|]
    ensures forall i :: |r| <= i < |s| ==> IsSpace(s[i])
    ensures r == [] || !IsSpace(r[|r| - 1])
  {
    if s != [] && IsSpace(s[|s| - 1]) then TrimEnd(s[..|s| - 1]) else s
  }

  /** Drop leading whitespace. */
  function TrimStart(s: string): (r: string)
    ensures |r| <= |s| && r == s[|s| - |r|..]
    ensures forall i :: 0 <= i < |s| - |r| ==> IsSpace(s[i])
    ensures r == [] || !IsSpace(r[0])
  {
    if s != [] && IsSpace(s[0]) then TrimStart(s[1..]) else s
  }

  /** `String::trim()`: no whitespace is left at either end. */
  function Trim(s: string): (r: string)
    ensures Trimmed(r)
  {
    TrimStart(TrimEnd(s))
  }

  /** What `trim()` keeps is the slice of `s` between the whitespace it removes
      from the front and the whitespace it removes from the back. */
  lemma TrimIsSlice(s: string)
    ensures exists i, j :: 0 <= i <= j <= |s| && Trim(s) == s[i..j]
                           && (forall k :: 0 <= k < i ==> IsSpace(s[k]))
                           && (forall k :: j <= k < |s| ==> IsSpace(s[k]))
  {
    var e := TrimEnd(s);
    var r := TrimStart(e);
    assert Trim(s) == r;
    var i, j := |e| - |r|, |e|;
    assert r == s[i..j];
    assert forall k :: 0 <= k < i ==> IsSpace(s[k]) by {
      forall k | 0 <= k < i ensures IsSpace(s[k]) { assert s[k] == e[k]; }
    }
  }

  /** A string without whitespace at either end is its own trim. */
  lemma TrimmedIsFixpoint(s: string)
    requires Trimmed(s)
    ensures Trim(s) == s
  {
  }

  /** The carriage return that `println` appends is removed again by `trim()`. */
  lemma TrimDropsCarriageReturn(s: string)
    ensures Trim(s + ['\r']) == Trim(s)
  {
    assert (s + ['\r'])[..|s|] == s;
  }

  /** A line made only of whitespace trims to the empty string. */
  lemma {:induction false} TrimBlank(s: string)
    requires forall k :: 0 <= k < |s| ==> IsSpace(s[k])
    ensures Trim(s) == []
  {
    if s != [] {
      TrimBlank(s[..|s| - 1]);
    }
  }

  /** Trimming never adds a character: whatever `s` lacks, `Trim(s)` lacks. */
  lemma TrimKeepsAbsence(s: string, c: char)
    requires c !in s
    ensures c !in Trim(s)
  {
    TrimIsSlice(s);
    var i, j :| 0 <= i <= j <= |s| && Trim(s) == s[i..j];
  }

  /** `Stream::readStringUntil(terminator)` on a file: the characters up to the
      first terminator (which is consumed, not returned), or everything that is
      left when no terminator comes before the end of the file. */
  function ReadStringUntil(s: string, terminator: char): (r: (string, string))
    ensures terminator !in r.0
    ensures terminator in s ==> s == r.0 + [terminator] + r.1
    ensures terminator !in s ==> r.0 == s && r.1 == []
  {
    if s == [] then ([], [])
    else if s[0] == terminator then ([], s[1..])
    else
      var (line, rest) := ReadStringUntil(s[1..], terminator);
      ([s[0]] + line, rest)
  }

  /** Reading up to the terminator splits at its first occurrence. */
  lemma {:induction false} ReadStringUntilSplits(line: string, terminator: char, rest: string)
    requires terminator !in line
    ensures ReadStringUntil(line + [terminator] + rest, terminator) == (line, rest)
  {
    if line == [] {
      assert line + [terminator] + rest == [terminator] + rest;
    } else {
      var s := line + [terminator] + rest;
      ReadStringUntilSplits(line[1..], terminator, rest);
      assert s[0] == line[0] != terminator;
      assert s[1..] == line[1..] + [terminator] + rest;
      assert [line[0]] + line[1..] == line;
    }
  }

  /** `Print::println(s)`: the text followed by CR LF. */
  function Println(s: string): string {
    s + "\r\n"
  }
}
