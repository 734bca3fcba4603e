/** Lines of bytes, each ended by a line feed. */
module ByteLines {
  import opened Bytes
  import opened Searching

  type Line = seq<byte>

  const NEWLINE: byte := 10

  /** The lines, each followed by its line feed. */
  function Frame(lines: seq<Line>): seq<byte> {
    if lines == [] then [] else lines[0] + [NEWLINE] + Frame(lines[1..])
  }

  /** The first line feed, or the end. */
  function NewlineAt(s: seq<byte>): (i: nat)
    ensures i <= |s| && NEWLINE !in s[..i] && (i < |s| ==> s[i] == NEWLINE)
  {
    FirstIndex(s, NEWLINE)
  }

  lemma NewlineAfter(before: seq<byte>, s: seq<byte>)
    requires NEWLINE !in before
    ensures NewlineAt(before + s) == |before| + NewlineAt(s)
  {
    FirstIndexAfter(before, s, NEWLINE);
  }

  lemma NoNewline(s: seq<byte>)
    ensures NewlineAt(s) == |s| <==> NEWLINE !in s
  {
    NoIndex(s, NEWLINE);
  }

  /** A line in front of the rest. */
  lemma FirstLine(line: Line, rest: seq<byte>)
    requires NEWLINE !in line
    ensures var s := line + [NEWLINE] + rest;
      NewlineAt(s) == |line| < |s| && s[..|line|] == line && s[|line| + 1..] == rest
  {
    var s := line + [NEWLINE] + rest;
    assert s == line + ([NEWLINE] + rest);
    NewlineAfter(line, [NEWLINE] + rest);
    hide NewlineAt;
    assert s[..|line|] == line;
  }
}
