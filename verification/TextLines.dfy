/** Rust's `split_inclusive('\n')` and `lines()` on text, and the laws that make
    a line-by-line rewrite of a file reversible. */
module TextLines {
  import opened Searching

  /** Index of the first line feed at or after the start, or |t| when there is none. */
  function FirstNewline(t: string): (i: nat)
    ensures i <= |t|
    ensures i < |t| ==> t[i] == '\n'
    ensures forall k :: 0 <= k < i ==> t[k] != '\n'
  {
    FirstIndex(t, '\n')
  }

  /** The pieces of `t`, each kept together with its line feed. */
  function SplitInclusive(t: string): (lines: seq<string>)
    decreases |t|
  {
    if t == [] then []
    else
      var i := FirstNewline(t);
      if i == |t| then [t] else [t[..i + 1]] + SplitInclusive(t[i + 1..])
  }

  function Join(lines: seq<string>): string {
    if lines == [] then [] else lines[0] + Join(lines[1..])
  }

  predicate Terminated(line: string) {
    line != [] && line[|line| - 1] == '\n'
  }

  /** One piece of a split: not empty, with a line feed nowhere but at its end. */
  ghost predicate IsLine(line: string) {
    line != [] && forall k :: 0 <= k < |line| - 1 ==> line[k] != '\n'
  }

  /** Pieces that a split can produce: only the last may lack its line feed. */
  ghost predicate WellSplit(lines: seq<string>) {
    && (forall i :: 0 <= i < |lines| ==> IsLine(lines[i]))
    && (forall i :: 0 <= i < |lines| - 1 ==> Terminated(lines[i]))
  }

  /** The terminator of a piece: "\r\n", "\n" or nothing. */
  function Ending(line: string): (e: string)
    ensures |e| <= |line| && line[|line| - |e|..] == e
    ensures e == "" || e == "\n" || e == "\r\n"
    ensures e != "" <==> Terminated(line)
  {
    if |line| >= 2 && line[|line| - 2..] == "\r\n" then "\r\n"
    else if |line| >= 1 && line[|line| - 1] == '\n' then "\n"
    else ""
  }

  /** The piece as `lines()` yields it. */
  function Body(line: string): string {
    line[..|line| - |Ending(line)|]
  }

  lemma BodyEnding(line: string)
    ensures Body(line) + Ending(line) == line
  {
  }

  /** A character that is no line break lies before the terminator. */
  lemma BeforeEnding(line: string, k: nat)
    requires k < |line| && line[k] != '\n' && line[k] != '\r'
    ensures k < |Body(line)|
  {
    if Ending(line) == "\r\n" {
      assert line[|line| - 2..] == "\r\n";
      assert line[|line| - 2] == '\r' && line[|line| - 1] == '\n';
    }
  }

  lemma {:induction false} JoinSplit(t: string)
    ensures Join(SplitInclusive(t)) == t
    ensures WellSplit(SplitInclusive(t))
    decreases |t|
  {
    if t != [] {
      var i := FirstNewline(t);
      if i == |t| {
        assert Join([t]) == t + Join([]) == t;
      } else {
        JoinSplit(t[i + 1..]);
        var rest := SplitInclusive(t[i + 1..]);
        assert t == t[..i + 1] + t[i + 1..];
        assert IsLine(t[..i + 1]) && Terminated(t[..i + 1]);
      }
    }
  }

  lemma {:induction false} FirstNewlineOfLine(line: string, rest: string)
    requires IsLine(line) && Terminated(line)
    ensures FirstNewline(line + rest) == |line| - 1
  {
    var t := line + rest;
    assert t[|line| - 1] == '\n';
    assert forall k :: 0 <= k < |line| - 1 ==> t[k] == line[k];
  }

  /** Splitting undoes joining on every list of pieces a split can produce. */
  lemma {:induction false} SplitJoin(lines: seq<string>)
    requires WellSplit(lines)
    ensures SplitInclusive(Join(lines)) == lines
  {
    if lines == [] {
    } else if |lines| == 1 {
      var t := lines[0];
      assert Join(lines) == t + Join(lines[1..]) == t;
      var i := FirstNewline(t);
      if i < |t| {
        assert i == |t| - 1;
        assert t[..i + 1] == t && t[i + 1..] == [];
      }
    } else {
      var rest := Join(lines[1..]);
      assert WellSplit(lines[1..]) by {
        forall i | 0 <= i < |lines[1..]| ensures IsLine(lines[1..][i]) { assert lines[1..][i] == lines[i + 1]; }
        forall i | 0 <= i < |lines[1..]| - 1 ensures Terminated(lines[1..][i]) { assert lines[1..][i] == lines[i + 1]; }
      }
      SplitJoin(lines[1..]);
      FirstNewlineOfLine(lines[0], rest);
      var t := lines[0] + rest;
      assert t[..|lines[0]|] == lines[0] && t[|lines[0]|..] == rest;
    }
  }

  /** A prefix of the text that ends at a piece boundary. */
  lemma {:induction false} JoinAppend(a: seq<string>, b: seq<string>)
    ensures Join(a + b) == Join(a) + Join(b)
  {
    if a == [] {
      assert a + b == b;
    } else {
      JoinAppend(a[1..], b);
      assert (a + b)[1..] == a[1..] + b;
    }
  }

  lemma JoinSnoc(a: seq<string>, x: string)
    ensures Join(a + [x]) == Join(a) + x
  {
    JoinAppend(a, [x]);
    assert Join([x]) == x + Join([]) == x;
  }

  /** The join grows by one piece at a time. */
  lemma JoinNext(lines: seq<string>, i: nat)
    requires i < |lines|
    ensures Join(lines[..i + 1]) == Join(lines[..i]) + lines[i]
  {
    JoinSnoc(lines[..i], lines[i]);
    assert lines[..i + 1] == lines[..i] + [lines[i]];
  }

  /** No carriage return except directly before a line feed. */
  predicate NoBareCr(t: string) {
    forall i :: 0 <= i < |t| && t[i] == '\r' ==> i + 1 < |t| && t[i + 1] == '\n'
  }

  lemma NoBareCrAppend(a: string, b: string)
    requires a == [] || a[|a| - 1] != '\r'
    ensures NoBareCr(a + b) <==> NoBareCr(a) && NoBareCr(b)
  {
    if NoBareCr(a + b) {
      forall i | 0 <= i < |a| && a[i] == '\r' ensures i + 1 < |a| && a[i + 1] == '\n' {
        assert (a + b)[i] == '\r' && (a + b)[i + 1] == '\n';
      }
      forall i | 0 <= i < |b| && b[i] == '\r' ensures i + 1 < |b| && b[i + 1] == '\n' {
        assert (a + b)[|a| + i] == '\r' && (a + b)[|a| + i + 1] == '\n';
      }
    }
    if NoBareCr(a) && NoBareCr(b) {
      forall i | 0 <= i < |a + b| && (a + b)[i] == '\r' ensures i + 1 < |a + b| && (a + b)[i + 1] == '\n' {
        if i < |a| { assert a[i] == '\r'; } else { assert b[i - |a|] == '\r'; }
      }
    }
  }

  /** A text has no bare carriage return exactly when none of its pieces has one. */
  lemma {:induction false} NoBareCrByLine(lines: seq<string>)
    requires WellSplit(lines)
    ensures NoBareCr(Join(lines)) <==> forall i :: 0 <= i < |lines| ==> NoBareCr(lines[i])
  {
    if |lines| == 1 {
      assert Join(lines) == lines[0] + Join(lines[1..]) == lines[0];
    } else if |lines| > 1 {
      var tail := lines[1..];
      assert forall i :: 0 <= i < |tail| ==> tail[i] == lines[i + 1];
      assert WellSplit(tail);
      NoBareCrByLine(tail);
      NoBareCrAppend(lines[0], Join(tail));
      if NoBareCr(Join(lines)) {
        forall i | 0 <= i < |lines| ensures NoBareCr(lines[i]) {
          if i > 0 { assert lines[i] == tail[i - 1]; }
        }
      }
    }
  }
}
