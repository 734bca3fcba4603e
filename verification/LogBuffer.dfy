/** The buffer that reassembles the lines of a launched game's two output streams. */
module LogBuffer {
  import opened Searching
  import opened Splitting

  datatype ProcessStream = Stdout | Stderr

  datatype BufferedLine = BufferedLine(stream: ProcessStream, text: string)

  datatype End = Newline | Eof | More

  // ----- the library calls -----

  /** `replaceAll("\r\n", "\n")`: one pass, replaced text is not looked at again. */
  function ReplaceCrLf(s: string): string {
    if s == [] then []
    else if |s| >= 2 && s[0] == '\r' && s[1] == '\n' then ['\n'] + ReplaceCrLf(s[2..])
    else [s[0]] + ReplaceCrLf(s[1..])
  }

  // ----- the lines of a text -----

  function NewlineAt(s: string): (i: nat)
    ensures i <= |s| && '\n' !in s[..i] && (i < |s| ==> s[i] == '\n')
  {
    FirstIndex(s, '\n')
  }

  function DropReturn(line: string): string {
    if line != [] && line[|line| - 1] == '\r' then line[..|line| - 1] else line
  }

  /** The terminated lines, each without the one CR its newline may come with. */
  function Lines(s: string): seq<string>
    decreases |s|
  {
    var i := NewlineAt(s);
    if i == |s| then [] else [DropReturn(s[..i])] + Lines(s[i + 1..])
  }

  /** What follows the last newline. */
  function Tail(s: string): string
    decreases |s|
  {
    var i := NewlineAt(s);
    if i == |s| then s else Tail(s[i + 1..])
  }

  // ----- the buffer -----

  /** The lines that one push completes, and what stays pending. */
  function Pushed(pending: string, data: string, end: End): (seq<string>, string) {
    var raw := pending + data;
    var parts := Split(ReplaceCrLf(raw), '\n');
    if end == More && |parts| <= 1 then ([], raw)
    else
      var last := |parts| - 1;
      if end == More then (parts[..last], parts[last])
      else if parts[last] != [] || (end == Newline && last == 0) then (parts, "")
      else (parts[..last], "")
  }

  function Tagged(stream: ProcessStream, texts: seq<string>): seq<BufferedLine> {
    seq(|texts|, i requires 0 <= i < |texts| => BufferedLine(stream, texts[i]))
  }

  class StreamLineBuffer {
    var pending: map<ProcessStream, string>

    ghost predicate Valid() reads this { Stdout in pending && Stderr in pending }

    constructor ()
      ensures Valid() && pending == map[Stdout := "", Stderr := ""]
    {
      pending := map[Stdout := "", Stderr := ""];
    }

    method Push(stream: ProcessStream, data: string, end: End) returns (lines: seq<BufferedLine>)
      requires Valid()
      modifies this
      ensures Valid()
      ensures var (texts, rest) := Pushed(old(pending[stream]), data, end);
        lines == Tagged(stream, texts) && pending == old(pending)[stream := rest]
    {
      var before := pending[stream];
      pending := pending[stream := before + data];
      var parts := Split(ReplaceCrLf(pending[stream]), '\n');
      lines := [];
      var complete := end != More || |parts| > 1;
      if !complete { return; }
      var tail := parts[|parts| - 1];
      parts := parts[..|parts| - 1];
      for i := 0 to |parts|
        invariant lines == Tagged(stream, parts[..i])
      {
        lines := lines + [BufferedLine(stream, parts[i])];
      }
      if end != More {
        if tail != [] || (end == Newline && |parts| == 0) {
          lines := lines + [BufferedLine(stream, tail)];
        }
        pending := pending[stream := ""];
      } else {
        pending := pending[stream := tail];
      }
    }

    method Flush() returns (lines: seq<BufferedLine>)
      requires Valid()
      modifies this
      ensures Valid() && pending[Stdout] == "" && pending[Stderr] == ""
      ensures lines == Flushed(old(pending))
    {
      lines := [];
      if pending[Stdout] != [] {
        lines := lines + [BufferedLine(Stdout, pending[Stdout])];
        pending := pending[Stdout := ""];
      }
      if pending[Stderr] != [] {
        lines := lines + [BufferedLine(Stderr, pending[Stderr])];
        pending := pending[Stderr := ""];
      }
    }
  }

  function Flushed(pending: map<ProcessStream, string>): seq<BufferedLine>
    requires Stdout in pending && Stderr in pending
  {
    (if pending[Stdout] != [] then [BufferedLine(Stdout, pending[Stdout])] else [])
    + (if pending[Stderr] != [] then [BufferedLine(Stderr, pending[Stderr])] else [])
  }

  // ----- whole runs -----

  datatype Push = Push(stream: ProcessStream, data: string, end: End)

  /** All lines that a run of pushes and the final flush give, in order. */
  function Output(pending: map<ProcessStream, string>, pushes: seq<Push>): seq<BufferedLine>
    requires Stdout in pending && Stderr in pending
    decreases |pushes|
  {
    if pushes == [] then Flushed(pending)
    else
      var p := pushes[0];
      assert p.stream == Stdout || p.stream == Stderr;
      var (texts, rest) := Pushed(pending[p.stream], p.data, p.end);
      Tagged(p.stream, texts) + Output(pending[p.stream := rest], pushes[1..])
  }

  function TextsOf(lines: seq<BufferedLine>, stream: ProcessStream): seq<string> {
    if lines == [] then []
    else (if lines[0].stream == stream then [lines[0].text] else []) + TextsOf(lines[1..], stream)
  }

  /** The lines of one finished record: its unterminated rest counts when it is not
      empty, or when the record is a newline record without a newline of its own. */
  function Emitted(record: string, end: End): seq<string> {
    Lines(record) + if Tail(record) != [] || (end == Newline && Lines(record) == []) then [Tail(record)] else []
  }

  /** What a stream should show: its pushes joined into records, however they were
      cut, with `open` the part of the current record that came before. */
  function Expected(open: string, pushes: seq<Push>, stream: ProcessStream): seq<string>
    decreases |pushes|
  {
    if pushes == [] then Emitted(open, Eof)
    else if pushes[0].stream != stream then Expected(open, pushes[1..], stream)
    else if pushes[0].end == More then Expected(open + pushes[0].data, pushes[1..], stream)
    else Emitted(open + pushes[0].data, pushes[0].end) + Expected("", pushes[1..], stream)
  }

  // ----- splitting is cutting at newlines -----

  lemma LinesNext(line: string, rest: string)
    requires '\n' !in line
    ensures Lines(line + ['\n'] + rest) == [DropReturn(line)] + Lines(rest)
    ensures Tail(line + ['\n'] + rest) == Tail(rest)
  {
    var s := line + ['\n'] + rest;
    assert s == line + (['\n'] + rest);
    FirstIndexAfter(line, ['\n'] + rest, '\n');
    assert s[..|line|] == line && s[|line| + 1..] == rest;
  }

  lemma NoNewline(s: string)
    ensures NewlineAt(s) == |s| <==> '\n' !in s
  {
    NoIndex(s, '\n');
  }

  /** A text is newline-free or a line, its newline, and a rest. */
  lemma FirstLine(s: string) returns (line: string, rest: string)
    ensures '\n' !in line
    ensures '\n' in s ==> s == line + ['\n'] + rest && |rest| < |s|
  {
    var i := NewlineAt(s);
    NoNewline(s);
    if i < |s| {
      line, rest := s[..i], s[i + 1..];
    } else {
      line, rest := [], [];
    }
  }

  lemma {:induction false} ReplaceLine(line: string, rest: string)
    requires '\n' !in line
    ensures ReplaceCrLf(line + ['\n'] + rest) == DropReturn(line) + ['\n'] + ReplaceCrLf(rest)
    decreases |line|
  {
    var s := line + ['\n'] + rest;
    if line == [] {
      assert s[1..] == rest;
    } else if line == ['\r'] {
      assert s[2..] == rest;
    } else {
      assert s[1..] == line[1..] + ['\n'] + rest;
      ReplaceLine(line[1..], rest);
      assert DropReturn(line) == [line[0]] + DropReturn(line[1..]);
    }
  }

  lemma {:induction false} ReplaceNothing(s: string)
    requires '\n' !in s
    ensures ReplaceCrLf(s) == s
    decreases |s|
  {
    if s != [] { ReplaceNothing(s[1..]); }
  }

  /** Replacing and splitting gives the lines of the text and then its tail. */
  lemma {:induction false} PartsAreLines(s: string)
    ensures Split(ReplaceCrLf(s), '\n') == Lines(s) + [Tail(s)]
    decreases |s|
  {
    var line, rest := FirstLine(s);
    if '\n' in s {
      ReplaceLine(line, rest);
      SplitAround(DropReturn(line), ReplaceCrLf(rest), '\n');
      SplitNone(DropReturn(line), '\n');
      PartsAreLines(rest);
      LinesNext(line, rest);
    } else {
      NoNewline(s);
      ReplaceNothing(s);
      SplitNone(s, '\n');
    }
  }

  lemma NoLines(s: string)
    ensures Lines(s) == [] <==> '\n' !in s
    ensures Lines(s) == [] ==> Tail(s) == s
  {
    NoNewline(s);
  }

  /** More text only extends the lines: what is pending is all that is needed. */
  lemma {:induction false} Append(s: string, more: string)
    ensures Lines(s + more) == Lines(s) + Lines(Tail(s) + more)
    ensures Tail(s + more) == Tail(Tail(s) + more)
    decreases |s|
  {
    hide Lines, Tail, DropReturn, NewlineAt;
    var line, rest := FirstLine(s);
    if '\n' in s {
      assert s + more == line + ['\n'] + (rest + more);
      LinesNext(line, rest);
      LinesNext(line, rest + more);
      Append(rest, more);
    } else {
      NoLines(s);
    }
  }

  lemma EmptyText()
    ensures Lines("") == [] && Tail("") == ""
  {
  }

  // ----- the buffer is independent of the cuts -----

  /** A newline push that finds nothing pending and brings nothing, after its record
      has already given lines: it shows one empty line too many. */
  predicate Spurious(open: string, data: string, end: End) {
    end == Newline && Tail(open) + data == "" && Lines(open) != []
  }

  /** One push, for the stream it belongs to: `open` is the record so far. */
  lemma PushedIs(open: string, data: string, end: End)
    ensures var (texts, rest) := Pushed(Tail(open), data, end);
      && (end == More ==> Lines(open) + texts == Lines(open + data) && rest == Tail(open + data))
      && (end != More ==> rest == "")
      && (end != More ==> Lines(open) + texts == Emitted(open + data, end) + if Spurious(open, data, end) then [""] else [])
  {
    hide Split, ReplaceCrLf, Lines, Tail;
    var raw := Tail(open) + data;
    PartsAreLines(raw);
    Append(open, data);
    NoLines(raw);
    EmptyText();
  }

  /** How many empty lines too many a stream shows. */
  function Extra(open: string, pushes: seq<Push>, stream: ProcessStream): nat
    decreases |pushes|
  {
    if pushes == [] then 0
    else if pushes[0].stream != stream then Extra(open, pushes[1..], stream)
    else if pushes[0].end == More then Extra(open + pushes[0].data, pushes[1..], stream)
    else (if Spurious(open, pushes[0].data, pushes[0].end) then 1 else 0) + Extra("", pushes[1..], stream)
  }

  lemma {:induction false} TextsOfConcat(a: seq<BufferedLine>, b: seq<BufferedLine>, stream: ProcessStream)
    ensures TextsOf(a + b, stream) == TextsOf(a, stream) + TextsOf(b, stream)
    decreases |a|
  {
    if a == [] {
      assert a + b == b;
    } else {
      assert (a + b)[1..] == a[1..] + b;
      TextsOfConcat(a[1..], b, stream);
    }
  }

  lemma {:induction false} TextsOfTagged(tag: ProcessStream, texts: seq<string>, stream: ProcessStream)
    ensures TextsOf(Tagged(tag, texts), stream) == if tag == stream then texts else []
    decreases |texts|
  {
    if texts != [] {
      assert Tagged(tag, texts)[1..] == Tagged(tag, texts[1..]);
      TextsOfTagged(tag, texts[1..], stream);
    }
  }

  lemma TextsOfFlushed(pending: map<ProcessStream, string>, open: string, stream: ProcessStream)
    requires Stdout in pending && Stderr in pending && stream in pending && pending[stream] == Tail(open)
    ensures Lines(open) + TextsOf(Output(pending, []), stream) == Emitted(open, Eof)
  {
    hide Lines, Tail;
    var a := if pending[Stdout] != [] then [BufferedLine(Stdout, pending[Stdout])] else [];
    var b := if pending[Stderr] != [] then [BufferedLine(Stderr, pending[Stderr])] else [];
    TextsOfConcat(a, b, stream);
  }

  function AfterPush(pending: map<ProcessStream, string>, p: Push): map<ProcessStream, string>
    requires p.stream in pending
  {
    pending[p.stream := Pushed(pending[p.stream], p.data, p.end).1]
  }

  lemma TextsOfOutput(pending: map<ProcessStream, string>, pushes: seq<Push>, stream: ProcessStream)
    requires Stdout in pending && Stderr in pending && pushes != [] && pushes[0].stream in pending
    ensures var p := pushes[0];
      TextsOf(Output(pending, pushes), stream)
      == (if p.stream == stream then Pushed(pending[p.stream], p.data, p.end).0 else [])
         + TextsOf(Output(AfterPush(pending, p), pushes[1..]), stream)
  {
    hide Pushed, Flushed, TextsOf, Tagged;
    var p := pushes[0];
    var texts := Pushed(pending[p.stream], p.data, p.end).0;
    TextsOfConcat(Tagged(p.stream, texts), Output(AfterPush(pending, p), pushes[1..]), stream);
    TextsOfTagged(p.stream, texts, stream);
  }

  lemma Chain(open: seq<string>, texts: seq<string>, later: seq<string>, record: seq<string>, spare: seq<string>)
    requires open + texts == record + spare
    ensures |open + (texts + later)| == |record| + |spare| + |later|
    ensures spare == [] ==> open + (texts + later) == record + later
  {
    assert open + (texts + later) == (open + texts) + later;
    assert record + [] == record;
  }

  lemma OnlyNewlinesAreSpurious(open: string, data: string)
    ensures !Spurious(open, data, More)
  {
  }

  /** What each stream shows depends only on its records, not on how they were cut
      or on the other stream, up to spurious empty lines. */
  lemma {:induction false} ShownUpToExtra(pending: map<ProcessStream, string>, open: string, pushes: seq<Push>, stream: ProcessStream)
    requires Stdout in pending && Stderr in pending && stream in pending && pending[stream] == Tail(open)
    ensures |Lines(open) + TextsOf(Output(pending, pushes), stream)| == |Expected(open, pushes, stream)| + Extra(open, pushes, stream)
    ensures Extra(open, pushes, stream) == 0
            ==> Lines(open) + TextsOf(Output(pending, pushes), stream) == Expected(open, pushes, stream)
    decreases |pushes|
  {
    hide Output, Lines, Tail, Pushed, Flushed, Emitted, TextsOf, Spurious;
    if pushes == [] {
      TextsOfFlushed(pending, open, stream);
    } else {
      var p := pushes[0];
      assert p.stream == Stdout || p.stream == Stderr;
      var after := AfterPush(pending, p);
      TextsOfOutput(pending, pushes, stream);
      var later := TextsOf(Output(after, pushes[1..]), stream);
      if p.stream != stream {
        ShownUpToExtra(after, open, pushes[1..], stream);
        assert [] + later == later;
      } else {
        var texts := Pushed(pending[stream], p.data, p.end).0;
        PushedIs(open, p.data, p.end);
        OnlyNewlinesAreSpurious(open, p.data);
        EmptyText();
        ShownUpToExtra(after, if p.end == More then open + p.data else "", pushes[1..], stream);
        var record := if p.end == More then Lines(open + p.data) else Emitted(open + p.data, p.end);
        Chain(Lines(open), texts, later, record, if Spurious(open, p.data, p.end) then [""] else []);
        assert [] + later == later;
      }
    }
  }

  /** Starting empty, a stream shows its records exactly when no newline push is
      spurious. */
  lemma ShownExactly(pushes: seq<Push>, stream: ProcessStream)
    ensures TextsOf(Output(map[Stdout := "", Stderr := ""], pushes), stream) == Expected("", pushes, stream)
            <==> Extra("", pushes, stream) == 0
  {
    EmptyText();
    ShownUpToExtra(map[Stdout := "", Stderr := ""], "", pushes, stream);
  }

  function TextPushed(pushes: seq<Push>, stream: ProcessStream): string {
    if pushes == [] then "" else (if pushes[0].stream == stream then pushes[0].data else "") + TextPushed(pushes[1..], stream)
  }

  lemma {:induction false} OneRecord(open: string, pushes: seq<Push>, stream: ProcessStream)
    requires forall p :: p in pushes ==> p.end == More
    ensures Expected(open, pushes, stream) == Emitted(open + TextPushed(pushes, stream), Eof)
    ensures Extra(open, pushes, stream) == 0
    decreases |pushes|
  {
    hide Emitted, Spurious, Lines, Tail;
    if pushes == [] {
      assert open + "" == open;
    } else {
      var p, rest := pushes[0], pushes[1..];
      assert p in pushes && p.end == More;
      var data := if p.stream == stream then p.data else "";
      var longer := if p.stream == stream then open + p.data else open;
      OneRecord(longer, rest, stream);
      assert longer + TextPushed(rest, stream) == open + (data + TextPushed(rest, stream));
    }
  }

  /** Two interleaved streams cut anywhere, even between a CR and its LF, and then
      flushed: each shows the lines of its whole text and a non-empty tail. */
  lemma CutsDoNotMatter(pushes: seq<Push>, stream: ProcessStream)
    requires forall p :: p in pushes ==> p.end == More
    ensures var text := TextPushed(pushes, stream);
      TextsOf(Output(map[Stdout := "", Stderr := ""], pushes), stream)
      == Lines(text) + if Tail(text) != [] then [Tail(text)] else []
  {
    OneRecord("", pushes, stream);
    ShownExactly(pushes, stream);
    assert "" + TextPushed(pushes, stream) == TextPushed(pushes, stream);
  }

  /** The spurious line is real: the same record shows one line when it comes whole,
      and two when it is cut after its own newline. */
  lemma SpuriousWitness()
    ensures var empty := map[Stdout := "", Stderr := ""];
            var whole := [Push(Stdout, "a\n", Newline)];
            var cut := [Push(Stdout, "a\n", More), Push(Stdout, "", Newline)];
      && Expected("", whole, Stdout) == Expected("", cut, Stdout) == ["a"]
      && Output(empty, whole) == [BufferedLine(Stdout, "a")]
      && Output(empty, cut) == [BufferedLine(Stdout, "a"), BufferedLine(Stdout, "")]
  {
    var empty := map[Stdout := "", Stderr := ""];
    var whole := [Push(Stdout, "a\n", Newline)];
    var cut := [Push(Stdout, "a\n", More), Push(Stdout, "", Newline)];
    WitnessPushes();
    hide Pushed;
    assert whole[1..] == [] && cut[1..] == [Push(Stdout, "", Newline)] && cut[1..][1..] == [];
    assert empty[Stdout := ""] == empty;
    assert Tagged(Stdout, ["a"]) == [BufferedLine(Stdout, "a")] && Tagged(Stdout, [""]) == [BufferedLine(Stdout, "")];
    WitnessRecord();
    hide Emitted;
  }

  lemma WitnessPushes()
    ensures Pushed("", "a\n", Newline) == (["a"], "") && Pushed("", "a\n", More) == (["a"], "")
    ensures Pushed("", "", Newline) == ([""], "")
  {
    WitnessLines();
    PartsAreLines("a\n");
    PartsAreLines("");
    hide Lines, Tail, Split, ReplaceCrLf;
    assert "" + "a\n" == "a\n" && "" + "" == "";
    assert ["a"] + [""] == ["a", ""] && [] + [""] == [""];
  }

  lemma WitnessLines()
    ensures Lines("a\n") == ["a"] && Tail("a\n") == "" && Lines("") == [] && Tail("") == ""
  {
    LinesNext("a", "");
    EmptyText();
    hide Lines, Tail;
    assert "a" + ['\n'] + "" == "a\n";
  }

  lemma WitnessRecord()
    ensures Emitted("" + "a\n", Newline) == ["a"] && Emitted("" + "a\n" + "", Newline) == ["a"] && Emitted("", Eof) == []
  {
    WitnessLines();
    hide Lines, Tail;
    assert "" + "a\n" == "a\n" && "a\n" + "" == "a\n";
  }
}
