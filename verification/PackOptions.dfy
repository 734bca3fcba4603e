/** The `resourcePacks:` line of `options.txt`: reading it, rewriting it in
    place, and checking a new selection against what is installed. */
module PackOptions {
  import opened Results
  import opened PackErrors
  import opened TextLines
  import Json = JsonStrings
  import Grammar = JsonGrammar

  const MAX_SELECTED := 512
  const MAX_NAME_BYTES := 1024
  const ENTRY := "resourcePacks:"

  /** Length of the text in UTF-8, which is what Rust's `len` counts. */
  function Utf8Length(s: string): nat {
    if s == [] then 0
    else
      (if s[0] < 0x80 as char then 1 else if s[0] < 0x800 as char then 2
       else if s[0] < 0x1_0000 as char then 3 else 4) + Utf8Length(s[1..])
  }

  function Power(n: nat): nat { if n == 0 then 1 else 2 * Power(n - 1) }

  /** The bits that a character of `n` bytes carries (section 3 of RFC 3629). */
  function Bits(n: nat): nat { if n == 1 then 7 else 5 * n + 1 }

  /** A character takes as many bytes as it needs, and a text what its characters take. */
  lemma {:induction false} CharacterSize(c: char, rest: string)
    ensures var n := Utf8Length([c]);
      && 1 <= n <= 4 && c as nat < Power(Bits(n)) && (n > 1 ==> c as nat >= Power(Bits(n - 1)))
      && Utf8Length([c] + rest) == n + Utf8Length(rest)
  {
    assert [c][1..] == "" && ([c] + rest)[1..] == rest;
    assert Power(7) == 0x80;
    assert Power(11) == 16 * Power(7);
    assert Power(16) == 32 * Power(11);
    assert Power(21) == 32 * Power(16);
  }

  predicate Distinct(vs: seq<string>) {
    forall i, j :: 0 <= i < j < |vs| ==> vs[i] != vs[j]
  }

  /** The lists `parse_options` accepts. */
  predicate Storable(vs: seq<string>) {
    && |vs| <= MAX_SELECTED
    && (forall i :: 0 <= i < |vs| ==> Utf8Length(vs[i]) <= MAX_NAME_BYTES)
    && Distinct(vs)
  }

  predicate IsEntry(line: string) { ENTRY <= line }

  /** What follows the key on every `resourcePacks:` line. */
  function Entries(lines: seq<string>): seq<string> {
    if lines == [] then []
    else
      var body := Body(lines[0]);
      (if ENTRY <= body then [body[|ENTRY|..]] else []) + Entries(lines[1..])
  }

  function ParseOptions(text: string): PackResult<seq<string>> {
    if !NoBareCr(text) then Failure(Format)
    else
      var entries := Entries(SplitInclusive(text));
      if |entries| != 1 then Failure(Format)
      else
        match Json.ParseStringArray(entries[0])
        case None => Failure(Format)
        case Some(selected) => if Storable(selected) then Success(selected) else Failure(Format)
  }

  /** One rewritten piece: the new list in place of the old, same terminator. */
  function Rewrite(line: string, json: string): string {
    if IsEntry(line) then ENTRY + json + Ending(line) else line
  }

  function RewriteAll(lines: seq<string>, json: string): (out: seq<string>)
    ensures |out| == |lines|
    ensures forall i :: 0 <= i < |lines| ==> out[i] == Rewrite(lines[i], json)
  {
    if lines == [] then [] else [Rewrite(lines[0], json)] + RewriteAll(lines[1..], json)
  }

  function ReplaceOptions(original: string, selected: seq<string>): PackResult<string> {
    if ParseOptions(original).Failure? then Failure(Format)
    else Success(Join(RewriteAll(SplitInclusive(original), Json.PrintStringArray(selected))))
  }

  method Replace(original: string, selected: seq<string>) returns (r: PackResult<string>)
    ensures r == ReplaceOptions(original, selected)
  {
    var parsed := ParseOptions(original);
    if parsed.Failure? {
      return Failure(Format);
    }
    var output := RewriteLines(original, Json.PrintStringArray(selected));
    return Success(output);
  }

  /** The loop that builds the new file piece by piece. */
  method RewriteLines(original: string, json: string) returns (output: string)
    ensures output == Join(RewriteAll(SplitInclusive(original), json))
  {
    var lines := SplitInclusive(original);
    output := "";
    ghost var out := RewriteAll(lines, json);
    for i := 0 to |lines|
      invariant output == Join(out[..i])
    {
      var line := lines[i];
      ghost var done := output;
      if ENTRY <= line {
        output := output + ENTRY;
        output := output + json;
        if |line| >= 2 && line[|line| - 2..] == "\r\n" {
          output := output + "\r\n";
        } else if |line| >= 1 && line[|line| - 1] == '\n' {
          output := output + "\n";
        }
        Regroup(done, json, Ending(line));
      } else {
        output := output + line;
      }
      assert output == done + Rewrite(line, json);
      JoinNext(out, i);
    }
    assert out[..|lines|] == out;
  }

  lemma Regroup(done: string, json: string, ending: string)
    ensures done + ENTRY + json + ending == done + (ENTRY + json + ending)
    ensures done + ENTRY + json == done + (ENTRY + json + "")
  {
  }

  // ----- one rewritten line -----

  /** The key never reaches into the terminator. */
  lemma EntryInBody(line: string)
    ensures IsEntry(line) <==> ENTRY <= Body(line)
  {
    BodyEnding(line);
    if IsEntry(line) {
      assert line[|ENTRY| - 1] == ':';
      BeforeEnding(line, |ENTRY| - 1);
    }
  }

  lemma RewrittenLine(line: string, json: string)
    requires IsLine(line)
    requires Json.NoBreaks(json)
    ensures var out := Rewrite(line, json);
      && IsLine(out)
      && Ending(out) == Ending(line)
      && (Terminated(out) <==> Terminated(line))
      && (IsEntry(out) <==> IsEntry(line))
      && (IsEntry(line) ==> Body(out) == ENTRY + json)
      && (NoBareCr(line) ==> NoBareCr(out))
  {
    if IsEntry(line) {
      var e := Ending(line);
      var head := ENTRY + json;
      var out := head + e;
      assert Rewrite(line, json) == out;
      Json.NoBreaksAppend(ENTRY, json);
      assert head[|head| - 1] != '\r' && head[|head| - 1] != '\n';
      assert forall k :: 0 <= k < |head| ==> out[k] == head[k];
      assert Ending(out) == e by {
        if e == "\n" {
          assert out[|out| - 2] == head[|head| - 1];
        } else if e == "" {
          assert out == head;
        } else {
          assert out[|out| - 2..] == e;
        }
      }
      assert out[..|head|] == head;
      assert NoBareCr(head);
      NoBareCrAppend(head, e);
      assert NoBareCr(e);
    }
  }

  lemma RewrittenWellSplit(lines: seq<string>, json: string)
    requires WellSplit(lines)
    requires Json.NoBreaks(json)
    ensures WellSplit(RewriteAll(lines, json))
  {
    forall i | 0 <= i < |lines| ensures IsLine(Rewrite(lines[i], json)) && (Terminated(lines[i]) ==> Terminated(Rewrite(lines[i], json))) {
      RewrittenLine(lines[i], json);
    }
  }

  /** Rewriting keeps the number of entries and gives each the new value. */
  lemma {:induction false} RewrittenEntries(lines: seq<string>, json: string)
    requires forall i :: 0 <= i < |lines| ==> IsLine(lines[i])
    requires Json.NoBreaks(json)
    ensures |Entries(RewriteAll(lines, json))| == |Entries(lines)|
    ensures forall e :: e in Entries(RewriteAll(lines, json)) ==> e == json
  {
    if lines != [] {
      var line := lines[0];
      RewrittenLine(line, json);
      EntryInBody(line);
      EntryInBody(Rewrite(line, json));
      RewrittenEntries(lines[1..], json);
      assert RewriteAll(lines, json)[1..] == RewriteAll(lines[1..], json);
      FirstEntryIs(lines);
      FirstEntryIs(RewriteAll(lines, json));
      hide Entries, Body, IsLine, RewriteAll, NoBareCr, Terminated, Ending;
      assert IsEntry(line) ==> Body(Rewrite(line, json))[|ENTRY|..] == json;
    }
  }

  // ----- laws of the editor -----

  /** The pieces of the new file are the old pieces, rewritten one by one. */
  lemma ReplacedLines(original: string, selected: seq<string>)
    requires ParseOptions(original).Success?
    ensures var json := Json.PrintStringArray(selected);
      var out := ReplaceOptions(original, selected).value;
      && SplitInclusive(out) == RewriteAll(SplitInclusive(original), json)
      && NoBareCr(out)
  {
    var json := Json.PrintStringArray(selected);
    var lines := SplitInclusive(original);
    Json.PrintedHasNoBreaks(selected);
    JoinSplit(original);
    RewrittenWellSplit(lines, json);
    SplitJoin(RewriteAll(lines, json));
    NoBareCrByLine(lines);
    forall i | 0 <= i < |lines| ensures NoBareCr(Rewrite(lines[i], json)) {
      RewrittenLine(lines[i], json);
    }
    NoBareCrByLine(RewriteAll(lines, json));
  }

  /** Reading back a written file gives the written selection, for exactly the
      selections the reader can accept. */
  lemma ParseReplaced(original: string, selected: seq<string>)
    requires ParseOptions(original).Success?
    ensures ParseOptions(ReplaceOptions(original, selected).value)
         == if Storable(selected) then Success(selected) else Failure(Format)
  {
    var json := Json.PrintStringArray(selected);
    var lines := SplitInclusive(original);
    ReplacedLines(original, selected);
    JoinSplit(original);
    Json.PrintedHasNoBreaks(selected);
    RewrittenEntries(lines, json);
    var entries := Entries(RewriteAll(lines, json));
    assert entries[0] in entries;
    Json.ParsePrinted(selected);
  }

  /** Every other line, and every terminator, is kept byte for byte. */
  lemma ForeignLinesKept(original: string, selected: seq<string>)
    requires ParseOptions(original).Success?
    ensures var before := SplitInclusive(original);
      var after := SplitInclusive(ReplaceOptions(original, selected).value);
      && |after| == |before|
      && (forall i :: 0 <= i < |before| ==> Ending(after[i]) == Ending(before[i]))
      && (forall i :: 0 <= i < |before| && !IsEntry(before[i]) ==> after[i] == before[i])
      && (exists i :: 0 <= i < |before| && IsEntry(before[i])
           && Body(after[i]) == ENTRY + Json.PrintStringArray(selected)
           && forall j :: 0 <= j < |before| && j != i ==> after[j] == before[j])
  {
    var json := Json.PrintStringArray(selected);
    var before := SplitInclusive(original);
    ReplacedLines(original, selected);
    JoinSplit(original);
    Json.PrintedHasNoBreaks(selected);
    forall i | 0 <= i < |before| ensures Ending(Rewrite(before[i], json)) == Ending(before[i])
                                      && (IsEntry(before[i]) ==> Body(Rewrite(before[i], json)) == ENTRY + json) {
      RewrittenLine(before[i], json);
    }
    var i := SingleEntry(before);
  }

  /** When a file has one entry, it sits on one line. */
  lemma {:induction false} SingleEntry(lines: seq<string>) returns (i: nat)
    requires |Entries(lines)| == 1
    ensures i < |lines| && IsEntry(lines[i])
    ensures forall j :: 0 <= j < |lines| && j != i ==> !IsEntry(lines[j])
  {
    EntryInBody(lines[0]);
    FirstEntry(lines);
    hide IsEntry, Body, Entries;
    var rest := lines[1..];
    assert forall j :: 1 <= j < |lines| ==> lines[j] == rest[j - 1];
    if IsEntry(lines[0]) {
      NoEntries(rest);
      i := 0;
    } else {
      var k := SingleEntry(rest);
      i := k + 1;
    }
  }

  lemma {:induction false} NoEntries(lines: seq<string>)
    requires Entries(lines) == []
    ensures forall j :: 0 <= j < |lines| ==> !IsEntry(lines[j])
  {
    if lines != [] {
      EntryInBody(lines[0]);
      NoEntries(lines[1..]);
      assert forall j :: 1 <= j < |lines| ==> lines[j] == lines[1..][j - 1];
    }
  }

  /** Writing twice is writing the second selection, unless the first could not be read back. */
  lemma LastReplaceWins(original: string, first: seq<string>, second: seq<string>)
    requires ParseOptions(original).Success?
    ensures ReplaceOptions(ReplaceOptions(original, first).value, second)
         == if Storable(first) then ReplaceOptions(original, second) else Failure(Format)
  {
    var lines := SplitInclusive(original);
    var a, b := Json.PrintStringArray(first), Json.PrintStringArray(second);
    ParseReplaced(original, first);
    ReplacedLines(original, first);
    JoinSplit(original);
    Json.PrintedHasNoBreaks(first);
    forall i | 0 <= i < |lines| ensures Rewrite(Rewrite(lines[i], a), b) == Rewrite(lines[i], b) {
      RewrittenLine(lines[i], a);
    }
    assert RewriteAll(RewriteAll(lines, a), b) == RewriteAll(lines, b);
  }

  // ----- selections -----

  predicate ValidName(name: string) {
    && name != "" && Utf8Length(name) <= 255
    && name != "." && name != ".."
    && forall i :: 0 <= i < |name| ==>
         name[i] != '/' && name[i] != '\\' && name[i] != ':' && !IsControl(name[i])
  }

  /** Unicode general category Cc. */
  predicate IsControl(c: char) {
    c < ' ' || (0x7F as char <= c < 0xA0 as char)
  }

  /** An entry the directory scan reports: an installed pack's name behind `file/`. */
  ghost predicate Installed(entry: string) {
    exists name :: ValidName(name) && entry == "file/" + name
  }

  /** The entries the editor does not know: built-in ids and missing packs. */
  function Opaque(list: seq<string>, available: seq<string>): (kept: seq<string>)
    ensures forall v :: v in kept <==> v in list && v !in available
  {
    if list == [] then []
    else (if list[0] in available then [] else [list[0]]) + Opaque(list[1..], available)
  }

  predicate ValidSelection(selected: seq<string>, saved: seq<string>, available: seq<string>) {
    && |selected| <= MAX_SELECTED
    && Distinct(selected)
    && Opaque(selected, available) == Opaque(saved, available)
  }

  lemma {:induction false} Utf8LengthAppend(a: string, b: string)
    ensures Utf8Length(a + b) == Utf8Length(a) + Utf8Length(b)
  {
    if a == [] {
      assert a + b == b;
    } else {
      Utf8LengthAppend(a[1..], b);
      assert (a + b)[1..] == a[1..] + b;
    }
  }

  function TotalLength(entries: seq<string>): nat {
    if entries == [] then 0 else Utf8Length(entries[0]) + TotalLength(entries[1..])
  }

  lemma LineSize(line: string, json: string)
    requires ENTRY <= Body(line)
    ensures Utf8Length(Rewrite(line, json)) + Utf8Length(Body(line)[|ENTRY|..]) == Utf8Length(line) + Utf8Length(json)
  {
    EntryInBody(line);
    hide Utf8Length;
    var entry := Body(line)[|ENTRY|..];
    BodyEnding(line);
    assert line == (ENTRY + entry) + Ending(line);
    Utf8LengthAppend(ENTRY + entry, Ending(line));
    Utf8LengthAppend(ENTRY, entry);
    Utf8LengthAppend(ENTRY + json, Ending(line));
    Utf8LengthAppend(ENTRY, json);
  }

  lemma FirstEntry(lines: seq<string>)
    requires lines != []
    ensures ENTRY <= Body(lines[0]) ==>
              && |Entries(lines)| == 1 + |Entries(lines[1..])|
              && TotalLength(Entries(lines)) == Utf8Length(Body(lines[0])[|ENTRY|..]) + TotalLength(Entries(lines[1..]))
    ensures !(ENTRY <= Body(lines[0])) ==> Entries(lines) == Entries(lines[1..])
  {
    hide Body, Utf8Length;
    if ENTRY <= Body(lines[0]) { assert Entries(lines)[1..] == Entries(lines[1..]); }
  }

  lemma OneMore(n: nat, x: nat)
    ensures (1 + n) * x == n * x + x
  {
  }

  /** Each entry is replaced by the new list, and nothing else changes size. */
  lemma {:induction false} RewrittenSize(lines: seq<string>, json: string)
    requires forall i :: 0 <= i < |lines| ==> IsLine(lines[i])
    ensures Utf8Length(Join(RewriteAll(lines, json))) + TotalLength(Entries(lines))
            == Utf8Length(Join(lines)) + |Entries(lines)| * Utf8Length(json)
    decreases |lines|
  {
    if lines != [] {
      var rest := lines[1..];
      RewrittenSize(rest, json);
      EntryInBody(lines[0]);
      Utf8LengthAppend(lines[0], Join(rest));
      Utf8LengthAppend(Rewrite(lines[0], json), Join(RewriteAll(rest, json)));
      FirstEntry(lines);
      hide Utf8Length, IsLine, Body, RewriteAll, Entries, TotalLength;
      assert RewriteAll(lines, json) == [Rewrite(lines[0], json)] + RewriteAll(rest, json);
      if ENTRY <= Body(lines[0]) {
        LineSize(lines[0], json);
        OneMore(|Entries(rest)|, Utf8Length(json));
      }
    }
  }

  /** The size in bytes of the new file, from the old one and the two lists. */
  lemma ReplacedSize(original: string, selected: seq<string>)
    requires ParseOptions(original).Success?
    ensures Utf8Length(ReplaceOptions(original, selected).value) + Utf8Length(Entries(SplitInclusive(original))[0])
            == Utf8Length(original) + Utf8Length(Json.PrintStringArray(selected))
  {
    hide Utf8Length, RewriteAll;
    var lines := SplitInclusive(original);
    JoinSplit(original);
    RewrittenSize(lines, Json.PrintStringArray(selected));
    assert Entries(lines) == [Entries(lines)[0]];
    assert TotalLength(Entries(lines)) == Utf8Length(Entries(lines)[0]) + TotalLength(Entries(lines)[1..]);
  }

  /** A file that says an empty selection, made as large as wanted by a foreign line. */
  function FullFile(n: nat): string { ENTRY + "[]" + "\n" + seq(n, _ => 'x') }

  lemma {:induction false} AsciiSize(s: string)
    requires forall i :: 0 <= i < |s| ==> s[i] < 0x80 as char
    ensures Utf8Length(s) == |s|
    decreases |s|
  {
    if s != [] { AsciiSize(s[1..]); }
  }

  lemma {:induction false} AtLeastOneByteEach(s: string)
    ensures Utf8Length(s) >= |s|
    decreases |s|
  {
    if s != [] { AtLeastOneByteEach(s[1..]); }
  }

  lemma FullFileSize(n: nat)
    ensures Utf8Length(FullFile(n)) == 17 + n && Utf8Length("[]") == 2
  {
    AsciiSize(FullFile(n));
    AsciiSize("[]");
  }

  lemma FullFileParses(n: nat)
    requires n > 0
    ensures ParseOptions(FullFile(n)) == Success([])
    ensures Entries(SplitInclusive(FullFile(n))) == ["[]"]
  {
    var line, filler := ENTRY + "[]" + "\n", seq(n, _ => 'x');
    FullFileLines(line, filler);
    TwoLines(line, filler);
    EmptyList();
    hide SplitInclusive, NoBareCr, Json.ParseStringArray, Storable, Body, Entries;
    OneEntry(line, filler, "[]");
  }

  lemma TwoLines(line: string, other: string)
    requires WellSplit([line, other]) && NoBareCr(line) && NoBareCr(other)
    ensures SplitInclusive(line + other) == [line, other] && NoBareCr(line + other)
  {
    hide SplitInclusive, NoBareCr, WellSplit;
    assert [line, other][1..] == [other] && [other][1..] == [];
    assert Join([other]) == other + Join([]) == other;
    SplitJoin([line, other]);
    NoBareCrByLine([line, other]);
  }

  lemma OneEntry(line: string, other: string, list: string)
    requires Body(line) == ENTRY + list && !(ENTRY <= Body(other))
    ensures Entries([line, other]) == [list]
  {
    hide Body;
    assert [line, other][1..] == [other] && [other][1..] == [];
    assert Entries([other]) == [] + Entries([]) == [];
    assert (ENTRY + list)[|ENTRY|..] == list;
  }

  lemma EmptyList()
    ensures Json.ParseStringArray("[]") == Some([]) && Storable([])
  {
    Json.ParsePrinted([]);
    hide Json.ParseStringArray;
  }

  lemma FullFileLines(line: string, filler: string)
    requires line == ENTRY + "[]" + "\n" && filler != "" && forall i :: 0 <= i < |filler| ==> filler[i] == 'x'
    ensures WellSplit([line, filler]) && NoBareCr(line) && NoBareCr(filler)
    ensures Body(line) == ENTRY + "[]" && !(ENTRY <= Body(filler))
  {
    BodyEnding(line);
    assert line[|line| - 2] == ']';
    assert !(ENTRY <= filler) by { assert filler[0] == 'x' && ENTRY[0] == 'r'; }
  }

  /** A selection that passes the guard can always be read back. */
  lemma ValidSelectionStorable(selected: seq<string>, saved: seq<string>, available: seq<string>)
    requires Storable(saved)
    requires forall a :: a in available ==> Installed(a)
    requires ValidSelection(selected, saved, available)
    ensures Storable(selected)
  {
    forall i | 0 <= i < |selected| ensures Utf8Length(selected[i]) <= MAX_NAME_BYTES {
      var v := selected[i];
      if v in available {
        var name :| ValidName(name) && v == "file/" + name;
        Utf8LengthAppend("file/", name);
        assert Utf8Length("file/") == 5;
      } else {
        assert v in Opaque(selected, available);
        assert v in saved;
      }
    }
  }

  /** A guarded write stores exactly the selection, and loses no unknown entry. */
  lemma GuardedWrite(original: string, selected: seq<string>, available: seq<string>)
    requires ParseOptions(original).Success?
    requires forall a :: a in available ==> Installed(a)
    requires ValidSelection(selected, ParseOptions(original).value, available)
    ensures var after := ParseOptions(ReplaceOptions(original, selected).value);
      && after == Success(selected)
      && Opaque(after.value, available) == Opaque(ParseOptions(original).value, available)
  {
    ValidSelectionStorable(selected, ParseOptions(original).value, available);
    ParseReplaced(original, selected);
  }

  // ----- what a file says, told on its lines -----

  /** A list within the limits: at most 512 names, each of at most 1024 bytes, none twice. */
  predicate WithinLimits(vs: seq<string>) {
    && |vs| <= 512
    && (forall i :: 0 <= i < |vs| ==> Utf8Length(vs[i]) <= 1024)
    && (forall i, j :: 0 <= i < |vs| && 0 <= j < |vs| && vs[i] == vs[j] ==> i == j)
  }

  /** Line `i` alone is a `resourcePacks:` line, and `list` is what follows. */
  predicate OnlyEntry(lines: seq<string>, i: nat, list: string) {
    && i < |lines| && Body(lines[i]) == "resourcePacks:" + list
    && forall j :: 0 <= j < |lines| && j != i ==> !("resourcePacks:" <= Body(lines[j]))
  }

  lemma {:induction false} EntryIff(lines: seq<string>, list: string)
    ensures Entries(lines) == [list] <==> exists i: nat :: OnlyEntry(lines, i, list)
    decreases |lines|
  {
    hide Body, Entries;
    if lines == [] {
      NothingEntered();
    } else {
      var rest := lines[1..];
      EntryIff(rest, list);
      NoEntryIff(rest);
      FirstEntryIs(lines);
      assert forall i :: 0 < i < |lines| ==> lines[i] == rest[i - 1];
      if ENTRY <= Body(lines[0]) {
        var own := Body(lines[0])[|ENTRY|..];
        assert Body(lines[0]) == ENTRY + own;
        assert (ENTRY + list)[|ENTRY|..] == list;
        assert Entries(lines) == [own] + Entries(rest);
        if Entries(lines) == [list] {
          assert Entries(lines)[0] == own && Entries(rest) == [];
          assert OnlyEntry(lines, 0, list);
        }
        if i: nat :| OnlyEntry(lines, i, list) {
          assert i == 0;
          forall j | 0 <= j < |rest| ensures !(ENTRY <= Body(rest[j])) { assert !(ENTRY <= Body(lines[j + 1])); }
        }
      } else {
        if i: nat :| OnlyEntry(rest, i, list) { assert OnlyEntry(lines, i + 1, list); }
        if i: nat :| OnlyEntry(lines, i, list) {
          assert i > 0;
          forall j | 0 <= j < |rest| && j != i - 1 ensures !(ENTRY <= Body(rest[j])) { assert !(ENTRY <= Body(lines[j + 1])); }
          assert OnlyEntry(rest, i - 1, list);
        }
      }
    }
  }

  lemma NothingEntered()
    ensures Entries([]) == []
  {
  }

  lemma FirstEntryIs(lines: seq<string>)
    requires lines != []
    ensures Entries(lines) == (if ENTRY <= Body(lines[0]) then [Body(lines[0])[|ENTRY|..]] else []) + Entries(lines[1..])
  {
    hide Body;
  }

  lemma {:induction false} NoEntryIff(lines: seq<string>)
    ensures Entries(lines) == [] <==> forall j :: 0 <= j < |lines| ==> !(ENTRY <= Body(lines[j]))
    decreases |lines|
  {
    hide Body;
    if lines != [] {
      var rest := lines[1..];
      NoEntryIff(rest);
      assert forall i :: 0 < i < |lines| ==> lines[i] == rest[i - 1];
      if forall j :: 0 <= j < |lines| ==> !(ENTRY <= Body(lines[j])) {
        forall j | 0 <= j < |rest| ensures !(ENTRY <= Body(rest[j])) { assert !(ENTRY <= Body(lines[j + 1])); }
      }
    }
  }

  /** What the lines of a file select: one line alone has the key, and behind it an
      array of strings that stands for a list within the limits. */
  ghost predicate Selects(lines: seq<string>, selected: seq<string>) {
    WithinLimits(selected) && exists i: nat, list :: OnlyEntry(lines, i, list) && Grammar.IsArray(list, selected)
  }

  /** A file is read as a selection exactly when its lines select that. */
  lemma ParsedIff(text: string, selected: seq<string>)
    ensures ParseOptions(text) == Success(selected) <==> NoBareCr(text) && Selects(SplitInclusive(text), selected)
  {
    hide NoBareCr, SplitInclusive, Entries, OnlyEntry, Json.ParseStringArray, Grammar.IsArray, Utf8Length;
    var lines := SplitInclusive(text);
    var entries := Entries(lines);
    WithinIff(selected);
    hide Storable, WithinLimits;
    if |entries| == 1 {
      assert entries == [entries[0]];
      EntryIff(lines, entries[0]);
      Grammar.ReadIff(entries[0], selected);
    }
    if i: nat, list :| OnlyEntry(lines, i, list) && Grammar.IsArray(list, selected) {
      EntryIff(lines, list);
      assert entries == [list];
    }
  }

  lemma WithinIff(vs: seq<string>)
    ensures Storable(vs) <==> WithinLimits(vs)
  {
    hide Utf8Length;
  }

  /** The unknown entries, one entry at a time. */
  lemma {:induction false} OpaqueNext(list: seq<string>, entry: string, available: seq<string>)
    ensures Opaque(list + [entry], available) == Opaque(list, available) + if entry in available then [] else [entry]
    decreases |list|
  {
    if list == [] {
      assert [] + [entry] == [entry] && [entry][1..] == [];
    } else {
      assert (list + [entry])[1..] == list[1..] + [entry];
      OpaqueNext(list[1..], entry, available);
    }
  }

  /** The guard refuses nothing that could be stored and would lose no unknown entry. */
  lemma ValidSelectionIff(selected: seq<string>, saved: seq<string>, available: seq<string>)
    requires Storable(saved)
    requires forall a :: a in available ==> Installed(a)
    ensures ValidSelection(selected, saved, available)
            <==> WithinLimits(selected) && Opaque(selected, available) == Opaque(saved, available)
  {
    WithinIff(selected);
    if ValidSelection(selected, saved, available) { ValidSelectionStorable(selected, saved, available); }
    hide Utf8Length, Opaque, Installed, WithinLimits;
  }
}
