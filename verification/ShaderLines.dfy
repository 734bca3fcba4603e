/** What the lines of a shader configuration say, told without the steps that read
    them, and that reading finds exactly this. */
module ShaderLines {
  import opened Results
  import opened PackErrors
  import opened TextLines
  import opened ShaderConfig

  predicate Blanks(s: string) { forall i :: 0 <= i < |s| ==> s[i] == ' ' || s[i] == '\t' || s[i] == 12 as char }

  predicate Breaks(s: string) { forall i :: 0 <= i < |s| ==> s[i] == '\r' || s[i] == '\n' }

  /** The text is not empty, has no blank before it and no line break behind it. */
  predicate Tight(l: string) { l != "" && !Blanks(l[..1]) && !Breaks(l[|l| - 1..]) }

  predicate Comment(l: string) { l != "" && (l[0] == '#' || l[0] == '!') }

  predicate Bare(key: string) {
    forall i :: 0 <= i < |key| ==> key[i] != '=' && key[i] != ':' && !Blanks(key[i..i + 1])
  }

  /** Between key and value: blanks, and `=` or `:` once at most. */
  ghost predicate Between(sep: string, value: string) {
    && (value == "" || !Blanks(value[..1]))
    && (sep == "" ==> value == "")
    && exists a, mark, b :: SeparatedBy(sep, value, a, mark, b)
  }

  predicate SeparatedBy(sep: string, value: string, a: string, mark: string, b: string) {
    && sep == a + mark + b && Blanks(a) && Blanks(b)
    && (mark == "=" || mark == ":" || (mark == "" && b == "" && (value == "" || (value[0] != '=' && value[0] != ':'))))
  }

  /** A line that gives `value` to `key`. */
  ghost predicate Gives(line: string, key: string, value: string) {
    exists front, sep, ending :: GivesAs(line, key, value, front, sep, ending)
  }

  ghost predicate GivesAs(line: string, key: string, value: string, front: string, sep: string, ending: string) {
    && line == front + (key + sep + value) + ending && Blanks(front) && Breaks(ending)
    && Tight(key + sep + value) && !Comment(key + sep + value)
    && IsAscii(key + sep + value) && '\\' !in key + sep + value
    && Bare(key) && Between(sep, value)
  }

  /** A blank line or a comment. */
  ghost predicate Silent(line: string) {
    exists front, l, ending :: SilentAs(line, front, l, ending)
  }

  predicate SilentAs(line: string, front: string, l: string, ending: string) {
    line == front + l + ending && Blanks(front) && Breaks(ending) && (l == "" || (Tight(l) && Comment(l)))
  }

  lemma {:induction false} TrimBlanks(front: string, l: string)
    requires Blanks(front) && (l == "" || !Blanks(l[..1]))
    ensures TrimStart(front + l) == l
    decreases |front|
  {
    if front == "" {
      assert front + l == l;
      if l != "" { assert l[..1] == [l[0]]; }
    } else {
      assert (front + l)[0] == front[0] && (front + l)[1..] == front[1..] + l;
      TrimBlanks(front[1..], l);
    }
  }

  /** What trimming leaves, and what it takes away. */
  lemma {:induction false} TrimStartSplits(s: string) returns (front: string)
    ensures s == front + TrimStart(s) && Blanks(front)
    ensures TrimStart(s) != "" ==> !Blanks(TrimStart(s)[..1])
    decreases |s|
  {
    front := "";
    if s != "" && IsBlank(s[0]) {
      var more := TrimStartSplits(s[1..]);
      front := s[..1] + more;
    } else if s != "" {
      assert s[..1][0] == s[0];
    }
  }

  lemma {:induction false} TrimBreaksSplits(s: string) returns (ending: string)
    ensures s == TrimBreaks(s) + ending && Breaks(ending)
    ensures TrimBreaks(s) != "" ==> !Breaks(TrimBreaks(s)[|TrimBreaks(s)| - 1..]) && TrimBreaks(s)[..1] == s[..1]
    decreases |s|
  {
    ending := "";
    if s != "" && IsBreak(s[|s| - 1]) {
      var more := TrimBreaksSplits(s[..|s| - 1]);
      ending := more + s[|s| - 1..];
    } else if s != "" {
      assert s[|s| - 1..][0] == s[|s| - 1];
    }
  }

  /** The text of a line, trimmed. */
  function Content(line: string): string { TrimBreaks(TrimStart(line)) }

  lemma ContentIs(line: string, front: string, l: string, ending: string)
    requires line == front + l + ending && Blanks(front) && Breaks(ending) && (l == "" || Tight(l))
    ensures Content(line) == l
  {
    var rest := l + ending;
    assert line == front + rest;
    if l != "" {
      assert rest[..1] == l[..1];
      assert rest != "" && !Blanks(rest[..1]);
    } else if ending != "" {
      assert rest[..1][0] == ending[0];
      assert !Blanks(rest[..1]);
    }
    TrimBlanks(front, rest);
    TrimBreaksAppend(l, ending);
    if l != "" { assert l[|l| - 1..] == [l[|l| - 1]]; }
  }

  lemma ContentSplits(line: string) returns (front: string, ending: string)
    ensures line == front + Content(line) + ending && Blanks(front) && Breaks(ending)
    ensures Content(line) != "" ==> Tight(Content(line))
  {
    hide TrimStart, TrimBreaks, Blanks, Breaks;
    front := TrimStartSplits(line);
    ending := TrimBreaksSplits(TrimStart(line));
    Regroup(front, Content(line), ending);
  }

  lemma Regroup(a: string, b: string, c: string)
    ensures a + (b + c) == a + b + c
  {
  }

  lemma SilentIff(line: string)
    ensures Property(line) == Success(None) <==> Silent(line)
  {
    hide TrimStart, TrimBreaks, Blanks, Breaks, IsAscii, FirstSeparator;
    var front, ending := ContentSplits(line);
    hide Tight;
    if Property(line) == Success(None) { assert SilentAs(line, front, Content(line), ending); }
    if f, l, e :| SilentAs(line, f, l, e) { ContentIs(line, f, l, e); }
  }

  /** Where the key ends. */
  lemma KeyEnds(key: string, rest: string)
    requires Bare(key)
    requires rest == "" || rest[0] == '=' || rest[0] == ':' || Blanks(rest[..1])
    ensures FirstSeparator(key + rest) == |key|
  {
    var l := key + rest;
    forall i | 0 <= i < |key| ensures !IsSeparator(l[i]) {
      assert l[i] == key[i] && key[i..i + 1] == [key[i]];
    }
    if rest != "" {
      assert l[|key|] == rest[0] && rest[..1] == [rest[0]];
      assert IsSeparator(l[|key|]);
    }
  }

  /** What follows the key: the value behind its separator. */
  function AfterKey(rest: string): string {
    var r := TrimStart(rest);
    TrimStart(if r != "" && (r[0] == '=' || r[0] == ':') then r[1..] else r)
  }

  lemma AfterKeyIs(sep: string, value: string, a: string, mark: string, b: string)
    requires SeparatedBy(sep, value, a, mark, b) && (value == "" || !Blanks(value[..1]))
    ensures AfterKey(sep + value) == value
  {
    if mark == "" {
      assert sep + value == a + value;
      TrimBlanks(a, value);
      TrimBlanks("", value);
      assert "" + value == value;
    } else {
      var r := mark + (b + value);
      assert sep + value == a + r;
      assert r[0] == mark[0] && r[..1] == [mark[0]] && r[1..] == b + value;
      TrimBlanks(a, r);
      TrimBlanks(b, value);
    }
  }

  lemma SeparatorStarts(sep: string, value: string)
    requires Between(sep, value)
    ensures var rest := sep + value; rest == "" || rest[0] == '=' || rest[0] == ':' || Blanks(rest[..1])
    ensures AfterKey(sep + value) == value
  {
    var a, mark, b :| SeparatedBy(sep, value, a, mark, b);
    AfterKeyIs(sep, value, a, mark, b);
    hide AfterKey;
    var rest := sep + value;
    if rest != "" {
      assert sep != "";
      assert rest[0] == sep[0];
      if a != "" { assert sep[0] == a[0] && rest[..1] == [a[0]]; }
      else if mark != "" { assert sep[0] == mark[0]; }
    }
  }

  lemma GivenIsRead(line: string, key: string, value: string, front: string, sep: string, ending: string)
    requires GivesAs(line, key, value, front, sep, ending)
    ensures Property(line) == Success(Some(Pair(key, value)))
  {
    var l := key + sep + value;
    ContentIs(line, front, l, ending);
    SeparatorStarts(sep, value);
    assert l == key + (sep + value);
    KeyEnds(key, sep + value);
    hide TrimStart, TrimBreaks, Blanks, Breaks, IsAscii, FirstSeparator, Between, Tight, Bare;
    assert l[..|key|] == key && l[|key|..] == sep + value;
  }

  lemma {:induction false} BareBefore(l: string, i: nat)
    requires i <= |l| && forall k :: 0 <= k < i ==> !IsSeparator(l[k])
    ensures Bare(l[..i])
  {
    forall k | 0 <= k < i ensures l[..i][k] == l[k] && !Blanks(l[..i][k..k + 1]) {
      assert l[..i][k..k + 1][0] == l[k];
    }
  }

  /** The separator that reading skips. */
  lemma AfterKeySplits(rest: string) returns (sep: string)
    requires rest == "" || IsSeparator(rest[0])
    ensures rest == sep + AfterKey(rest) && Between(sep, AfterKey(rest))
  {
    hide TrimStart, Blanks;
    var a := TrimStartSplits(rest);
    var r := TrimStart(rest);
    if r != "" && (r[0] == '=' || r[0] == ':') {
      var b := TrimStartSplits(r[1..]);
      sep := a + r[..1] + b;
      assert r == r[..1] + r[1..];
      assert r[..1] == [r[0]] && AfterKey(rest) == TrimStart(r[1..]);
      assert SeparatedBy(sep, AfterKey(rest), a, r[..1], b);
    } else {
      NoBlanks();
      TrimBlanks("", r);
      assert "" + r == r && AfterKey(rest) == r;
      sep := a;
      assert sep == a + "" + "";
      assert SeparatedBy(sep, AfterKey(rest), a, "", "");
      if sep == "" && rest != "" { BlankFirst(rest); }
    }
  }

  lemma NoBlanks()
    ensures Blanks("")
  {
  }

  lemma BlankFirst(rest: string)
    requires rest != "" && !Blanks(rest[..1]) && IsSeparator(rest[0])
    ensures rest[0] == '=' || rest[0] == ':'
  {
    assert rest[..1] == [rest[0]];
  }

  lemma ReadIsGiven(line: string, key: string, value: string)
    requires Property(line) == Success(Some(Pair(key, value)))
    ensures Gives(line, key, value)
  {
    var front, ending := ContentSplits(line);
    var l := Content(line);
    var i := FirstSeparator(l);
    BareBefore(l, i);
    var sep := AfterKeySplits(l[i..]);
    hide TrimStart, TrimBreaks, Blanks, Breaks, IsAscii, FirstSeparator, Between, Tight, Bare;
    assert key == l[..i] && value == AfterKey(l[i..]);
    assert l == key + sep + value;
    assert GivesAs(line, key, value, front, sep, ending);
  }

  /** What reading takes from a line is what the line gives. */
  lemma GivesIff(line: string, key: string, value: string)
    ensures Property(line) == Success(Some(Pair(key, value))) <==> Gives(line, key, value)
  {
    hide Property;
    if Property(line) == Success(Some(Pair(key, value))) { ReadIsGiven(line, key, value); }
    if f, s, e :| GivesAs(line, key, value, f, s, e) { GivenIsRead(line, key, value, f, s, e); }
  }

  ghost predicate NoneGives(lines: seq<string>, key: string) {
    forall i, v :: 0 <= i < |lines| ==> !Gives(lines[i], key, v)
  }

  /** Line `i` gives the key its value, and no other line gives it one. */
  ghost predicate OnlyGives(lines: seq<string>, key: string, value: string, i: nat) {
    && i < |lines| && Gives(lines[i], key, value)
    && forall j, v :: 0 <= j < |lines| && j != i ==> !Gives(lines[j], key, v)
  }

  ghost predicate Alone(lines: seq<string>, key: string, value: string) { exists i: nat :: OnlyGives(lines, key, value, i) }

  ghost predicate Legible(line: string) { Silent(line) || exists k, v :: Gives(line, k, v) }

  lemma LegibleIff(line: string)
    ensures Property(line).Success? <==> Legible(line)
  {
    hide Property, Gives;
    SilentIff(line);
    hide Silent;
    var p := Property(line);
    if p.Success? && p.value.Some? { GivesIff(line, p.value.value.key, p.value.value.value); }
    if k, v :| Gives(line, k, v) { GivesIff(line, k, v); }
  }

  lemma HasKeyIff(line: string, key: string)
    ensures forall v :: Gives(line, key, v) <==> HasKey(line, key) && ValueOf(line) == v
  {
    hide Gives;
    forall v ensures Gives(line, key, v) <==> HasKey(line, key) && ValueOf(line) == v { GivesIff(line, key, v); }
    hide Property;
  }

  lemma FirstGives(lines: seq<string>, key: string)
    requires lines != []
    ensures NoneGives(lines, key) <==> !HasKey(lines[0], key) && NoneGives(lines[1..], key)
    ensures forall value ::
      Alone(lines, key, value)
      <==> if HasKey(lines[0], key) then value == ValueOf(lines[0]) && NoneGives(lines[1..], key) else Alone(lines[1..], key, value)
  {
    HasKeyIff(lines[0], key);
    FirstGivesNone(lines, key);
    forall value
      ensures Alone(lines, key, value)
              <==> if HasKey(lines[0], key) then value == ValueOf(lines[0]) && NoneGives(lines[1..], key) else Alone(lines[1..], key, value)
    {
      FirstGivesOne(lines, key, value);
    }
  }

  lemma FirstGivesNone(lines: seq<string>, key: string)
    requires lines != []
    ensures NoneGives(lines, key) <==> (forall v :: !Gives(lines[0], key, v)) && NoneGives(lines[1..], key)
    ensures HasKey(lines[0], key) <==> exists v :: Gives(lines[0], key, v)
  {
    HasKeyIff(lines[0], key);
    hide Gives, HasKey, ValueOf;
    var rest := lines[1..];
    assert forall i :: 0 < i < |lines| ==> lines[i] == rest[i - 1];
    if NoneGives(lines, key) {
      forall i, v | 0 <= i < |rest| ensures !Gives(rest[i], key, v) { assert !Gives(lines[i + 1], key, v); }
    }
    if HasKey(lines[0], key) { assert Gives(lines[0], key, ValueOf(lines[0])); }
  }

  lemma FirstGivesOne(lines: seq<string>, key: string, value: string)
    requires lines != []
    ensures Alone(lines, key, value)
            <==> if HasKey(lines[0], key) then value == ValueOf(lines[0]) && NoneGives(lines[1..], key) else Alone(lines[1..], key, value)
  {
    HasKeyIff(lines[0], key);
    hide Gives, HasKey, ValueOf;
    var rest := lines[1..];
    assert forall i :: 0 < i < |lines| ==> lines[i] == rest[i - 1];
    if HasKey(lines[0], key) {
      assert Gives(lines[0], key, ValueOf(lines[0]));
      if value == ValueOf(lines[0]) && NoneGives(rest, key) { assert OnlyGives(lines, key, value, 0); }
      if i: nat :| OnlyGives(lines, key, value, i) {
        assert i == 0;
        forall j, v | 0 <= j < |rest| ensures !Gives(rest[j], key, v) { assert !Gives(lines[j + 1], key, v); }
      }
    } else {
      if i: nat :| OnlyGives(rest, key, value, i) { assert OnlyGives(lines, key, value, i + 1); }
      if i: nat :| OnlyGives(lines, key, value, i) {
        assert i > 0;
        forall j, v | 0 <= j < |rest| && j != i - 1 ensures !Gives(rest[j], key, v) { assert !Gives(lines[j + 1], key, v); }
        assert OnlyGives(rest, key, value, i - 1);
      }
    }
  }

  lemma {:induction false} ValuesSay(lines: seq<string>, key: string)
    ensures Values(lines, key) == [] <==> NoneGives(lines, key)
    ensures forall value :: Values(lines, key) == [value] <==> Alone(lines, key, value)
    decreases |lines|
  {
    hide Gives, HasKey, ValueOf;
    if lines != [] {
      ValuesSay(lines[1..], key);
      FirstGives(lines, key);
      hide NoneGives, Alone;
    }
  }

  /** What the lines of a file say: every line is legible, one line alone switches
      shaders on or off, and at most one names a pack, where nothing and `(internal)`
      are no pack. */
  ghost predicate Says(lines: seq<string>, s: Setting) {
    && (forall i :: 0 <= i < |lines| ==> Legible(lines[i]))
    && Alone(lines, "enableShaders", if s.enabled then "true" else "false")
    && match s.pack
       case Some(name) => name != "" && name != "(internal)" && Alone(lines, "shaderPack", name)
       case None => NoneGives(lines, "shaderPack") || Alone(lines, "shaderPack", "") || Alone(lines, "shaderPack", "(internal)")
  }

  /** A file is read as a setting exactly when its lines say that setting. */
  lemma ParsedIff(text: string, s: Setting)
    ensures ParseShader(text) == Success(s) <==> NoBareCr(text) && Says(SplitInclusive(text), s)
  {
    hide *;
    var lines := SplitInclusive(text);
    forall i | 0 <= i < |lines| ensures Property(lines[i]).Success? <==> Legible(lines[i]) { LegibleIff(lines[i]); }
    ValuesSay(lines, PACK_KEY);
    ValuesSay(lines, ENABLE_KEY);
    FlagsDiffer();
    ParsedFrom(text, lines, Values(lines, PACK_KEY), Values(lines, ENABLE_KEY), s);
  }

  lemma ParsedFrom(text: string, lines: seq<string>, packs: seq<string>, flags: seq<string>, s: Setting)
    requires lines == SplitInclusive(text) && packs == Values(lines, PACK_KEY) && flags == Values(lines, ENABLE_KEY)
    requires forall i :: 0 <= i < |lines| ==> (Property(lines[i]).Success? <==> Legible(lines[i]))
    requires packs == [] <==> NoneGives(lines, PACK_KEY)
    requires forall value :: packs == [value] <==> Alone(lines, PACK_KEY, value)
    requires forall value :: flags == [value] <==> Alone(lines, ENABLE_KEY, value)
    requires "true" != "false"
    ensures ParseShader(text) == Success(s) <==> NoBareCr(text) && Says(lines, s)
  {
    hide SplitInclusive, Property, Legible, NoBareCr, NoneGives, Alone, Values;
    assert |packs| == 1 ==> packs == [packs[0]];
    assert |flags| == 1 ==> flags == [flags[0]];
  }

  lemma FlagsDiffer()
    ensures "true" != "false"
  {
    assert "true"[0] != "false"[0];
  }

  // ----- what a write does to the lines -----

  ghost predicate GivesSome(line: string, key: string) { exists value :: Gives(line, key, value) }

  /** What becomes of one line: the two settings are written in its place, with its own
      terminator, and any other line stays. */
  ghost predicate BecomesRight(line: string, after: string, s: Setting) {
    && (GivesSome(line, "shaderPack") ==> after == "shaderPack=" + (if s.pack.Some? then s.pack.value else "") + Ending(line))
    && (GivesSome(line, "enableShaders") ==> after == "enableShaders=" + (if s.enabled then "true" else "false") + Ending(line))
    && (!GivesSome(line, "shaderPack") && !GivesSome(line, "enableShaders") ==> after == line)
  }

  lemma SomeIff(line: string, key: string)
    ensures GivesSome(line, key) <==> HasKey(line, key)
  {
    HasKeyIff(line, key);
    hide Gives, HasKey;
    if HasKey(line, key) { assert Gives(line, key, ValueOf(line)); }
  }

  lemma RewriteBecomes(line: string, s: Setting)
    ensures BecomesRight(line, Rewrite(line, s), s)
  {
    SomeIff(line, "shaderPack");
    SomeIff(line, "enableShaders");
    BothKeys(line);
    hide GivesSome, HasKey, Ending;
  }

  lemma BothKeys(line: string)
    ensures !(HasKey(line, PACK_KEY) && HasKey(line, ENABLE_KEY))
  {
    KeysDiffer();
    hide Property;
  }

  /** Line by line, what a write makes of the pieces of a file; a pack for which they
      have no line gets one at the end, on a line of its own. */
  ghost predicate Becomes(before: seq<string>, after: seq<string>, s: Setting, eol: string) {
    if s.pack.Some? && NoneGives(before, "shaderPack")
    then
      && |after| == |before| + 1 && after[|before|] == "shaderPack=" + s.pack.value + eol
      && forall i :: 0 <= i < |before| ==> ClosedRight(before[i], after[i], s, if Terminated(before[i]) then "" else eol)
    else |after| == |before| && forall i :: 0 <= i < |before| ==> BecomesRight(before[i], after[i], s)
  }

  ghost predicate ClosedRight(line: string, after: string, s: Setting, end: string) {
    exists written :: BecomesRight(line, written, s) && after == written + end
  }

  lemma PiecesBecome(before: seq<string>, s: Setting, eol: string)
    requires WellSplit(before) && OneLine(s.pack)
    ensures Becomes(before, NewPieces(before, s, eol), s, eol)
  {
    hide Values, BecomesRight, NoneGives, Rewrite, Terminated, IsLine;
    ValuesSay(before, PACK_KEY);
    var r := RewriteAll(before, s);
    forall i | 0 <= i < |before| ensures BecomesRight(before[i], r[i], s) { RewriteBecomes(before[i], s); }
    if Appends(before, s) {
      var after := NewPieces(before, s, eol);
      PackLineIs(s.pack.value, eol);
      hide PackLine;
      forall i | 0 <= i < |before| ensures ClosedRight(before[i], after[i], s, if Terminated(before[i]) then "" else eol) {
        RewrittenLine(before[i], s);
        assert r[i] + "" == r[i];
        assert after[i] == Close(r, eol)[i];
      }
    }
  }

  lemma PackLineIs(name: string, eol: string)
    ensures PackLine(name, eol) == "shaderPack=" + name + eol
  {
  }

  /** A write makes this of a file, and ends what it adds like the file's own lines:
      with `\r\n` when it has that line break, and with `\n` otherwise. */
  lemma WrittenExactly(text: string, s: Setting)
    requires ParseShader(text).Success? && OneLine(s.pack)
    ensures var eol := if exists i :: 0 <= i < |text| - 1 && text[i] == '\r' && text[i + 1] == '\n' then "\r\n" else "\n";
      Becomes(SplitInclusive(text), SplitInclusive(ReplaceShader(text, s).value), s, eol)
  {
    hide ParseShader, ReplaceShader, SplitInclusive, Becomes, NewPieces, WellSplit, NoBareCr;
    ReplacedPieces(text, s);
    JoinSplit(text);
    PiecesBecome(SplitInclusive(text), s, LineBreak(text));
  }
}
