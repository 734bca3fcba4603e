/** The two shader settings in a runtime's properties file: reading them, and
    rewriting them without touching any other line. */
module ShaderConfig {
  import opened Results
  import opened PackErrors
  import opened TextLines
  import Names = PackOptions

  datatype Pair = Pair(key: string, value: string)
  datatype Setting = Setting(pack: Option<string>, enabled: bool)

  const PACK_KEY := "shaderPack"
  const ENABLE_KEY := "enableShaders"

  // ----- one line -----

  predicate IsBlank(c: char) { c == ' ' || c == '\t' || c == 12 as char }
  predicate IsBreak(c: char) { c == '\r' || c == '\n' }
  predicate IsSeparator(c: char) { c == '=' || c == ':' || IsBlank(c) }

  predicate IsAscii(s: string) { forall i :: 0 <= i < |s| ==> s[i] < 128 as char }

  function TrimStart(s: string): string {
    if s != [] && IsBlank(s[0]) then TrimStart(s[1..]) else s
  }

  function TrimBreaks(s: string): string {
    if s != [] && IsBreak(s[|s| - 1]) then TrimBreaks(s[..|s| - 1]) else s
  }

  function FirstSeparator(s: string): (i: nat)
    ensures i <= |s|
    ensures i < |s| ==> IsSeparator(s[i])
    ensures forall k :: 0 <= k < i ==> !IsSeparator(s[k])
  {
    if s == [] || IsSeparator(s[0]) then 0 else 1 + FirstSeparator(s[1..])
  }

  /** The key and value on a line, nothing for blank and comment lines, and a
      failure for the escapes and encodings the editor does not interpret. */
  function Property(line: string): PackResult<Option<Pair>> {
    var l := TrimBreaks(TrimStart(line));
    if l == "" || l[0] == '#' || l[0] == '!' then Success(None)
    else if !IsAscii(l) || '\\' in l then Failure(Format)
    else
      var i := FirstSeparator(l);
      var rest := TrimStart(l[i..]);
      var value := if rest != "" && (rest[0] == '=' || rest[0] == ':') then rest[1..] else rest;
      Success(Some(Pair(l[..i], TrimStart(value))))
  }

  predicate HasKey(line: string, key: string) {
    var p := Property(line);
    p.Success? && p.value.Some? && p.value.value.key == key
  }

  function ValueOf(line: string): string {
    var p := Property(line);
    if p.Success? && p.value.Some? then p.value.value.value else ""
  }

  // ----- whole files -----

  /** The values given to a key, in file order. */
  function Values(lines: seq<string>, key: string): seq<string> {
    if lines == [] then []
    else (if HasKey(lines[0], key) then [ValueOf(lines[0])] else []) + Values(lines[1..], key)
  }

  predicate AllReadable(lines: seq<string>) {
    forall i :: 0 <= i < |lines| ==> Property(lines[i]).Success?
  }

  function PackOf(value: string): Option<string> {
    if value == "" || value == "(internal)" then None else Some(value)
  }

  /** A file is accepted when every line is readable, `shaderPack` occurs at most
      once and `enableShaders` exactly once with a boolean. */
  function ParseShader(text: string): PackResult<Setting> {
    var lines := SplitInclusive(text);
    var packs, flags := Values(lines, PACK_KEY), Values(lines, ENABLE_KEY);
    if NoBareCr(text) && AllReadable(lines) && |packs| <= 1 && |flags| == 1 && (flags[0] == "true" || flags[0] == "false")
    then Success(Setting(if packs == [] then None else PackOf(packs[0]), flags[0] == "true"))
    else Failure(Format)
  }

  function Text(pack: Option<string>): string { if pack.Some? then pack.value else "" }
  function Flag(enabled: bool): string { if enabled then "true" else "false" }

  function Assignment(key: string, value: string, ending: string): string { key + "=" + value + ending }

  function PackLine(pack: string, ending: string): string { Assignment(PACK_KEY, pack, ending) }

  function Rewrite(line: string, s: Setting): string {
    if HasKey(line, PACK_KEY) then PackLine(Text(s.pack), Ending(line))
    else if HasKey(line, ENABLE_KEY) then Assignment(ENABLE_KEY, Flag(s.enabled), Ending(line))
    else line
  }

  function RewriteAll(lines: seq<string>, s: Setting): (out: seq<string>)
    ensures |out| == |lines|
    ensures forall i :: 0 <= i < |lines| ==> out[i] == Rewrite(lines[i], s)
  {
    if lines == [] then [] else [Rewrite(lines[0], s)] + RewriteAll(lines[1..], s)
  }

  predicate HasCrLf(text: string) {
    exists i :: 0 <= i < |text| - 1 && text[i] == '\r' && text[i + 1] == '\n'
  }

  function LineBreak(text: string): (e: string)
    ensures e == "\r\n" || e == "\n"
  {
    if HasCrLf(text) then "\r\n" else "\n"
  }

  /** The line appended when a pack is chosen and the file has no `shaderPack` line. */
  function Appended(body: string, line: string, eol: string): string {
    (if body != "" && !Terminated(body) then eol else "") + line
  }

  function ReplaceShader(text: string, s: Setting): PackResult<string> {
    if ParseShader(text).Failure? then Failure(Format)
    else
      var lines := SplitInclusive(text);
      var body := Join(RewriteAll(lines, s));
      if s.pack.Some? && Values(lines, PACK_KEY) == []
      then Success(body + Appended(body, PackLine(s.pack.value, LineBreak(text)), LineBreak(text)))
      else Success(body)
  }

  // ----- the loops of the source -----

  lemma {:induction false} TrimBreaksAppend(s: string, e: string)
    requires forall i :: 0 <= i < |e| ==> IsBreak(e[i])
    ensures TrimBreaks(s + e) == TrimBreaks(s)
  {
    if e == "" {
      assert s + e == s;
    } else {
      assert (s + e)[..|s + e| - 1] == s + e[..|e| - 1];
      TrimBreaksAppend(s, e[..|e| - 1]);
    }
  }

  lemma {:induction false} TrimStartAppend(s: string, e: string)
    requires e == "" || !IsBlank(e[0])
    ensures TrimStart(s + e) == TrimStart(s) + e
  {
    if s == "" {
      assert s + e == e;
    } else {
      assert (s + e)[1..] == s[1..] + e;
      TrimStartAppend(s[1..], e);
    }
  }

  /** A terminator does not change what a line says. */
  lemma PropertyIgnoresEnding(s: string, e: string)
    requires e == "" || e == "\n" || e == "\r\n"
    ensures Property(s + e) == Property(s)
  {
    TrimStartAppend(s, e);
    TrimBreaksAppend(TrimStart(s), e);
  }

  lemma PropertyOfBody(line: string)
    ensures Property(Body(line)) == Property(line)
  {
    BodyEnding(line);
    PropertyIgnoresEnding(Body(line), Ending(line));
  }

  lemma {:induction false} ValuesAppend(a: seq<string>, b: seq<string>, key: string)
    ensures Values(a + b, key) == Values(a, key) + Values(b, key)
  {
    if a == [] {
      assert a + b == b;
    } else {
      ValuesAppend(a[1..], b, key);
      assert (a + b)[1..] == a[1..] + b;
    }
  }

  lemma ValuesNext(lines: seq<string>, i: nat, key: string)
    requires i < |lines|
    ensures Values(lines[..i + 1], key) == Values(lines[..i], key) + (if HasKey(lines[i], key) then [ValueOf(lines[i])] else [])
    ensures Values(lines[..i + 1], key) <= Values(lines, key)
  {
    assert lines[..i + 1] == lines[..i] + [lines[i]];
    ValuesAppend(lines[..i], [lines[i]], key);
    assert lines == lines[..i + 1] + lines[i + 1..];
    ValuesAppend(lines[..i + 1], lines[i + 1..], key);
  }

  method Parse(text: string) returns (r: PackResult<Setting>)
    ensures r == ParseShader(text)
  {
    hide Property, NoBareCr, SplitInclusive, Body;
    if !NoBareCr(text) {
      return Failure(Format);
    }
    var lines := SplitInclusive(text);
    var pack: Option<string> := None;
    var packSeen := false;
    var enabled: Option<bool> := None;
    for i := 0 to |lines|
      invariant AllReadable(lines[..i])
      invariant if packSeen then |Values(lines[..i], PACK_KEY)| == 1 && pack == PackOf(Values(lines[..i], PACK_KEY)[0])
                else Values(lines[..i], PACK_KEY) == [] && pack == None
      invariant if enabled.Some? then Values(lines[..i], ENABLE_KEY) == [Flag(enabled.value)]
                else Values(lines[..i], ENABLE_KEY) == []
    {
      PropertyOfBody(lines[i]);
      ValuesNext(lines, i, PACK_KEY);
      ValuesNext(lines, i, ENABLE_KEY);
      var property := Property(Body(lines[i]));
      if property.Failure? {
        return Failure(Format);
      }
      if property.value.Some? && property.value.value.key == PACK_KEY {
        if packSeen {
          return Failure(Format);
        }
        packSeen := true;
        var value := property.value.value.value;
        if value != "" && value != "(internal)" {
          pack := Some(value);
        }
      } else if property.value.Some? && property.value.value.key == ENABLE_KEY {
        var value := property.value.value.value;
        if enabled.Some? || (value != "true" && value != "false") {
          return Failure(Format);
        }
        enabled := Some(value == "true");
      }
    }
    assert lines[..|lines|] == lines;
    if enabled.None? {
      return Failure(Format);
    }
    return Success(Setting(pack, enabled.value));
  }

  method Replace(text: string, s: Setting) returns (r: PackResult<string>)
    ensures r == ReplaceShader(text, s)
  {
    hide ParseShader, SplitInclusive, RewriteAll, Values, LineBreak, PackLine, Join, Terminated;
    var parsed := Parse(text);
    if parsed.Failure? {
      return Failure(Format);
    }
    var output, packWritten := RewriteLines(text, s);
    if !packWritten && s.pack.Some? {
      var ending := LineBreak(text);
      ghost var body := output;
      if output != "" && !Terminated(output) {
        output := output + ending;
      }
      var line := PackLine(s.pack.value, ending);
      output := output + line;
      assert output == body + Appended(body, line, ending);
    }
    return Success(output);
  }

  method RewriteLines(text: string, s: Setting) returns (output: string, packWritten: bool)
    requires ParseShader(text).Success?
    ensures output == Join(RewriteAll(SplitInclusive(text), s))
    ensures packWritten <==> Values(SplitInclusive(text), PACK_KEY) != []
  {
    var lines := SplitInclusive(text);
    ghost var out := RewriteAll(lines, s);
    output, packWritten := "", false;
    for i := 0 to |lines|
      invariant output == Join(out[..i])
      invariant packWritten <==> Values(lines[..i], PACK_KEY) != []
    {
      var line := lines[i];
      var ending := if |line| >= 2 && line[|line| - 2..] == "\r\n" then "\r\n"
                    else if |line| >= 1 && line[|line| - 1] == '\n' then "\n" else "";
      assert ending == Ending(line);
      assert Property(line).Success?;
      ghost var done := output;
      if HasKey(line, PACK_KEY) {
        packWritten := true;
        output := output + PackLine(Text(s.pack), ending);
      } else if HasKey(line, ENABLE_KEY) {
        output := output + Assignment(ENABLE_KEY, Flag(s.enabled), ending);
      } else {
        output := output + line;
      }
      assert output == done + out[i];
      JoinNext(out, i);
      ValuesNext(lines, i, PACK_KEY);
    }
    assert out[..|lines|] == out;
    assert lines[..|lines|] == lines;
  }

  // ----- what a rewritten line says -----

  /** Pack names that fit on one line. */
  predicate OneLine(pack: Option<string>) {
    pack.Some? ==> forall i :: 0 <= i < |pack.value| ==> !IsBreak(pack.value[i])
  }

  /** Pack names a properties line gives back unchanged. */
  predicate Readable(pack: string) {
    && pack != "" && pack != "(internal)"
    && IsAscii(pack) && '\\' !in pack && !IsBlank(pack[0])
  }

  predicate KeyLike(key: string) {
    && key != "" && IsAscii(key) && '\\' !in key && key[0] != '#' && key[0] != '!'
    && forall i :: 0 <= i < |key| ==> !IsSeparator(key[i]) && !IsBreak(key[i])
  }

  lemma AsciiAppend(a: string, b: string)
    ensures IsAscii(a + b) <==> IsAscii(a) && IsAscii(b)
    ensures '\\' in a + b <==> '\\' in a || '\\' in b
  {
    if IsAscii(a + b) {
      forall i | 0 <= i < |a| ensures a[i] < 128 as char { assert (a + b)[i] == a[i]; }
      forall i | 0 <= i < |b| ensures b[i] < 128 as char { assert (a + b)[|a| + i] == b[i]; }
    }
  }

  lemma SeparatorAfterKey(key: string, value: string)
    requires KeyLike(key)
    ensures FirstSeparator(key + "=" + value) == |key|
  {
    var l := key + "=" + value;
    assert l[|key|] == '=';
    assert forall i :: 0 <= i < |key| ==> l[i] == key[i];
  }

  lemma AssignmentTrimmed(key: string, value: string)
    requires KeyLike(key)
    requires forall i :: 0 <= i < |value| ==> !IsBreak(value[i])
    ensures var l := key + "=" + value; l[0] == key[0] && TrimBreaks(TrimStart(l)) == l
  {
    var l := key + "=" + value;
    assert l[0] == key[0];
    assert TrimStart(l) == l;
    assert l[|l| - 1] == if value == "" then '=' else value[|value| - 1];
  }

  lemma AssignmentAscii(key: string, value: string)
    requires KeyLike(key)
    ensures var l := key + "=" + value;
      (IsAscii(l) <==> IsAscii(value)) && ('\\' in l <==> '\\' in value)
  {
    AsciiEquals();
    hide IsAscii;
    AsciiAppend(key + "=", value);
    AsciiAppend(key, "=");
  }

  /** `key=value` is read as that key with the value's leading blanks removed. */
  lemma AssignmentProperty(key: string, value: string)
    requires KeyLike(key)
    requires forall i :: 0 <= i < |value| ==> !IsBreak(value[i])
    ensures Property(key + "=" + value)
         == if IsAscii(value) && '\\' !in value then Success(Some(Pair(key, TrimStart(value)))) else Failure(Format)
  {
    var l, i := key + "=" + value, |key|;
    AssignmentTrimmed(key, value);
    AssignmentAscii(key, value);
    SeparatorAfterKey(key, value);
    EqualsFirst(value);
    hide IsAscii, FirstSeparator, TrimBreaks, TrimStart;
    assert l[..i] == key;
    assert l[i..] == "=" + value;
  }

  lemma EqualsFirst(value: string)
    ensures TrimStart("=" + value) == "=" + value && ("=" + value)[1..] == value
  {
  }

  lemma AsciiEquals()
    ensures IsAscii("=")
  {
  }

  lemma KeysAreKeyLike()
    ensures KeyLike(PACK_KEY) && KeyLike(ENABLE_KEY)
  {
  }

  lemma {:induction false} TrimStartNoLonger(s: string)
    ensures |TrimStart(s)| <= |s|
    ensures TrimStart(s) == s <==> s == "" || !IsBlank(s[0])
  {
    if s != "" && IsBlank(s[0]) { TrimStartNoLonger(s[1..]); }
  }

  /** A written setting line, terminator included. */
  lemma WrittenLine(key: string, value: string, ending: string)
    requires KeyLike(key)
    requires forall i :: 0 <= i < |value| ==> !IsBreak(value[i])
    requires ending == "" || ending == "\n" || ending == "\r\n"
    ensures var out := Assignment(key, value, ending);
      && IsLine(out) && Ending(out) == ending && (Terminated(out) <==> ending != "")
      && NoBareCr(out)
      && Property(out) == Property(key + "=" + value)
  {
    var head := key + "=" + value;
    var out := head + ending;
    assert head[|head| - 1] == if value == "" then '=' else value[|value| - 1];
    assert forall i :: 0 <= i < |head| ==> !IsBreak(head[i]) by {
      forall i | 0 <= i < |head| ensures !IsBreak(head[i]) {
        if i < |key| { assert head[i] == key[i]; }
        else if i > |key| { assert head[i] == value[i - |key| - 1]; }
      }
    }
    assert forall k :: 0 <= k < |head| ==> out[k] == head[k];
    assert Ending(out) == ending by {
      if ending == "\n" { assert out[|out| - 2] == head[|head| - 1]; }
      else if ending == "" { assert out == head; }
      else { assert out[|out| - 2..] == ending; }
    }
    NoBareCrAppend(head, ending);
    PropertyIgnoresEnding(head, ending);
  }

  lemma RewrittenLine(line: string, s: Setting)
    requires IsLine(line) && OneLine(s.pack)
    ensures var out := Rewrite(line, s);
      && IsLine(out) && Ending(out) == Ending(line) && (Terminated(out) <==> Terminated(line))
      && (NoBareCr(line) ==> NoBareCr(out))
      && (HasKey(line, PACK_KEY) ==> Property(out) == Property(PACK_KEY + "=" + Text(s.pack)))
      && (HasKey(line, ENABLE_KEY) ==> HasKey(out, ENABLE_KEY) && ValueOf(out) == Flag(s.enabled))
      && (!HasKey(line, PACK_KEY) && !HasKey(line, ENABLE_KEY) ==> out == line)
  {
    hide Property, IsLine, Ending, NoBareCr;
    KeysAreKeyLike();
    if HasKey(line, PACK_KEY) {
      WrittenLine(PACK_KEY, Text(s.pack), Ending(line));
    } else if HasKey(line, ENABLE_KEY) {
      WrittenLine(ENABLE_KEY, Flag(s.enabled), Ending(line));
      AssignmentProperty(ENABLE_KEY, Flag(s.enabled));
    }
  }

  /** What a file says about the pack once its `shaderPack` lines are rewritten. */
  ghost predicate SaysPack(pack: Option<string>) {
    var t := Text(pack);
    IsAscii(t) && '\\' !in t
  }

  lemma RewrittenSays(line: string, s: Setting)
    requires IsLine(line) && Property(line).Success?
    requires OneLine(s.pack) && SaysPack(s.pack)
    ensures var out := Rewrite(line, s);
      && Property(out).Success?
      && (HasKey(out, PACK_KEY) <==> HasKey(line, PACK_KEY))
      && (HasKey(out, ENABLE_KEY) <==> HasKey(line, ENABLE_KEY))
      && (HasKey(line, PACK_KEY) ==> ValueOf(out) == TrimStart(Text(s.pack)))
      && (HasKey(line, ENABLE_KEY) ==> ValueOf(out) == Flag(s.enabled))
  {
    hide Property, IsLine, Ending, NoBareCr, Rewrite, IsAscii;
    KeysAreKeyLike();
    RewrittenLine(line, s);
    AssignmentProperty(PACK_KEY, Text(s.pack));
  }

  lemma {:induction false} RewrittenValues(lines: seq<string>, s: Setting)
    requires forall i :: 0 <= i < |lines| ==> IsLine(lines[i])
    requires OneLine(s.pack) && SaysPack(s.pack)
    requires AllReadable(lines)
    ensures var out := RewriteAll(lines, s);
      && AllReadable(out)
      && |Values(out, PACK_KEY)| == |Values(lines, PACK_KEY)|
      && |Values(out, ENABLE_KEY)| == |Values(lines, ENABLE_KEY)|
      && (forall v :: v in Values(out, PACK_KEY) ==> v == TrimStart(Text(s.pack)))
      && (forall v :: v in Values(out, ENABLE_KEY) ==> v == Flag(s.enabled))
  {
    hide Property, IsLine, Rewrite, HasKey, ValueOf, SaysPack, OneLine, TrimStart;
    if lines != [] {
      RewrittenSays(lines[0], s);
      RewrittenValues(lines[1..], s);
      assert RewriteAll(lines, s)[1..] == RewriteAll(lines[1..], s);
    }
  }

  lemma RewrittenWellSplit(lines: seq<string>, s: Setting)
    requires WellSplit(lines) && OneLine(s.pack)
    ensures WellSplit(RewriteAll(lines, s))
    ensures (forall i :: 0 <= i < |lines| ==> NoBareCr(lines[i])) ==>
            forall i :: 0 <= i < |lines| ==> NoBareCr(RewriteAll(lines, s)[i])
  {
    forall i | 0 <= i < |lines|
      ensures IsLine(Rewrite(lines[i], s)) && (Terminated(lines[i]) ==> Terminated(Rewrite(lines[i], s)))
      ensures NoBareCr(lines[i]) ==> NoBareCr(Rewrite(lines[i], s))
    {
      RewrittenLine(lines[i], s);
    }
  }

  // ----- the pieces of the new file -----

  /** An unterminated last piece gets a terminator. */
  function Close(lines: seq<string>, eol: string): (out: seq<string>)
    ensures |out| == |lines|
    ensures forall i :: 0 <= i < |lines| ==>
              out[i] == if i == |lines| - 1 && !Terminated(lines[i]) then lines[i] + eol else lines[i]
  {
    if lines != [] && !Terminated(lines[|lines| - 1])
    then lines[..|lines| - 1] + [lines[|lines| - 1] + eol]
    else lines
  }

  predicate Appends(lines: seq<string>, s: Setting) {
    s.pack.Some? && Values(lines, PACK_KEY) == []
  }

  function NewPieces(lines: seq<string>, s: Setting, eol: string): seq<string> {
    if Appends(lines, s)
    then Close(RewriteAll(lines, s), eol) + [PackLine(s.pack.value, eol)]
    else RewriteAll(lines, s)
  }

  lemma {:induction false} JoinLast(lines: seq<string>)
    requires lines != [] && WellSplit(lines)
    ensures Join(lines) == Join(lines[..|lines| - 1]) + lines[|lines| - 1]
    ensures Join(lines) != "" && (Terminated(Join(lines)) <==> Terminated(lines[|lines| - 1]))
  {
    JoinNext(lines, |lines| - 1);
    assert lines[..|lines|] == lines;
  }

  lemma ClosedLine(line: string, eol: string)
    requires IsLine(line) && NoBareCr(line) && !Terminated(line)
    requires eol == "\n" || eol == "\r\n"
    ensures IsLine(line + eol) && Terminated(line + eol) && NoBareCr(line + eol)
  {
    assert forall k :: 0 <= k < |line| ==> (line + eol)[k] == line[k];
    CloseNoBareCr(line, eol);
  }

  lemma ClosedPieces(lines: seq<string>, eol: string)
    requires WellSplit(lines) && forall i :: 0 <= i < |lines| ==> NoBareCr(lines[i])
    requires eol == "\n" || eol == "\r\n"
    ensures var out := Close(lines, eol);
      && WellSplit(out) && (forall i :: 0 <= i < |out| ==> Terminated(out[i]) && NoBareCr(out[i]))
      && Join(out) == Join(lines) + (if Join(lines) != "" && !Terminated(Join(lines)) then eol else "")
  {
    hide IsLine, Terminated, NoBareCr, Join;
    if lines == [] {
      EmptyJoin();
    } else {
      var n := |lines| - 1;
      var out := Close(lines, eol);
      JoinLast(lines);
      if !Terminated(lines[n]) {
        var last := lines[n] + eol;
        ClosedLine(lines[n], eol);
        assert out == lines[..n] + [last];
        JoinSnoc(lines[..n], last);
        assert Join(lines[..n]) + last == Join(lines[..n]) + lines[n] + eol;
      }
    }
  }

  lemma EmptyJoin()
    ensures Join([]) == ""
  {
  }

  lemma CloseNoBareCr(line: string, eol: string)
    requires NoBareCr(line) && (eol == "\n" || eol == "\r\n")
    ensures NoBareCr(line + eol)
  {
    if line != "" {
      assert line[|line| - 1] != '\r';
    }
    NoBareCrAppend(line, eol);
  }

  lemma AppendedPieces(r: seq<string>, last: string, eol: string)
    requires WellSplit(r) && forall i :: 0 <= i < |r| ==> NoBareCr(r[i])
    requires eol == "\n" || eol == "\r\n"
    requires IsLine(last)
    ensures var out := Close(r, eol) + [last];
      && WellSplit(out)
      && Join(out) == Join(r) + Appended(Join(r), last, eol)
  {
    hide IsLine, Terminated, NoBareCr, Join, Close;
    ClosedPieces(r, eol);
    WellSplitSnoc(Close(r, eol), last);
    JoinSnoc(Close(r, eol), last);
    Regroup(Join(r), if Join(r) != "" && !Terminated(Join(r)) then eol else "", last);
  }

  lemma WellSplitSnoc(lines: seq<string>, last: string)
    requires WellSplit(lines) && forall i :: 0 <= i < |lines| ==> Terminated(lines[i])
    requires IsLine(last)
    ensures WellSplit(lines + [last])
  {
    hide IsLine, Terminated;
  }

  lemma Regroup(a: string, b: string, c: string)
    ensures a + b + c == a + (b + c)
  {
  }

  /** The new file splits into the rewritten pieces and, when one was missing,
      an appended `shaderPack` line. */
  lemma ReplacedPieces(text: string, s: Setting)
    requires ParseShader(text).Success? && OneLine(s.pack)
    ensures var out := ReplaceShader(text, s).value;
      && SplitInclusive(out) == NewPieces(SplitInclusive(text), s, LineBreak(text))
      && NoBareCr(out)
  {
    hide Property, IsLine, Rewrite, HasKey, ValueOf, LineBreak, NoBareCr, Terminated, FirstNewline,
         Close, RewriteAll, Values, TrimStart, Assignment;
    var lines, eol := SplitInclusive(text), LineBreak(text);
    var r := RewriteAll(lines, s);
    JoinSplit(text);
    NoBareCrByLine(lines);
    RewrittenWellSplit(lines, s);
    if Appends(lines, s) {
      KeysAreKeyLike();
      WrittenLine(PACK_KEY, s.pack.value, eol);
      AppendedPieces(r, PackLine(s.pack.value, eol), eol);
      ClosedPieces(r, eol);
    }
    assert WellSplit(NewPieces(lines, s, eol));
    SplitJoin(NewPieces(lines, s, eol));
    NoBareCrByLine(NewPieces(lines, s, eol));
  }

  // ----- what the new file says -----

  lemma ClosedSays(lines: seq<string>, eol: string, key: string)
    requires eol == "\n" || eol == "\r\n"
    ensures AllReadable(Close(lines, eol)) <==> AllReadable(lines)
    ensures Values(Close(lines, eol), key) == Values(lines, key)
  {
    hide Property;
    if lines != [] && !Terminated(lines[|lines| - 1]) {
      var n := |lines| - 1;
      PropertyIgnoresEnding(lines[n], eol);
      assert lines == lines[..n] + [lines[n]];
      ValuesAppend(lines[..n], [lines[n]], key);
      ValuesAppend(lines[..n], [lines[n] + eol], key);
      var out := Close(lines, eol);
      assert forall i :: 0 <= i < n ==> out[i] == lines[i];
      assert out[n] == lines[n] + eol;
      if AllReadable(out) {
        forall i | 0 <= i < |lines| ensures Property(lines[i]).Success? { assert Property(out[i]).Success?; }
      }
    }
  }

  /** The appended line, as a line of the new file. */
  lemma AppendedSays(pack: string, eol: string)
    requires forall i :: 0 <= i < |pack| ==> !IsBreak(pack[i])
    requires eol == "\n" || eol == "\r\n"
    ensures var line := PackLine(pack, eol);
      && (Property(line).Success? <==> IsAscii(pack) && '\\' !in pack)
      && (Property(line).Success? ==> HasKey(line, PACK_KEY) && !HasKey(line, ENABLE_KEY) && ValueOf(line) == TrimStart(pack))
  {
    hide Property, IsAscii;
    KeysAreKeyLike();
    AssignmentProperty(PACK_KEY, pack);
    PropertyIgnoresEnding(PACK_KEY + "=" + pack, eol);
  }

  lemma PiecesSay(lines: seq<string>, s: Setting, eol: string)
    requires forall i :: 0 <= i < |lines| ==> IsLine(lines[i])
    requires AllReadable(lines) && OneLine(s.pack) && SaysPack(s.pack)
    requires |Values(lines, PACK_KEY)| <= 1 && |Values(lines, ENABLE_KEY)| == 1
    requires eol == "\n" || eol == "\r\n"
    ensures var out := NewPieces(lines, s, eol);
      && AllReadable(out)
      && Values(out, ENABLE_KEY) == [Flag(s.enabled)]
      && Values(out, PACK_KEY) == if Values(lines, PACK_KEY) == [] && s.pack.None? then [] else [TrimStart(Text(s.pack))]
  {
    hide Property, HasKey, ValueOf, Rewrite, IsLine, TrimStart, RewriteAll, PackLine, Close, IsAscii;
    var r := RewriteAll(lines, s);
    RewrittenValues(lines, s);
    assert Values(r, ENABLE_KEY)[0] in Values(r, ENABLE_KEY);
    assert Values(r, PACK_KEY) != [] ==> Values(r, PACK_KEY)[0] in Values(r, PACK_KEY);
    if Appends(lines, s) {
      var last := PackLine(s.pack.value, eol);
      AppendedSays(s.pack.value, eol);
      ClosedSays(r, eol, PACK_KEY);
      ClosedSays(r, eol, ENABLE_KEY);
      ValuesAppend(Close(r, eol), [last], PACK_KEY);
      ValuesAppend(Close(r, eol), [last], ENABLE_KEY);
    }
  }

  lemma {:induction false} KeyLine(lines: seq<string>, key: string) returns (i: nat)
    requires Values(lines, key) != []
    ensures i < |lines| && HasKey(lines[i], key)
  {
    if HasKey(lines[0], key) {
      i := 0;
    } else {
      var k := KeyLine(lines[1..], key);
      i := k + 1;
    }
  }

  lemma PiecesUnreadable(lines: seq<string>, s: Setting, eol: string)
    requires forall i :: 0 <= i < |lines| ==> IsLine(lines[i])
    requires OneLine(s.pack) && !SaysPack(s.pack)
    requires eol == "\n" || eol == "\r\n"
    ensures !AllReadable(NewPieces(lines, s, eol))
  {
    hide Property, IsLine, IsAscii;
    if Appends(lines, s) {
      AppendedSays(s.pack.value, eol);
      var out := NewPieces(lines, s, eol);
      assert out[|out| - 1] == PackLine(s.pack.value, eol);
    } else {
      assert s.pack.Some? by { EmptySays(); }
      var i := KeyLine(lines, PACK_KEY);
      KeysAreKeyLike();
      RewrittenLine(lines[i], s);
      AssignmentProperty(PACK_KEY, s.pack.value);
    }
  }

  lemma EmptySays()
    ensures SaysPack(None)
  {
  }

  /** Reading back a rewritten file gives the written setting, for exactly the
      pack names that survive a properties line. */
  lemma RoundTrip(text: string, s: Setting)
    requires ParseShader(text).Success? && OneLine(s.pack)
    ensures ParseShader(ReplaceShader(text, s).value) == Success(s)
       <==> (s.pack.Some? ==> Readable(s.pack.value))
  {
    hide Property, HasKey, ValueOf, Rewrite, IsLine, Values, RewriteAll, NewPieces, NoBareCr,
         SplitInclusive, LineBreak, ReplaceShader, IsAscii;
    var lines, eol := SplitInclusive(text), LineBreak(text);
    JoinSplit(text);
    ReplacedPieces(text, s);
    if SaysPack(s.pack) {
      PiecesSay(lines, s, eol);
      TrimStartNoLonger(Text(s.pack));
      FlagReads(s.enabled);
    } else {
      EmptySays();
      PiecesUnreadable(lines, s, eol);
    }
  }

  /** A rewritten file can be read at all for exactly the names that need no escape. */
  lemma ReadsAgain(text: string, s: Setting)
    requires ParseShader(text).Success? && OneLine(s.pack)
    ensures ParseShader(ReplaceShader(text, s).value).Success? <==> SaysPack(s.pack)
  {
    hide Property, HasKey, ValueOf, Rewrite, IsLine, Values, RewriteAll, NewPieces, NoBareCr,
         SplitInclusive, LineBreak, ReplaceShader, IsAscii, SaysPack;
    var lines, eol := SplitInclusive(text), LineBreak(text);
    JoinSplit(text);
    ReplacedPieces(text, s);
    if SaysPack(s.pack) {
      PiecesSay(lines, s, eol);
      FlagReads(s.enabled);
    } else {
      PiecesUnreadable(lines, s, eol);
    }
  }

  lemma FlagReads(enabled: bool)
    ensures (Flag(enabled) == "true" || Flag(enabled) == "false") && (Flag(enabled) == "true") == enabled
  {
  }

  /** The guard of the write command. */
  predicate Admits(s: Setting, available: seq<string>, saved: Option<string>) {
    && (s.enabled ==> s.pack.Some?)
    && (s.pack.Some? ==>
          var p := s.pack.value;
          && (p in available || (!s.enabled && s.pack == saved))
          && p != "(internal)" && Names.ValidName(p) && IsAscii(p) && Trimmed(p))
  }

  /** Unicode White_Space, which Rust's `trim` removes. */
  predicate IsWhite(c: char) {
    || 9 as char <= c <= 13 as char || c == ' ' || c == 0x85 as char || c == 0xA0 as char
    || c == 0x1680 as char || 0x2000 as char <= c <= 0x200A as char || c == 0x2028 as char
    || c == 0x2029 as char || c == 0x202F as char || c == 0x205F as char || c == 0x3000 as char
  }

  predicate Trimmed(p: string) {
    p != "" ==> !IsWhite(p[0]) && !IsWhite(p[|p| - 1])
  }

  /** Every setting the guard admits is read back as written. */
  lemma AdmittedRoundTrip(text: string, s: Setting, available: seq<string>)
    requires ParseShader(text).Success?
    requires Admits(s, available, ParseShader(text).value.pack)
    ensures ParseShader(ReplaceShader(text, s).value) == Success(s)
  {
    hide ParseShader, ReplaceShader;
    if s.pack.Some? {
      var p := s.pack.value;
      assert Names.ValidName(p);
      assert forall i :: 0 <= i < |p| ==> !Names.IsControl(p[i]) && p[i] != '\\';
      assert OneLine(s.pack);
      assert Readable(p);
    }
    RoundTrip(text, s);
  }

  // ----- what is read fits on one line -----

  lemma {:induction false} TrimStartOneLine(s: string)
    requires OneLine(Some(s))
    ensures OneLine(Some(TrimStart(s)))
    decreases |s|
  {
    if s != "" && IsBlank(s[0]) { TrimStartOneLine(s[1..]); }
  }

  lemma BreaksEnd(line: string, k: nat)
    requires IsLine(line) && NoBareCr(line) && k < |line| && IsBreak(line[k])
    ensures |Body(line)| <= k
  {
    EndsWithCrLf(line);
    var n := if line[k] == '\r' then k + 1 else k;
    assert line[n] == '\n';
    assert n == |line| - 1;
  }

  lemma BodyOneLine(line: string)
    requires IsLine(line) && NoBareCr(line)
    ensures OneLine(Some(Body(line)))
  {
    forall i | 0 <= i < |Body(line)| ensures !IsBreak(Body(line)[i]) {
      assert line[i] == Body(line)[i];
      if IsBreak(line[i]) { BreaksEnd(line, i); }
    }
  }

  lemma ValueOneLine(line: string)
    requires IsLine(line) && NoBareCr(line)
    ensures OneLine(Some(ValueOf(line)))
  {
    PropertyOfBody(line);
    BodyOneLine(line);
    var b := TrimStart(Body(line));
    TrimStartOneLine(Body(line));
    assert TrimBreaks(b) == b;
    var rest := TrimStart(b[FirstSeparator(b)..]);
    TrimStartOneLine(b[FirstSeparator(b)..]);
    TrimStartOneLine(rest);
    if rest != "" { TrimStartOneLine(rest[1..]); }
  }

  lemma {:induction false} ValuesOneLine(lines: seq<string>, key: string)
    requires forall i :: 0 <= i < |lines| ==> IsLine(lines[i]) && NoBareCr(lines[i])
    ensures forall i :: 0 <= i < |Values(lines, key)| ==> OneLine(Some(Values(lines, key)[i]))
  {
    hide IsLine, NoBareCr, HasKey, ValueOf, OneLine;
    if lines != [] {
      ValueOneLine(lines[0]);
      ValuesOneLine(lines[1..], key);
    }
  }

  lemma ReadOneLine(text: string)
    requires ParseShader(text).Success?
    ensures OneLine(ParseShader(text).value.pack)
  {
    AcceptedFacts(text);
    hide IsLine, NoBareCr, Property, SplitInclusive;
    ValuesOneLine(SplitInclusive(text), PACK_KEY);
  }

  // ----- foreign lines and repeated writes -----

  predicate Foreign(line: string) { !HasKey(line, PACK_KEY) && !HasKey(line, ENABLE_KEY) }

  /** Other lines keep their bytes and their order. The only byte added to one is
      the terminator an unterminated last line gains in front of an appended line. */
  lemma ForeignLinesKept(text: string, s: Setting)
    requires ParseShader(text).Success? && OneLine(s.pack)
    ensures var before := SplitInclusive(text);
      var after := SplitInclusive(ReplaceShader(text, s).value);
      && |after| == |before| + (if Appends(before, s) then 1 else 0)
      && (forall i :: 0 <= i < |before| && Foreign(before[i]) ==>
            after[i] == before[i]
            || (Appends(before, s) && i == |before| - 1 && !Terminated(before[i]) && after[i] == before[i] + LineBreak(text)))
      && (Appends(before, s) ==> after[|before|] == PackLine(s.pack.value, LineBreak(text)))
  {
    hide Property, HasKey, LineBreak, SplitInclusive, ReplaceShader, ParseShader, Ending;
    var before := SplitInclusive(text);
    ReplacedPieces(text, s);
    JoinSplit(text);
    var r := RewriteAll(before, s);
    forall i | 0 <= i < |before| ensures Terminated(r[i]) <==> Terminated(before[i]) {
      RewrittenLine(before[i], s);
    }
  }

  lemma CrLfInLine(line: string)
    requires IsLine(line)
    ensures HasCrLf(line) <==> Ending(line) == "\r\n"
  {
    EndsWithCrLf(line);
    hide Ending;
    if |line| >= 2 && line[|line| - 2] == '\r' && line[|line| - 1] == '\n' {
      var k := |line| - 2;
      assert line[k] == '\r' && line[k + 1] == '\n';
    }
  }

  lemma EndsWithCrLf(line: string)
    ensures Ending(line) == "\r\n" <==> |line| >= 2 && line[|line| - 2] == '\r' && line[|line| - 1] == '\n'
  {
    if |line| >= 2 {
      var end := line[|line| - 2..];
      assert end == [line[|line| - 2], line[|line| - 1]];
      assert "\r\n" == ['\r', '\n'];
    }
  }

  lemma CrLfAppend(a: string, b: string)
    requires a == "" || b == "" || a[|a| - 1] != '\r'
    ensures HasCrLf(a + b) <==> HasCrLf(a) || HasCrLf(b)
  {
    var t := a + b;
    if i :| 0 <= i < |t| - 1 && t[i] == '\r' && t[i + 1] == '\n' {
      if i + 1 < |a| { assert a[i] == '\r' && a[i + 1] == '\n'; }
      else if |a| <= i { assert b[i - |a|] == '\r' && b[i - |a| + 1] == '\n'; }
    }
    if i :| 0 <= i < |a| - 1 && a[i] == '\r' && a[i + 1] == '\n' { assert t[i] == '\r' && t[i + 1] == '\n'; }
    if i :| 0 <= i < |b| - 1 && b[i] == '\r' && b[i + 1] == '\n' { assert t[|a| + i] == '\r' && t[|a| + i + 1] == '\n'; }
  }

  /** The line break used for an appended line depends on the terminators alone. */
  lemma {:induction false} CrLfByLine(lines: seq<string>)
    requires WellSplit(lines)
    ensures HasCrLf(Join(lines)) <==> exists i :: 0 <= i < |lines| && Ending(lines[i]) == "\r\n"
  {
    hide HasCrLf, Ending;
    if lines == [] {
      assert !HasCrLf("") by { NoCrLfInEmpty(); }
    } else {
      var tail := lines[1..];
      assert forall i :: 0 <= i < |tail| ==> tail[i] == lines[i + 1];
      assert WellSplit(tail);
      CrLfByLine(tail);
      CrLfInLine(lines[0]);
      CrLfAppend(lines[0], Join(tail));
      if i :| 0 <= i < |tail| && Ending(tail[i]) == "\r\n" { assert Ending(lines[i + 1]) == "\r\n"; }
      if i :| 0 <= i < |lines| && Ending(lines[i]) == "\r\n" && i > 0 { assert Ending(tail[i - 1]) == "\r\n"; }
    }
  }

  lemma NoCrLfInEmpty()
    ensures !HasCrLf("")
  {
  }

  /** Rewriting a line twice. */
  lemma RewriteTwice(line: string, a: Setting, b: Setting)
    requires IsLine(line) && Property(line).Success?
    requires OneLine(a.pack) && SaysPack(a.pack)
    ensures Rewrite(Rewrite(line, a), b) == Rewrite(line, b)
  {
    hide Property, HasKey, IsLine, IsAscii, OneLine, SaysPack, NoBareCr, Ending, Terminated, ValueOf;
    RewrittenSays(line, a);
    RewrittenLine(line, a);
  }

  /** The same when the line was closed in between. */
  lemma RewriteClosed(line: string, a: Setting, b: Setting, eol: string)
    requires IsLine(line) && Property(line).Success? && NoBareCr(line) && !Terminated(line)
    requires OneLine(a.pack) && SaysPack(a.pack)
    requires eol == "\n" || eol == "\r\n"
    ensures Rewrite(Rewrite(line, a) + eol, b) == Rewrite(line, b) + eol
  {
    hide Property, HasKey, IsLine, IsAscii, OneLine, SaysPack, NoBareCr, Terminated, ValueOf;
    RewrittenSays(line, a);
    RewrittenLine(line, a);
    var once := Rewrite(line, a);
    ClosedKeys(once, eol, PACK_KEY);
    ClosedKeys(once, eol, ENABLE_KEY);
    ClosedEnding(once, eol);
    assert Ending(line) == "";
    if HasKey(line, PACK_KEY) {
      EmptyEnding(PACK_KEY + "=" + Text(b.pack));
    } else if HasKey(line, ENABLE_KEY) {
      EmptyEnding(ENABLE_KEY + "=" + Flag(b.enabled));
    }
  }

  lemma EmptyEnding(s: string)
    ensures s + "" == s
  {
  }

  lemma ClosedKeys(line: string, eol: string, key: string)
    requires eol == "\n" || eol == "\r\n"
    ensures HasKey(line + eol, key) <==> HasKey(line, key)
  {
    hide Property;
    PropertyIgnoresEnding(line, eol);
  }

  lemma ClosedEnding(line: string, eol: string)
    requires IsLine(line) && !Terminated(line) && NoBareCr(line)
    requires eol == "\n" || eol == "\r\n"
    ensures Ending(line + eol) == eol
  {
    var t := line + eol;
    if eol == "\r\n" {
      assert t[|t| - 2..] == eol;
    } else {
      assert t[|t| - 2] == line[|line| - 1];
    }
  }

  lemma RewriteAllTwice(lines: seq<string>, a: Setting, b: Setting)
    requires forall i :: 0 <= i < |lines| ==> IsLine(lines[i])
    requires AllReadable(lines) && OneLine(a.pack) && SaysPack(a.pack)
    ensures RewriteAll(RewriteAll(lines, a), b) == RewriteAll(lines, b)
  {
    hide Property, Rewrite, IsLine, OneLine, SaysPack;
    assert AllReadable(lines);
    forall i | 0 <= i < |lines| ensures Rewrite(Rewrite(lines[i], a), b) == Rewrite(lines[i], b) {
      RewriteTwice(lines[i], a, b);
    }
  }

  /** Both writes rewrite in place, or the second replaces the line the first appended. */
  lemma PiecesTwice(lines: seq<string>, a: Setting, b: Setting, eol: string, eol': string)
    requires WellSplit(lines) && AllReadable(lines) && forall i :: 0 <= i < |lines| ==> NoBareCr(lines[i])
    requires OneLine(a.pack) && SaysPack(a.pack) && OneLine(b.pack)
    requires |Values(lines, PACK_KEY)| <= 1 && |Values(lines, ENABLE_KEY)| == 1
    requires eol == "\n" || eol == "\r\n"
    requires !Appends(lines, a) ==> eol' == eol
    ensures NewPieces(NewPieces(lines, a, eol), b, eol')
         == if Appends(lines, a) then Close(RewriteAll(lines, b), eol) + [PackLine(Text(b.pack), eol)]
            else NewPieces(lines, b, eol)
  {
    hide Property, HasKey, ValueOf, Rewrite, IsLine, TrimStart, Values, Ending, NoBareCr, Terminated, PackLine, Close, RewriteAll;
    var once := NewPieces(lines, a, eol);
    PiecesSay(lines, a, eol);
    if !Appends(lines, a) {
      RewriteAllTwice(lines, a, b);
    } else {
      var r := RewriteAll(lines, a);
      var last := PackLine(a.pack.value, eol);
      assert once == Close(r, eol) + [last];
      assert !Appends(once, b);
      AppendedRewrite(a.pack.value, b, eol);
      var twice := RewriteAll(once, b);
      ClosedRewrite(lines, a, b, eol);
      assert twice[|lines|] == Rewrite(last, b);
      assert twice == twice[..|lines|] + [twice[|lines|]];
      assert twice[..|lines|] == RewriteAll(Close(r, eol), b);
    }
  }

  lemma AppendedRewrite(pack: string, b: Setting, eol: string)
    requires forall i :: 0 <= i < |pack| ==> !IsBreak(pack[i])
    requires IsAscii(pack) && '\\' !in pack
    requires eol == "\n" || eol == "\r\n"
    ensures Rewrite(PackLine(pack, eol), b) == PackLine(Text(b.pack), eol)
  {
    hide Property, IsAscii, Ending, NoBareCr;
    KeysAreKeyLike();
    AppendedSays(pack, eol);
    WrittenLine(PACK_KEY, pack, eol);
  }

  lemma ClosedRewrite(lines: seq<string>, a: Setting, b: Setting, eol: string)
    requires forall i :: 0 <= i < |lines| ==> IsLine(lines[i]) && NoBareCr(lines[i])
    requires AllReadable(lines) && OneLine(a.pack) && SaysPack(a.pack) && OneLine(b.pack)
    requires eol == "\n" || eol == "\r\n"
    ensures RewriteAll(Close(RewriteAll(lines, a), eol), b) == Close(RewriteAll(lines, b), eol)
  {
    hide Property, HasKey, Rewrite, IsLine, Ending, NoBareCr, Terminated, SaysPack, OneLine, Close, RewriteAll;
    var r, rb := RewriteAll(lines, a), RewriteAll(lines, b);
    assert AllReadable(lines);
    forall i | 0 <= i < |lines| ensures Rewrite(Close(r, eol)[i], b) == Close(rb, eol)[i] {
      RewriteTwice(lines[i], a, b);
      RewrittenLine(lines[i], a);
      RewrittenLine(lines[i], b);
      if !Terminated(lines[i]) {
        RewriteClosed(lines[i], a, b, eol);
      }
    }
  }

  /** The last of two writes wins: writing `a` and then `b` gives the file that
      writing `b` alone gives, unless `a` left a name that cannot be read at all, or
      had to append a `shaderPack` line and `b` names no pack, for then that line
      stays behind with an empty value. */
  lemma LastReplaceWins(text: string, a: Setting, b: Setting)
    requires ParseShader(text).Success?
    requires OneLine(a.pack) && OneLine(b.pack)
    ensures ReplaceShader(ReplaceShader(text, a).value, b) == ReplaceShader(text, b)
       <==> SaysPack(a.pack) && (b.pack.Some? || a.pack.None? || Values(SplitInclusive(text), PACK_KEY) != [])
  {
    hide ParseShader, SplitInclusive, Values, SaysPack, OneLine;
    ReadsAgain(text, a);
    if SaysPack(a.pack) {
      hide ReplaceShader;
      LastReadableWins(text, a, b);
    }
  }

  lemma LastReadableWins(text: string, a: Setting, b: Setting)
    requires ParseShader(text).Success?
    requires OneLine(a.pack) && OneLine(b.pack) && SaysPack(a.pack)
    ensures ReplaceShader(ReplaceShader(text, a).value, b) == ReplaceShader(text, b)
       <==> (b.pack.Some? || a.pack.None? || Values(SplitInclusive(text), PACK_KEY) != [])
  {
    hide Property, HasKey, ValueOf, Rewrite, IsLine, TrimStart, Values, Ending, NoBareCr, Terminated,
         RewriteAll, LineBreak, ParseShader, NewPieces, Close, SplitInclusive, SaysPack;
    var lines, eol := SplitInclusive(text), LineBreak(text);
    var once := ReplaceShader(text, a).value;
    ReadsAgain(text, a);
    ReplacedPieces(text, a);
    ReplacedPieces(text, b);
    ReplacedPieces(once, b);
    AcceptedFacts(text);
    if !Appends(lines, a) {
      SameLineBreak(text, a);
    }
    PiecesTwice(lines, a, b, eol, LineBreak(once));
    var left, right := ReplaceShader(once, b).value, ReplaceShader(text, b).value;
    JoinSplit(left);
    JoinSplit(right);
    PiecesCount(lines, a, b, eol);
  }

  /** The condition matters: a pack is chosen in a file without a `shaderPack` line,
      and then none. The appended line stays behind. */
  lemma LastReplaceLoses()
    ensures var text := Assignment(ENABLE_KEY, "false", "\n");
      var chosen, none := Setting(Some("p"), true), Setting(None, false);
      && ParseShader(text).Success?
      && ReplaceShader(text, chosen).Success?
      && ReplaceShader(ReplaceShader(text, chosen).value, none) != ReplaceShader(text, none)
  {
    var text := Assignment(ENABLE_KEY, "false", "\n");
    OneFlagLine();
    hide ParseShader, Values, ReplaceShader, Assignment, Property;
    PlainName();
    LastReplaceWins(text, Setting(Some("p"), true), Setting(None, false));
  }

  lemma PlainName()
    ensures Readable("p") && SaysPack(Some("p")) && OneLine(Some("p")) && OneLine(None)
  {
  }

  lemma OneFlagLine()
    ensures var text := Assignment(ENABLE_KEY, "false", "\n");
      && ParseShader(text).Success? && Values(SplitInclusive(text), PACK_KEY) == []
      && ReplaceShader(text, Setting(Some("p"), true)).Success?
  {
    var text := Assignment(ENABLE_KEY, "false", "\n");
    FlagLineSays(false, "\n");
    hide Property, Assignment, NoBareCr, IsLine, HasKey, ValueOf, SplitInclusive, Join;
    OneLineSplit(text);
    OneLineValues(text, PACK_KEY);
    OneLineValues(text, ENABLE_KEY);
    FlagReads(false);
  }

  lemma OneLineValues(line: string, key: string)
    ensures Values([line], key) == if HasKey(line, key) then [ValueOf(line)] else []
  {
    hide HasKey, ValueOf;
    assert [line][1..] == [];
  }

  lemma KeysDiffer()
    ensures ENABLE_KEY != PACK_KEY
  {
    assert ENABLE_KEY[0] == 'e' && PACK_KEY[0] == 's';
  }

  lemma FlagLineSays(enabled: bool, eol: string)
    requires eol == "\n" || eol == "\r\n"
    ensures var line := Assignment(ENABLE_KEY, Flag(enabled), eol);
      && IsLine(line) && NoBareCr(line) && Property(line).Success?
      && !HasKey(line, PACK_KEY) && HasKey(line, ENABLE_KEY) && ValueOf(line) == Flag(enabled)
  {
    KeysDiffer();
    KeysAreKeyLike();
    FlagIsPlain(enabled);
    hide Flag, KeyLike, Property, IsLine, NoBareCr, IsAscii, TrimStart;
    WrittenLine(ENABLE_KEY, Flag(enabled), eol);
    AssignmentProperty(ENABLE_KEY, Flag(enabled));
  }

  lemma FlagIsPlain(enabled: bool)
    ensures var f := Flag(enabled);
      (forall i :: 0 <= i < |f| ==> !IsBreak(f[i])) && IsAscii(f) && '\\' !in f && TrimStart(f) == f
  {
  }

  lemma OneLineSplit(line: string)
    requires IsLine(line)
    ensures SplitInclusive(line) == [line]
  {
    assert Join([line]) == line + Join([]) == line;
    SplitJoin([line]);
  }

  /** What acceptance says about the pieces of a file. */
  lemma AcceptedFacts(text: string)
    requires ParseShader(text).Success?
    ensures var lines := SplitInclusive(text);
      && WellSplit(lines) && AllReadable(lines) && (forall i :: 0 <= i < |lines| ==> NoBareCr(lines[i]))
      && |Values(lines, PACK_KEY)| <= 1 && |Values(lines, ENABLE_KEY)| == 1
  {
    hide Property, NoBareCr, IsLine;
    JoinSplit(text);
    NoBareCrByLine(SplitInclusive(text));
  }

  lemma PiecesCount(lines: seq<string>, a: Setting, b: Setting, eol: string)
    ensures |Close(RewriteAll(lines, b), eol) + [PackLine(Text(b.pack), eol)]| == |lines| + 1
    ensures Appends(lines, a) && b.pack.None? ==> |NewPieces(lines, b, eol)| == |lines|
    ensures Appends(lines, a) && b.pack.Some? ==>
              NewPieces(lines, b, eol) == Close(RewriteAll(lines, b), eol) + [PackLine(Text(b.pack), eol)]
  {
  }

  lemma SameLineBreak(text: string, a: Setting)
    requires ParseShader(text).Success? && OneLine(a.pack)
    requires !Appends(SplitInclusive(text), a)
    ensures LineBreak(ReplaceShader(text, a).value) == LineBreak(text)
  {
    hide Property, HasKey, Rewrite, IsLine, Ending, NoBareCr, ParseShader, Values, HasCrLf, Terminated;
    var lines, out := SplitInclusive(text), ReplaceShader(text, a).value;
    ReplacedPieces(text, a);
    JoinSplit(text);
    JoinSplit(out);
    forall i | 0 <= i < |lines| ensures Ending(SplitInclusive(out)[i]) == Ending(lines[i]) {
      RewrittenLine(lines[i], a);
    }
    CrLfByLine(lines);
    CrLfByLine(SplitInclusive(out));
    SameEndings(lines, SplitInclusive(out));
  }

  lemma SameEndings(a: seq<string>, b: seq<string>)
    requires |a| == |b| && forall i :: 0 <= i < |a| ==> Ending(b[i]) == Ending(a[i])
    ensures (exists i :: 0 <= i < |a| && Ending(a[i]) == "\r\n") <==> (exists i :: 0 <= i < |b| && Ending(b[i]) == "\r\n")
  {
    hide Ending;
    if i :| 0 <= i < |a| && Ending(a[i]) == "\r\n" { assert Ending(b[i]) == "\r\n"; }
    if i :| 0 <= i < |b| && Ending(b[i]) == "\r\n" { assert Ending(a[i]) == "\r\n"; }
  }

  // ----- how large the new file is -----

  /** The bytes of the lines that a write replaces, without their terminators. */
  function SettingBytes(lines: seq<string>): nat {
    if lines == [] then 0
    else (if Foreign(lines[0]) then 0 else Names.Utf8Length(Body(lines[0]))) + SettingBytes(lines[1..])
  }

  /** The bytes of a setting line, without its terminator. */
  function LineBytes(key: string, value: string): nat { Names.Utf8Length(key + "=" + value) }

  /** What an appended line adds, with the terminator that the last line may lack. */
  function AppendedBytes(text: string, s: Setting): nat {
    if Appends(SplitInclusive(text), s)
    then (if Terminated(text) then 0 else |LineBreak(text)|) + LineBytes(PACK_KEY, s.pack.value) + |LineBreak(text)|
    else 0
  }

  lemma BreakSize(e: string)
    requires e == "" || e == "\n" || e == "\r\n"
    ensures Names.Utf8Length(e) == |e|
  {
    Names.AsciiSize(e);
  }

  lemma AssignmentSize(key: string, value: string, ending: string)
    requires ending == "" || ending == "\n" || ending == "\r\n"
    ensures Names.Utf8Length(Assignment(key, value, ending)) == LineBytes(key, value) + |ending|
  {
    BreakSize(ending);
    hide Names.Utf8Length;
    Names.Utf8LengthAppend(key + "=" + value, ending);
  }

  lemma RewrittenLineSize(line: string, s: Setting)
    ensures Names.Utf8Length(Rewrite(line, s)) + (if Foreign(line) then 0 else Names.Utf8Length(Body(line)))
            == Names.Utf8Length(line) + (if HasKey(line, PACK_KEY) then LineBytes(PACK_KEY, Text(s.pack))
                                         else if HasKey(line, ENABLE_KEY) then LineBytes(ENABLE_KEY, Flag(s.enabled)) else 0)
  {
    BodyEnding(line);
    BreakSize(Ending(line));
    AssignmentSize(PACK_KEY, Text(s.pack), Ending(line));
    AssignmentSize(ENABLE_KEY, Flag(s.enabled), Ending(line));
    hide Names.Utf8Length, Body, Ending, HasKey, Assignment;
    Names.Utf8LengthAppend(Body(line), Ending(line));
  }

  lemma FirstSettingBytes(lines: seq<string>)
    requires lines != []
    ensures SettingBytes(lines) == (if Foreign(lines[0]) then 0 else Names.Utf8Length(Body(lines[0]))) + SettingBytes(lines[1..])
    ensures |Values(lines, PACK_KEY)| == (if HasKey(lines[0], PACK_KEY) then 1 else 0) + |Values(lines[1..], PACK_KEY)|
    ensures |Values(lines, ENABLE_KEY)| == (if HasKey(lines[0], ENABLE_KEY) then 1 else 0) + |Values(lines[1..], ENABLE_KEY)|
    ensures HasKey(lines[0], PACK_KEY) ==> !HasKey(lines[0], ENABLE_KEY)
  {
    KeysDiffer();
    hide Names.Utf8Length, Body, Property;
  }

  /** Each setting line is replaced by the new one, and nothing else changes size. */
  lemma {:induction false} RewrittenSize(lines: seq<string>, s: Setting)
    ensures Names.Utf8Length(Join(RewriteAll(lines, s))) + SettingBytes(lines)
            == Names.Utf8Length(Join(lines)) + |Values(lines, PACK_KEY)| * LineBytes(PACK_KEY, Text(s.pack))
               + |Values(lines, ENABLE_KEY)| * LineBytes(ENABLE_KEY, Flag(s.enabled))
    decreases |lines|
  {
    if lines != [] {
      var rest := lines[1..];
      RewrittenSize(rest, s);
      RewrittenLineSize(lines[0], s);
      FirstSettingBytes(lines);
      Names.Utf8LengthAppend(lines[0], Join(rest));
      Names.Utf8LengthAppend(Rewrite(lines[0], s), Join(RewriteAll(rest, s)));
      hide Names.Utf8Length, Rewrite, RewriteAll, Values, SettingBytes, LineBytes, Body, HasKey;
      assert RewriteAll(lines, s) == [Rewrite(lines[0], s)] + RewriteAll(rest, s);
      Names.OneMore(|Values(rest, PACK_KEY)|, LineBytes(PACK_KEY, Text(s.pack)));
      Names.OneMore(|Values(rest, ENABLE_KEY)|, LineBytes(ENABLE_KEY, Flag(s.enabled)));
    }
  }

  /** The size in bytes of the new file, from the old one and the setting. */
  lemma ReplacedSize(text: string, s: Setting)
    requires ParseShader(text).Success? && OneLine(s.pack)
    ensures var lines := SplitInclusive(text);
      Names.Utf8Length(ReplaceShader(text, s).value) + SettingBytes(lines)
      == Names.Utf8Length(text) + |Values(lines, PACK_KEY)| * LineBytes(PACK_KEY, Text(s.pack))
         + LineBytes(ENABLE_KEY, Flag(s.enabled)) + AppendedBytes(text, s)
  {
    var lines := SplitInclusive(text);
    var body := Join(RewriteAll(lines, s));
    AcceptedFacts(text);
    JoinSplit(text);
    RewrittenSize(lines, s);
    ReplacedText(text, s);
    hide ParseShader, ReplaceShader, Values, SettingBytes, LineBytes, RewriteAll, Names.Utf8Length, LineBreak, Terminated,
         SplitInclusive, Join, OneLine, WellSplit, AllReadable, PackLine, Appended;
    assert 1 * LineBytes(ENABLE_KEY, Flag(s.enabled)) == LineBytes(ENABLE_KEY, Flag(s.enabled));
    if Appends(lines, s) {
      var eol := LineBreak(text);
      SameEnd(text, s);
      AppendedSize(body, s.pack.value, eol);
      Names.Utf8LengthAppend(body, Appended(body, PackLine(s.pack.value, eol), eol));
    }
  }

  lemma ReplacedText(text: string, s: Setting)
    requires ParseShader(text).Success?
    ensures var lines, eol := SplitInclusive(text), LineBreak(text);
      var body := Join(RewriteAll(lines, s));
      ReplaceShader(text, s).value == if Appends(lines, s) then body + Appended(body, PackLine(s.pack.value, eol), eol) else body
  {
    hide ParseShader, Values, RewriteAll, LineBreak, SplitInclusive, Join, PackLine, Appended;
  }

  lemma AppendedSize(body: string, pack: string, eol: string)
    requires eol == "\n" || eol == "\r\n"
    ensures Names.Utf8Length(Appended(body, PackLine(pack, eol), eol))
            == (if body != "" && !Terminated(body) then |eol| else 0) + LineBytes(PACK_KEY, pack) + |eol|
  {
    BreakSize(eol);
    AssignmentSize(PACK_KEY, pack, eol);
    hide Names.Utf8Length, Assignment, LineBytes;
    Names.Utf8LengthAppend(eol, PackLine(pack, eol));
    assert "" + PackLine(pack, eol) == PackLine(pack, eol);
  }

  /** The rewritten lines end in a terminator exactly when the file did. */
  lemma SameEnd(text: string, s: Setting)
    requires ParseShader(text).Success? && OneLine(s.pack)
    ensures var body := Join(RewriteAll(SplitInclusive(text), s));
      body != "" && (Terminated(body) <==> Terminated(text))
  {
    var lines := SplitInclusive(text);
    AcceptedFacts(text);
    JoinSplit(text);
    assert lines != [];
    RewrittenWellSplit(lines, s);
    RewrittenLine(lines[|lines| - 1], s);
    hide Join, SplitInclusive, Rewrite, WellSplit, Terminated, IsLine, Property, NoBareCr, Ending;
    JoinLast(lines);
    JoinLast(RewriteAll(lines, s));
  }

  /** A file that says no pack, made as large as wanted by a comment. */
  function FullFile(n: nat): string { Assignment(ENABLE_KEY, "false", "\n") + ("#" + seq(n, _ => 'x')) }

  lemma CommentLine(comment: string)
    requires comment != "" && comment[0] == '#' && forall i :: 0 < i < |comment| ==> comment[i] == 'x'
    ensures IsLine(comment) && NoBareCr(comment) && Property(comment) == Success(None)
    ensures Foreign(comment) && !Terminated(comment)
  {
    assert TrimStart(comment) == comment && TrimBreaks(comment) == comment;
  }

  lemma FullFileSays(n: nat)
    ensures var text := FullFile(n);
      && ParseShader(text) == Success(Setting(None, false))
      && Names.Utf8Length(text) == 21 + n
      && Values(SplitInclusive(text), PACK_KEY) == []
      && SettingBytes(SplitInclusive(text)) == 19
  {
    var line, comment := Assignment(ENABLE_KEY, "false", "\n"), "#" + seq(n, _ => 'x');
    FullFileSize(n);
    FlagLineSays(false, "\n");
    CommentLine(comment);
    FlagBody(line);
    hide Property, IsLine, HasKey, ValueOf, Assignment, Body, Names.Utf8Length, Terminated, SplitInclusive, NoBareCr,
         Foreign, Values, SettingBytes, ParseShader;
    FlagFile(line, comment);
  }

  lemma FullFileSize(n: nat)
    ensures Names.Utf8Length(FullFile(n)) == 21 + n
  {
    Names.AsciiSize(FullFile(n));
  }

  lemma FlagFile(line: string, comment: string)
    requires IsLine(line) && Terminated(line) && NoBareCr(line) && Property(line).Success?
    requires HasKey(line, ENABLE_KEY) && !HasKey(line, PACK_KEY) && ValueOf(line) == "false"
    requires IsLine(comment) && NoBareCr(comment) && Property(comment).Success? && Foreign(comment)
    ensures var text := line + comment;
      && ParseShader(text) == Success(Setting(None, false))
      && Values(SplitInclusive(text), PACK_KEY) == []
      && SettingBytes(SplitInclusive(text)) == Names.Utf8Length(Body(line))
  {
    hide Property, IsLine, HasKey, ValueOf, Body, Names.Utf8Length, Terminated, SplitInclusive, NoBareCr, Foreign, Values, SettingBytes;
    Names.TwoLines(line, comment);
    FlagAndComment(line, comment);
  }

  lemma FlagAndComment(line: string, comment: string)
    requires HasKey(line, ENABLE_KEY) && !HasKey(line, PACK_KEY) && Foreign(comment)
    ensures var lines := [line, comment];
      && Values(lines, PACK_KEY) == [] && Values(lines, ENABLE_KEY) == [ValueOf(line)]
      && SettingBytes(lines) == Names.Utf8Length(Body(line))
  {
    hide HasKey, ValueOf, Body, Names.Utf8Length;
    assert [line, comment][1..] == [comment] && [comment][1..] == [];
    OneLineValues(comment, PACK_KEY);
    OneLineValues(comment, ENABLE_KEY);
    FirstSettingBytes([line, comment]);
    FirstSettingBytes([comment]);
  }

  lemma FlagBody(line: string)
    requires line == Assignment(ENABLE_KEY, "false", "\n")
    ensures Names.Utf8Length(Body(line)) == 19 && Terminated(line)
  {
    BodyEnding(line);
    assert line[|line| - 2] == 'e';
    Names.AsciiSize(Body(line));
  }

  lemma GrowthSize()
    ensures LineBytes(ENABLE_KEY, Flag(true)) == 18 && LineBytes(PACK_KEY, "p") == 12
  {
    Names.AsciiSize(ENABLE_KEY + "=" + "true");
    Names.AsciiSize(PACK_KEY + "=" + "p");
  }
}
