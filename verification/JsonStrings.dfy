/** JSON arrays of strings as serde_json reads and prints them
    (sections 5 and 7 of RFC 8259). Text is a sequence of Unicode scalar values. */
module JsonStrings {
  import opened Results

  // ----- characters and escapes -----

  predicate IsSpace(c: char) {
    c == ' ' || c == '\t' || c == '\n' || c == '\r'
  }

  function SkipSpace(s: string): (r: string)
    ensures |r| <= |s|
  {
    if s != [] && IsSpace(s[0]) then SkipSpace(s[1..]) else s
  }

  function HexValue(c: char): Option<nat> {
    if '0' <= c <= '9' then Some(c as int - '0' as int)
    else if 'a' <= c <= 'f' then Some(c as int - 'a' as int + 10)
    else if 'A' <= c <= 'F' then Some(c as int - 'A' as int + 10)
    else None
  }

  function HexDigit(n: nat): (c: char)
    requires n < 16
  {
    if n < 10 then (n + '0' as int) as char else (n - 10 + 'a' as int) as char
  }

  /** Four hexadecimal digits at the start of `s`. */
  function Hex4(s: string): (r: Option<nat>)
    ensures r.Some? ==> |s| >= 4 && r.value < 0x1_0000
  {
    if |s| < 4 then None
    else
      match (HexValue(s[0]), HexValue(s[1]), HexValue(s[2]), HexValue(s[3]))
      case (Some(a), Some(b), Some(c), Some(d)) =>
        assert a < 16 && b < 16 && c < 16 && d < 16;
        Some(a * 4096 + b * 256 + c * 16 + d)
      case _ => None
  }

  /** The character a single-letter escape stands for. */
  function ShortEscape(c: char): Option<char> {
    if c == '"' || c == '\\' || c == '/' then Some(c)
    else if c == 'b' then Some(8 as char)
    else if c == 'f' then Some(12 as char)
    else if c == 'n' then Some('\n')
    else if c == 'r' then Some('\r')
    else if c == 't' then Some('\t')
    else None
  }

  datatype Unit = Unit(c: char, rest: string)

  /** `\u` escapes after the `u`: one scalar value, or a surrogate pair. */
  function UnicodeEscape(s: string): (r: Option<Unit>)
    ensures r.Some? ==> |r.value.rest| < |s|
  {
    match Hex4(s)
    case None => None
    case Some(n) =>
      if 0xDC00 <= n < 0xE000 then None
      else if 0xD800 <= n < 0xDC00 then
        if |s| >= 6 && s[4] == '\\' && s[5] == 'u' then
          match Hex4(s[6..])
          case Some(m) =>
            if 0xDC00 <= m < 0xE000 then
              Some(Unit((0x1_0000 + (n - 0xD800) * 0x400 + (m - 0xDC00)) as char, s[10..]))
            else None
          case None => None
        else None
      else Some(Unit(n as char, s[4..]))
  }

  /** One character inside a string literal; the closing quote is not one. */
  function ParseUnit(s: string): (r: Option<Unit>)
    ensures r.Some? ==> |r.value.rest| < |s|
  {
    if s == [] || s[0] == '"' || s[0] < ' ' then None
    else if s[0] != '\\' then Some(Unit(s[0], s[1..]))
    else if |s| < 2 then None
    else if s[1] == 'u' then UnicodeEscape(s[2..])
    else match ShortEscape(s[1])
      case Some(c) => Some(Unit(c, s[2..]))
      case None => None
  }

  datatype Text = Text(value: string, rest: string)

  /** The rest of a string literal whose opening quote has been read. */
  function ParseChars(s: string): (r: Option<Text>)
    ensures r.Some? ==> |r.value.rest| < |s|
    decreases |s|
  {
    if s != [] && s[0] == '"' then Some(Text("", s[1..]))
    else match ParseUnit(s)
      case None => None
      case Some(u) =>
        match ParseChars(u.rest)
        case None => None
        case Some(t) => Some(Text([u.c] + t.value, t.rest))
  }

  function ParseString(s: string): (r: Option<Text>)
    ensures r.Some? ==> |r.value.rest| < |s|
  {
    if s != [] && s[0] == '"' then ParseChars(s[1..]) else None
  }

  datatype Items = Items(values: seq<string>, rest: string)

  /** Elements after at least one was read: `]` or `, element ...`. */
  function ParseMore(s: string): (r: Option<Items>)
    decreases |s|
  {
    var s := SkipSpace(s);
    if s == [] then None
    else if s[0] == ']' then Some(Items([], s[1..]))
    else if s[0] == ',' then
      match ParseString(SkipSpace(s[1..]))
      case None => None
      case Some(t) =>
        match ParseMore(t.rest)
        case None => None
        case Some(m) => Some(Items([t.value] + m.values, m.rest))
    else None
  }

  function ParseItems(s: string): Option<Items> {
    var s := SkipSpace(s);
    if s != [] && s[0] == ']' then Some(Items([], s[1..]))
    else match ParseString(s)
      case None => None
      case Some(t) =>
        match ParseMore(t.rest)
        case None => None
        case Some(m) => Some(Items([t.value] + m.values, m.rest))
  }

  /** A whole document that is one array of strings, surrounded by white space only. */
  function ParseStringArray(s: string): Option<seq<string>> {
    var s := SkipSpace(s);
    if s == [] || s[0] != '[' then None
    else match ParseItems(s[1..])
      case None => None
      case Some(m) => if SkipSpace(m.rest) == [] then Some(m.values) else None
  }

  // ----- printing -----

  function EscapeChar(c: char): string {
    if c == '"' then "\\\""
    else if c == '\\' then "\\\\"
    else if c == 8 as char then "\\b"
    else if c == '\t' then "\\t"
    else if c == '\n' then "\\n"
    else if c == 12 as char then "\\f"
    else if c == '\r' then "\\r"
    else if c < ' ' then "\\u00" + [HexDigit(c as int / 16), HexDigit(c as int % 16)]
    else [c]
  }

  function EscapeChars(v: string): string {
    if v == [] then "" else EscapeChar(v[0]) + EscapeChars(v[1..])
  }

  function PrintString(v: string): string {
    "\"" + EscapeChars(v) + "\""
  }

  function PrintMore(vs: seq<string>): string {
    if vs == [] then "]" else "," + PrintString(vs[0]) + PrintMore(vs[1..])
  }

  function PrintStringArray(vs: seq<string>): string {
    if vs == [] then "[]" else "[" + PrintString(vs[0]) + PrintMore(vs[1..])
  }

  // ----- the round trip -----

  lemma HexDigitValue(n: nat)
    requires n < 16
    ensures HexValue(HexDigit(n)) == Some(n)
  {
  }

  /** Every escaped character reads back as itself, whatever follows it. */
  lemma ParseEscapedUnit(c: char, rest: string)
    ensures ParseUnit(EscapeChar(c) + rest) == Some(Unit(c, rest))
    ensures EscapeChar(c)[0] != '"'
  {
    var e := EscapeChar(c);
    var s := e + rest;
    assert s[|e|..] == rest;
    if c < ' ' && |e| == 6 {
      var hi, lo := c as int / 16, c as int % 16;
      var digits := ['0', '0', HexDigit(hi), HexDigit(lo)];
      assert s[2..] == digits + rest;
      HexDigitValue(hi);
      HexDigitValue(lo);
      assert Hex4(s[2..]) == Some(c as int);
      assert s[2..][4..] == rest;
    } else if |e| == 2 {
      assert s[0] == '\\' && s[2..] == rest;
      assert s[1] != 'u';
    } else {
      assert e == [c] && s[0] == c && s[1..] == rest;
    }
  }

  lemma {:induction false} ParseEscapedChars(v: string, rest: string)
    ensures ParseChars(EscapeChars(v) + "\"" + rest) == Some(Text(v, rest))
  {
    var s := EscapeChars(v) + "\"" + rest;
    if v == [] {
      assert s == "\"" + rest;
      assert s[1..] == rest;
    } else {
      var tail := EscapeChars(v[1..]) + "\"" + rest;
      assert s == EscapeChar(v[0]) + tail;
      ParseEscapedUnit(v[0], tail);
      ParseEscapedChars(v[1..], rest);
      assert [v[0]] + v[1..] == v;
      assert s[0] == EscapeChar(v[0])[0] != '"';
    }
  }

  lemma ParsePrintedString(v: string, rest: string)
    ensures ParseString(PrintString(v) + rest) == Some(Text(v, rest))
  {
    var s := PrintString(v) + rest;
    assert s[0] == '"';
    assert s[1..] == EscapeChars(v) + "\"" + rest;
    ParseEscapedChars(v, rest);
  }

  lemma {:induction false} ParsePrintedMore(vs: seq<string>, rest: string)
    ensures ParseMore(PrintMore(vs) + rest) == Some(Items(vs, rest))
  {
    var s := PrintMore(vs) + rest;
    if vs == [] {
      assert s[0] == ']' && s[1..] == rest;
    } else {
      var tail := PrintMore(vs[1..]) + rest;
      assert s == "," + (PrintString(vs[0]) + tail);
      assert s[0] == ',' && s[1..] == PrintString(vs[0]) + tail;
      assert SkipSpace(s) == s;
      assert s[1..][0] == '"';
      assert SkipSpace(s[1..]) == s[1..];
      ParsePrintedString(vs[0], tail);
      ParsePrintedMore(vs[1..], rest);
      assert [vs[0]] + vs[1..] == vs;
    }
  }

  /** Reading what was printed gives the same list of strings. */
  lemma ParsePrinted(vs: seq<string>)
    ensures ParseStringArray(PrintStringArray(vs)) == Some(vs)
  {
    hide ParseString, ParseMore, PrintMore;
    var s := PrintStringArray(vs);
    assert s[0] == '[';
    assert SkipSpace(s) == s;
    if vs == [] {
      assert s[1..] == "]";
    } else {
      var tail := PrintMore(vs[1..]);
      assert PrintString(vs[0])[0] == '"';
      assert s[1..] == PrintString(vs[0]) + tail;
      assert s[1..][0] == '"';
      assert SkipSpace(s[1..]) == s[1..];
      ParsePrintedString(vs[0], tail);
      ParsePrintedMore(vs[1..], "");
      assert tail + "" == tail;
      assert [vs[0]] + vs[1..] == vs;
    }
  }

  // ----- printed text stays on one line -----

  predicate NoBreaks(s: string) {
    forall i :: 0 <= i < |s| ==> s[i] != '\n' && s[i] != '\r'
  }

  lemma NoBreaksAppend(a: string, b: string)
    requires NoBreaks(a) && NoBreaks(b)
    ensures NoBreaks(a + b)
  {
  }

  lemma {:induction false} EscapedHasNoBreaks(v: string)
    ensures NoBreaks(EscapeChars(v))
  {
    if v != [] {
      EscapedHasNoBreaks(v[1..]);
      assert NoBreaks(EscapeChar(v[0]));
      NoBreaksAppend(EscapeChar(v[0]), EscapeChars(v[1..]));
    }
  }

  lemma {:induction false} PrintedMoreHasNoBreaks(vs: seq<string>)
    ensures NoBreaks(PrintMore(vs))
  {
    if vs != [] {
      EscapedHasNoBreaks(vs[0]);
      PrintedMoreHasNoBreaks(vs[1..]);
      NoBreaksAppend("," + PrintString(vs[0]), PrintMore(vs[1..]));
    }
  }

  lemma PrintedHasNoBreaks(vs: seq<string>)
    ensures NoBreaks(PrintStringArray(vs))
  {
    if vs != [] {
      EscapedHasNoBreaks(vs[0]);
      PrintedMoreHasNoBreaks(vs[1..]);
      NoBreaksAppend("[" + PrintString(vs[0]), PrintMore(vs[1..]));
    }
  }
}
