/** The texts that RFC 8259 takes for an array of strings, and what they stand for, told
    as a grammar; and that the reader accepts exactly these, with exactly that meaning. */
module JsonGrammar {
  import opened Results
  import opened JsonStrings

  // ----- the grammar -----

  /** One hexadecimal digit, of either case. */
  predicate HexIs(d: char, n: nat) { n < 16 && (d == "0123456789abcdef"[n] || d == "0123456789ABCDEF"[n]) }

  /** `\u` and the four digits of a number. */
  predicate CodeUnit(e: string, n: nat) {
    && |e| == 6 && n < 0x1_0000 && e[0] == '\\' && e[1] == 'u'
    && HexIs(e[2], n / 4096) && HexIs(e[3], n / 256 % 16) && HexIs(e[4], n / 16 % 16) && HexIs(e[5], n % 16)
  }

  /** A character outside the basic plane, as two code units of UTF-16. */
  predicate Pair(e: string, n: nat) {
    && |e| == 12 && 0x1_0000 <= n < 0x11_0000
    && CodeUnit(e[..6], 0xD800 + (n - 0x1_0000) / 0x400) && CodeUnit(e[6..], 0xDC00 + (n - 0x1_0000) % 0x400)
  }

  predicate ShortForm(e: string, c: char) {
    || (e == "\\\"" && c == '"') || (e == "\\\\" && c == '\\') || (e == "\\/" && c == '/')
    || (e == "\\b" && c == 8 as char) || (e == "\\f" && c == 12 as char)
    || (e == "\\n" && c == '\n') || (e == "\\r" && c == '\r') || (e == "\\t" && c == '\t')
  }

  /** `e` is a way to write the character `c` inside a string. */
  predicate Spells(e: string, c: char) {
    || (e == [c] && c >= ' ' && c != '"' && c != '\\')
    || ShortForm(e, c) || CodeUnit(e, c as nat) || Pair(e, c as nat)
  }

  ghost predicate SpellsAll(s: string, v: string)
    decreases |v|
  {
    if v == "" then s == ""
    else exists k :: 0 < k <= |s| && Spells(s[..k], v[0]) && SpellsAll(s[k..], v[1..])
  }

  ghost predicate IsString(s: string, v: string) {
    |s| >= 2 && s[0] == '"' && s[|s| - 1] == '"' && SpellsAll(s[1..|s| - 1], v)
  }

  predicate White(s: string) { forall i :: 0 <= i < |s| ==> s[i] == ' ' || s[i] == '\t' || s[i] == '\n' || s[i] == '\r' }

  /** White space, a string, and what follows it. */
  ghost predicate Element(s: string, w: string, str: string, rest: string, v: string) {
    s == w + str + rest && White(w) && IsString(str, v)
  }

  ghost predicate Elements(s: string, vs: seq<string>)
    requires vs != []
    decreases |vs|, 0
  {
    exists w, str, rest :: Element(s, w, str, rest, vs[0]) && MoreElements(rest, vs[1..])
  }

  /** White space, or white space, a comma, and further elements. */
  ghost predicate MoreElements(s: string, vs: seq<string>)
    decreases |vs|, 1
  {
    if vs == [] then White(s)
    else exists k :: 0 <= k < |s| && White(s[..k]) && s[k] == ',' && Elements(s[k + 1..], vs)
  }

  ghost predicate IsArray(s: string, vs: seq<string>) {
    exists a, inner, b :: ArrayOf(s, a, inner, b) && if vs == [] then White(inner) else Elements(inner, vs)
  }

  predicate ArrayOf(s: string, a: string, inner: string, b: string) {
    s == a + "[" + inner + "]" + b && White(a) && White(b)
  }

  // ----- characters -----

  lemma HexValueIff(d: char, n: nat)
    ensures HexIs(d, n) <==> HexValue(d) == Some(n)
  {
  }

  lemma Digits(a: nat, b: nat, c: nat, d: nat)
    requires a < 16 && b < 16 && c < 16 && d < 16
    ensures var n := a * 4096 + b * 256 + c * 16 + d;
      n < 0x1_0000 && n / 4096 == a && n / 256 % 16 == b && n / 16 % 16 == c && n % 16 == d
  {
    var n := a * 4096 + b * 256 + c * 16 + d;
    assert n / 16 == a * 256 + b * 16 + c && n / 256 == a * 16 + b;
  }

  lemma Number(n: nat)
    ensures n == (n / 4096) * 4096 + (n / 256 % 16) * 256 + (n / 16 % 16) * 16 + n % 16
  {
    assert n / 16 / 16 == n / 256 && n / 256 / 16 == n / 4096;
  }

  lemma Hex4Iff(t: string, n: nat)
    requires |t| >= 4 && n < 0x1_0000
    ensures Hex4(t) == Some(n) <==> HexValue(t[0]) == Some(n / 4096) && HexValue(t[1]) == Some(n / 256 % 16)
                                    && HexValue(t[2]) == Some(n / 16 % 16) && HexValue(t[3]) == Some(n % 16)
  {
    Number(n);
    HexBound(t[0]);
    HexBound(t[1]);
    HexBound(t[2]);
    HexBound(t[3]);
    hide HexValue;
    if Hex4(t) == Some(n) {
      var a, b, c, d := HexValue(t[0]).value, HexValue(t[1]).value, HexValue(t[2]).value, HexValue(t[3]).value;
      assert n == a * 4096 + b * 256 + c * 16 + d;
      Digits(a, b, c, d);
    }
  }

  /** A code unit is read off the text behind `\u`. */
  lemma CodeUnitIff(s: string, n: nat)
    requires |s| >= 6 && s[0] == '\\' && s[1] == 'u'
    ensures CodeUnit(s[..6], n) <==> Hex4(s[2..]) == Some(n)
  {
    var e, t := s[..6], s[2..];
    assert e[2] == t[0] && e[3] == t[1] && e[4] == t[2] && e[5] == t[3];
    if n < 0x1_0000 {
      Hex4Iff(t, n);
      HexValueIff(t[0], n / 4096);
      HexValueIff(t[1], n / 256 % 16);
      HexValueIff(t[2], n / 16 % 16);
      HexValueIff(t[3], n % 16);
      hide Hex4;
    }
    hide HexIs, HexValue;
  }

  lemma HexBound(d: char)
    ensures HexValue(d).Some? ==> HexValue(d).value < 16
  {
  }

  lemma UnitOfCode(s: string, c: char)
    requires |s| >= 6 && CodeUnit(s[..6], c as nat)
    ensures ParseUnit(s) == Some(Unit(c, s[6..]))
  {
    CodeIsChar(c);
    var t := s[2..];
    assert s[..6][0] == s[0] && s[..6][1] == s[1];
    CodeUnitIff(s, c as nat);
    assert t[4..] == s[6..];
    hide Hex4, CodeUnit;
  }

  lemma CodeIsChar(c: char)
    ensures !(0xD800 <= c as nat < 0xE000)
  {
  }

  /** A pair is read as the number its halves make up. */
  lemma PairHalves(e: string, n: nat) returns (high: nat, low: nat)
    requires Pair(e, n)
    ensures |e| == 12 && CodeUnit(e[..6], high) && CodeUnit(e[6..], low)
    ensures 0xD800 <= high < 0xDC00 <= low < 0xE000 && n == 0x1_0000 + (high - 0xD800) * 0x400 + (low - 0xDC00)
  {
    hide CodeUnit;
    high, low := 0xD800 + (n - 0x1_0000) / 0x400, 0xDC00 + (n - 0x1_0000) % 0x400;
    PairNumber(n);
  }

  lemma PairOf(e: string, n: nat, high: nat, low: nat)
    requires |e| == 12 && CodeUnit(e[..6], high) && CodeUnit(e[6..], low)
    requires 0xD800 <= high < 0xDC00 <= low < 0xE000 && n == 0x1_0000 + (high - 0xD800) * 0x400 + (low - 0xDC00)
    ensures Pair(e, n)
  {
    hide CodeUnit;
    PairNumberBack(high, low);
  }

  /** Read as one code unit. */
  predicate OneUnit(t: string, u: Unit) { Hex4(t) == Some(u.c as nat) && u.rest == t[4..] }

  /** Read as a pair of them. */
  predicate TwoUnits(t: string, u: Unit) {
    && |t| >= 10 && Hex4(t).Some? && t[4] == '\\' && t[5] == 'u' && Hex4(t[6..]).Some? && u.rest == t[10..]
    && var high, low := Hex4(t).value, Hex4(t[6..]).value;
       0xD800 <= high < 0xDC00 <= low < 0xE000 && u.c as nat == 0x1_0000 + (high - 0xD800) * 0x400 + (low - 0xDC00)
  }

  lemma TwoUnitsRead(t: string, u: Unit)
    requires TwoUnits(t, u)
    ensures UnicodeEscape(t) == Some(u)
  {
    hide Hex4;
  }

  lemma EscapeRead(s: string)
    requires |s| >= 2 && s[0] == '\\' && s[1] == 'u'
    ensures ParseUnit(s) == UnicodeEscape(s[2..])
  {
    hide UnicodeEscape;
  }

  lemma UnitOfPair(s: string, c: char)
    requires |s| >= 12 && Pair(s[..12], c as nat)
    ensures ParseUnit(s) == Some(Unit(c, s[12..]))
  {
    var high, low := PairHalves(s[..12], c as nat);
    hide Pair, Hex4, ParseUnit, UnicodeEscape;
    var t, u := s[2..], s[6..];
    assert s[..12][..6] == s[..6] && s[..12][6..] == u[..6];
    CodeStarts(s[..6], high);
    CodeStarts(u[..6], low);
    assert s[..6][0] == s[0] && s[..6][1] == s[1] && u[..6][0] == u[0] && u[..6][1] == u[1];
    CodeUnitIff(s, high);
    CodeUnitIff(u, low);
    hide CodeUnit;
    assert t[4] == '\\' && t[5] == 'u' && t[6..] == u[2..] && t[10..] == s[12..];
    EscapeRead(s);
    TwoUnitsRead(t, Unit(c, s[12..]));
  }

  lemma CodeStarts(e: string, n: nat)
    requires CodeUnit(e, n)
    ensures |e| == 6 && e[0] == '\\' && e[1] == 'u'
  {
  }

  lemma PairNumber(n: nat)
    requires 0x1_0000 <= n < 0x11_0000
    ensures var k := n - 0x1_0000;
      0xD800 <= 0xD800 + k / 0x400 < 0xDC00 <= 0xDC00 + k % 0x400 < 0xE000 && 0x1_0000 + k / 0x400 * 0x400 + k % 0x400 == n
  {
  }

  lemma PairNumberBack(high: nat, low: nat)
    requires 0xD800 <= high < 0xDC00 <= low < 0xE000
    ensures var n := 0x1_0000 + (high - 0xD800) * 0x400 + (low - 0xDC00);
      0x1_0000 <= n < 0x11_0000 && high == 0xD800 + (n - 0x1_0000) / 0x400 && low == 0xDC00 + (n - 0x1_0000) % 0x400
  {
  }

  lemma UnitOfShort(e: string, c: char, rest: string)
    requires ShortForm(e, c)
    ensures ParseUnit(e + rest) == Some(Unit(c, rest))
  {
    assert |e| == 2 && e[0] == '\\' && e[1] != 'u';
    assert (e + rest)[0] == e[0] && (e + rest)[1] == e[1] && (e + rest)[2..] == rest;
  }

  /** However a character is spelled, it is read. */
  lemma SpelledUnit(e: string, c: char, rest: string)
    requires Spells(e, c)
    ensures ParseUnit(e + rest) == Some(Unit(c, rest)) && e != "" && e[0] != '"'
  {
    hide CodeUnit, Hex4, UnicodeEscape;
    var s := e + rest;
    assert s[..|e|] == e && s[|e|..] == rest;
    if ShortForm(e, c) {
      UnitOfShort(e, c, rest);
    } else if CodeUnit(e, c as nat) {
      CodeStarts(e, c as nat);
      UnitOfCode(s, c);
    } else if Pair(e, c as nat) {
      CodeStarts(e[..6], 0xD800 + (c as nat - 0x1_0000) / 0x400);
      UnitOfPair(s, c);
    }
  }

  /** What was read, was spelled that way. */
  lemma UnitSpelled(s: string) returns (e: string)
    requires ParseUnit(s).Some?
    ensures s == e + ParseUnit(s).value.rest && Spells(e, ParseUnit(s).value.c)
  {
    hide CodeUnit, Hex4, UnicodeEscape;
    var u := ParseUnit(s).value;
    e := s[..|s| - |u.rest|];
    if s[0] != '\\' {
      assert e == [s[0]];
    } else if s[1] == 'u' {
      EscapeSpelled(s);
    } else {
      ShortSpelled(s);
    }
  }

  lemma ShortSpelled(s: string)
    requires |s| >= 2 && s[0] == '\\' && s[1] != 'u' && ParseUnit(s).Some?
    ensures ParseUnit(s).value.rest == s[2..] && ShortForm(s[..2], ParseUnit(s).value.c)
  {
    assert s[..2] == [s[0], s[1]];
  }

  lemma EscapeCases(t: string)
    requires UnicodeEscape(t).Some?
    ensures OneUnit(t, UnicodeEscape(t).value) || TwoUnits(t, UnicodeEscape(t).value)
  {
    if |t| >= 6 { assert |t[6..]| == |t| - 6; }
  }

  lemma OneSpelled(s: string, u: Unit)
    requires |s| >= 2 && s[0] == '\\' && s[1] == 'u' && OneUnit(s[2..], u)
    ensures |s| >= 6 && u.rest == s[6..] && Spells(s[..6], u.c)
  {
    CodeUnitIff(s, u.c as nat);
    hide CodeUnit;
  }

  lemma TwoSpelled(s: string, u: Unit)
    requires |s| >= 2 && s[0] == '\\' && s[1] == 'u' && TwoUnits(s[2..], u)
    ensures |s| >= 12 && u.rest == s[12..] && Spells(s[..12], u.c)
  {
    var t, v := s[2..], s[6..];
    var high, low := Hex4(t).value, Hex4(t[6..]).value;
    hide Hex4;
    assert v[2..] == t[6..] && v[0] == t[4] && v[1] == t[5] && t[10..] == s[12..];
    CodeUnitIff(s, high);
    CodeUnitIff(v, low);
    hide CodeUnit, ShortForm, Pair;
    assert s[..12][..6] == s[..6] && s[..12][6..] == v[..6];
    PairOf(s[..12], u.c as nat, high, low);
  }

  lemma EscapeSpelled(s: string)
    requires |s| >= 2 && s[0] == '\\' && s[1] == 'u' && ParseUnit(s).Some?
    ensures var u := ParseUnit(s).value;
      && |s| >= |u.rest| && s == s[..|s| - |u.rest|] + u.rest && Spells(s[..|s| - |u.rest|], u.c)
  {
    var u := ParseUnit(s).value;
    assert UnicodeEscape(s[2..]) == Some(u);
    EscapeCases(s[2..]);
    hide UnicodeEscape, Spells;
    if OneUnit(s[2..], u) { OneSpelled(s, u); } else { TwoSpelled(s, u); }
    hide OneUnit, TwoUnits;
  }

  /** Printing spells every character, in the shortest way there is. */
  lemma ShortestSpelling(c: char, e: string)
    requires Spells(e, c)
    ensures Spells(EscapeChar(c), c) && |EscapeChar(c)| <= |e|
  {
    if c < ' ' && |EscapeChar(c)| == 6 { ControlSpelled(c); }
    hide CodeUnit, Pair;
    if CodeUnit(e, c as nat) { CodeStarts(e, c as nat); }
    if Pair(e, c as nat) { PairLength(e, c as nat); }
  }

  lemma PairLength(e: string, n: nat)
    requires Pair(e, n)
    ensures |e| == 12
  {
  }

  lemma ControlSpelled(c: char)
    requires c < ' ' && |EscapeChar(c)| == 6
    ensures CodeUnit(EscapeChar(c), c as nat)
  {
    var n := c as nat;
    assert EscapeChar(c) == "\\u00" + [HexDigit(n / 16), HexDigit(n % 16)];
    HexDigitValue(n / 16);
    HexDigitValue(n % 16);
    HexValueIff(HexDigit(n / 16), n / 16);
    HexValueIff(HexDigit(n % 16), n % 16);
    hide HexIs, HexValue, HexDigit;
    assert n / 4096 == 0 && n / 256 % 16 == 0 && n / 16 % 16 == n / 16;
    ZeroDigit();
  }

  lemma ZeroDigit()
    ensures HexIs('0', 0)
  {
  }

  // ----- strings -----

  lemma CharsNext(s: string)
    requires s != "" && s[0] != '"'
    ensures ParseChars(s) == match ParseUnit(s)
      case None => None
      case Some(u) => match ParseChars(u.rest)
        case None => None
        case Some(t) => Some(Text([u.c] + t.value, t.rest))
  {
    hide ParseUnit;
  }

  lemma CharsEnd(rest: string)
    ensures ParseChars("\"" + rest) == Some(Text("", rest))
  {
    assert ("\"" + rest)[1..] == rest;
  }

  lemma {:induction false} SpelledChars(body: string, v: string, rest: string)
    requires SpellsAll(body, v)
    ensures ParseChars(body + "\"" + rest) == Some(Text(v, rest))
    decreases |v|
  {
    hide Spells, ParseUnit, ParseChars;
    if v == "" {
      assert body + "\"" + rest == "\"" + rest;
      CharsEnd(rest);
    } else {
      var k :| 0 < k <= |body| && Spells(body[..k], v[0]) && SpellsAll(body[k..], v[1..]);
      var tail := body[k..] + "\"" + rest;
      assert body + "\"" + rest == body[..k] + tail;
      SpelledUnit(body[..k], v[0], tail);
      SpelledChars(body[k..], v[1..], rest);
      CharsNext(body[..k] + tail);
      assert [v[0]] + v[1..] == v;
    }
  }

  lemma {:induction false} CharsSpelled(s: string) returns (body: string)
    requires ParseChars(s).Some?
    ensures var t := ParseChars(s).value; s == body + "\"" + t.rest && SpellsAll(body, t.value)
    decreases |s|
  {
    hide Spells, ParseUnit;
    if s[0] == '"' {
      body := "";
      assert s == [s[0]] + s[1..];
    } else {
      CharsNext(s);
      var u := ParseUnit(s).value;
      var e := UnitSpelled(s);
      var more := CharsSpelled(u.rest);
      SomeSpelling(e, u.c);
      body := e + more;
      SpellsNext(e, u.c, more, ParseChars(u.rest).value.value);
      assert e + (more + "\"" + ParseChars(u.rest).value.rest) == body + "\"" + ParseChars(u.rest).value.rest;
    }
  }

  lemma SomeSpelling(e: string, c: char)
    requires Spells(e, c)
    ensures e != ""
  {
  }

  lemma SpellsNext(e: string, c: char, more: string, v: string)
    requires e != "" && Spells(e, c) && SpellsAll(more, v)
    ensures SpellsAll(e + more, [c] + v)
  {
    hide Spells;
    var s, k := e + more, |e|;
    assert s[..k] == e && s[k..] == more && ([c] + v)[1..] == v;
  }

  /** A string is read off the front of a text, and stands for what it spells. */
  lemma StringRead(str: string, v: string, rest: string)
    requires IsString(str, v)
    ensures ParseString(str + rest) == Some(Text(v, rest)) && str[0] == '"'
  {
    hide ParseChars, SpellsAll;
    var body := str[1..|str| - 1];
    assert (str + rest)[1..] == body + "\"" + rest;
    SpelledChars(body, v, rest);
  }

  lemma StringWritten(s: string) returns (str: string)
    requires ParseString(s).Some?
    ensures s == str + ParseString(s).value.rest && IsString(str, ParseString(s).value.value)
  {
    hide ParseChars, SpellsAll;
    var body := CharsSpelled(s[1..]);
    str := "\"" + body + "\"";
    assert str[1..|str| - 1] == body;
    assert s == [s[0]] + s[1..];
  }

  // ----- arrays -----

  lemma {:induction false} SkipWhite(w: string, s: string)
    requires White(w) && (s == "" || !IsSpace(s[0]))
    ensures SkipSpace(w + s) == s
    decreases |w|
  {
    if w == "" {
      assert w + s == s;
    } else {
      assert (w + s)[1..] == w[1..] + s;
      SkipWhite(w[1..], s);
    }
  }

  lemma {:induction false} SkippedWhite(s: string) returns (w: string)
    ensures s == w + SkipSpace(s) && White(w)
    ensures SkipSpace(s) == "" || !IsSpace(SkipSpace(s)[0])
    decreases |s|
  {
    w := "";
    if s != "" && IsSpace(s[0]) {
      var more := SkippedWhite(s[1..]);
      w := [s[0]] + more;
      assert s == [s[0]] + s[1..];
    }
  }

  /** The elements up to the closing bracket are read. */
  lemma {:induction false} ElementsRead(s: string, vs: seq<string>, rest: string) returns (w: string, front: string, more: string)
    requires vs != [] && Elements(s, vs)
    ensures s == w + front + more && White(w) && IsString(front, vs[0])
    ensures ParseMore(more + "]" + rest) == Some(Items(vs[1..], rest))
    decreases |vs|, 0
  {
    hide IsString, ParseMore, White;
    w, front, more :| Element(s, w, front, more, vs[0]) && MoreElements(more, vs[1..]);
    MoreRead(more, vs[1..], rest);
  }

  lemma {:induction false} MoreRead(s: string, vs: seq<string>, rest: string)
    requires MoreElements(s, vs)
    ensures ParseMore(s + "]" + rest) == Some(Items(vs, rest))
    decreases |vs|, 1
  {
    hide IsString, ParseString, Elements;
    if vs == [] {
      assert s + "]" + rest == s + ("]" + rest) && ("]" + rest)[1..] == rest;
      SkipWhite(s, "]" + rest);
    } else {
      var k :| 0 <= k < |s| && White(s[..k]) && s[k] == ',' && Elements(s[k + 1..], vs);
      var w, str, more := ElementsRead(s[k + 1..], vs, rest);
      var tail := more + "]" + rest;
      StringRead(str, vs[0], tail);
      var after := str + tail;
      CommaRead(s, k, w, str, more, rest);
      MoreNext(s + "]" + rest, after);
      assert [vs[0]] + vs[1..] == vs;
    }
  }

  lemma CommaRead(s: string, k: nat, w: string, str: string, more: string, rest: string)
    requires k < |s| && White(s[..k]) && s[k] == ',' && s[k + 1..] == w + str + more && White(w) && str != "" && str[0] == '"'
    ensures var t := SkipSpace(s + "]" + rest);
      t != "" && t[0] == ',' && SkipSpace(t[1..]) == str + (more + "]" + rest)
  {
    NoSpace();
    hide SkipSpace, White, IsSpace;
    var after := str + (more + "]" + rest);
    var t := "," + (w + after);
    assert s == s[..k] + [s[k]] + s[k + 1..];
    assert s + "]" + rest == s[..k] + t;
    assert t[1..] == w + after && after[0] == '"';
    SkipWhite(s[..k], t);
    SkipWhite(w, after);
  }

  lemma NoSpace()
    ensures !IsSpace(',') && !IsSpace('"')
  {
  }

  /** One turn of the reader behind a comma. */
  lemma MoreNext(s: string, after: string)
    requires var t := SkipSpace(s); t != "" && t[0] == ',' && SkipSpace(t[1..]) == after
    ensures ParseMore(s) == match ParseString(after)
      case None => None
      case Some(t) => match ParseMore(t.rest)
        case None => None
        case Some(m) => Some(Items([t.value] + m.values, m.rest))
  {
    hide ParseString, SkipSpace;
  }

  /** What was read as elements is that, and a closing bracket. */
  lemma {:induction false} MoreWritten(s: string) returns (m: string)
    requires ParseMore(s).Some?
    ensures s == m + "]" + ParseMore(s).value.rest && MoreElements(m, ParseMore(s).value.values)
    decreases |s|
  {
    hide IsString, ParseString, Elements, White;
    var w := SkippedWhite(s);
    var t := SkipSpace(s);
    hide SkipSpace;
    if t[0] == ']' {
      m := w;
      assert t == [t[0]] + t[1..];
    } else {
      var v := SkippedWhite(t[1..]);
      var after := SkipSpace(t[1..]);
      MoreNext(s, after);
      var first := ParseString(after).value;
      var str := StringWritten(after);
      var more := MoreWritten(first.rest);
      var vs := ParseMore(first.rest).value.values;
      var inner := v + str + more;
      OneElement(inner, v, str, more, first.value, vs);
      m := w + "," + inner;
      assert m[..|w|] == w && m[|w| + 1..] == inner;
      assert [first.value] + vs != [];
      assert MoreElements(m, [first.value] + vs);
      Reassemble(s, w, t, v, str, more, ParseMore(first.rest).value.rest);
    }
  }

  lemma OneElement(s: string, w: string, str: string, rest: string, v: string, vs: seq<string>)
    requires Element(s, w, str, rest, v) && MoreElements(rest, vs)
    ensures Elements(s, [v] + vs)
  {
    hide IsString, White, Element;
    assert ([v] + vs)[0] == v && ([v] + vs)[1..] == vs;
    assert Element(s, w, str, rest, ([v] + vs)[0]);
  }

  lemma Reassemble(s: string, w: string, t: string, v: string, str: string, more: string, rest: string)
    requires s == w + t && t != "" && t[0] == ',' && t[1..] == v + (str + (more + "]" + rest))
    ensures s == (w + "," + (v + str + more)) + "]" + rest
  {
    assert t == [t[0]] + t[1..];
  }

  // ----- whole documents -----

  lemma ItemsRead(inner: string, vs: seq<string>, rest: string)
    requires if vs == [] then White(inner) else Elements(inner, vs)
    ensures ParseItems(inner + "]" + rest) == Some(Items(vs, rest))
  {
    hide ParseMore, ParseString, Elements, IsString, White;
    if vs == [] {
      assert inner + "]" + rest == inner + ("]" + rest) && ("]" + rest)[1..] == rest;
      SkipWhite(inner, "]" + rest);
    } else {
      var w, str, more := ElementsRead(inner, vs, rest);
      var after := str + (more + "]" + rest);
      StringRead(str, vs[0], more + "]" + rest);
      assert inner + "]" + rest == w + after && after[0] == '"';
      SkipWhite(w, after);
      hide SkipSpace;
      assert [vs[0]] + vs[1..] == vs;
    }
  }

  lemma ArrayRead(s: string, vs: seq<string>)
    requires IsArray(s, vs)
    ensures ParseStringArray(s) == Some(vs)
  {
    hide ParseItems, Elements;
    var a, inner, b :| ArrayOf(s, a, inner, b) && if vs == [] then White(inner) else Elements(inner, vs);
    var t := inner + "]" + b;
    assert s == a + ("[" + t) && ("[" + t)[1..] == t;
    SkipWhite(a, "[" + t);
    assert b + "" == b;
    SkipWhite(b, "");
    ItemsRead(inner, vs, b);
    hide SkipSpace;
  }

  lemma ItemsWritten(s: string) returns (inner: string)
    requires ParseItems(s).Some?
    ensures var m := ParseItems(s).value;
      s == inner + "]" + m.rest && if m.values == [] then White(inner) else Elements(inner, m.values)
  {
    hide ParseMore, ParseString, Elements, IsString, White;
    var w := SkippedWhite(s);
    var t := SkipSpace(s);
    hide SkipSpace;
    if t != "" && t[0] == ']' {
      inner := w;
      assert t == [t[0]] + t[1..];
    } else {
      var first := ParseString(t).value;
      var str := StringWritten(t);
      var more := MoreWritten(first.rest);
      inner := w + str + more;
      OneElement(inner, w, str, more, first.value, ParseMore(first.rest).value.values);
      assert s == inner + "]" + ParseMore(first.rest).value.rest;
    }
  }

  lemma ArrayWritten(s: string)
    requires ParseStringArray(s).Some?
    ensures IsArray(s, ParseStringArray(s).value)
  {
    hide ParseItems, Elements, White;
    var a := SkippedWhite(s);
    var t := SkipSpace(s);
    var inner := ItemsWritten(t[1..]);
    var m := ParseItems(t[1..]).value;
    var b := SkippedWhite(m.rest);
    hide SkipSpace, ParseStringArray;
    assert m.rest == b by { assert b + "" == b; }
    Bracketed(s, a, t, inner, b);
  }

  lemma Bracketed(s: string, a: string, t: string, inner: string, b: string)
    requires s == a + t && t != "" && t[0] == '[' && t[1..] == inner + "]" + b && White(a) && White(b)
    ensures ArrayOf(s, a, inner, b)
  {
    hide White;
    assert t == [t[0]] + t[1..];
  }

  /** The reader accepts exactly the texts of the grammar, and takes them for what they
      stand for; so a text stands for one list at most. */
  lemma ReadIff(s: string, vs: seq<string>)
    ensures ParseStringArray(s) == Some(vs) <==> IsArray(s, vs)
  {
    hide ParseStringArray, IsArray;
    if ParseStringArray(s) == Some(vs) { ArrayWritten(s); }
    if IsArray(s, vs) { ArrayRead(s, vs); }
  }
}
