/** `split` with a one-character separator. */
module Splitting {
  /** A character in front of a list of parts: a separator starts a new part. */
  function Prepend(c: char, parts: seq<string>, separator: char): (r: seq<string>)
    requires parts != []
    ensures r != []
  {
    if c == separator then [[]] + parts else [[c] + parts[0]] + parts[1..]
  }

  function Split(s: string, separator: char): (parts: seq<string>)
    ensures parts != []
  {
    if s == [] then [[]] else Prepend(s[0], Split(s[1..], separator), separator)
  }

  lemma PrependConcat(c: char, a: seq<string>, b: seq<string>, separator: char)
    requires a != []
    ensures Prepend(c, a + b, separator) == Prepend(c, a, separator) + b
  {
    assert (a + b)[0] == a[0] && (a + b)[1..] == a[1..] + b;
  }

  /** A text without the separator is one part. */
  lemma {:induction false} SplitNone(s: string, separator: char)
    requires separator !in s
    ensures Split(s, separator) == [s]
    decreases |s|
  {
    if s != [] {
      SplitNone(s[1..], separator);
      assert [s[0]] + s[1..] == s;
    }
  }

  /** A separator between two texts separates their parts. */
  lemma {:induction false} SplitAround(a: string, b: string, separator: char)
    ensures Split(a + [separator] + b, separator) == Split(a, separator) + Split(b, separator)
    decreases |a|
  {
    hide Prepend;
    var s := a + [separator] + b;
    if a == [] {
      assert s[1..] == b;
      PrependIs(Split(b, separator), separator);
    } else {
      assert s[1..] == a[1..] + [separator] + b;
      SplitAround(a[1..], b, separator);
      PrependConcat(a[0], Split(a[1..], separator), Split(b, separator), separator);
    }
  }

  lemma PrependIs(parts: seq<string>, separator: char)
    requires parts != []
    ensures Prepend(separator, parts, separator) == [[]] + parts
  {
  }

  /** The parts do not contain the separator, nor anything the text did not. */
  lemma {:induction false} PartsOf(s: string, separator: char)
    ensures forall t, c :: t in Split(s, separator) && c in t ==> c != separator && c in s
    decreases |s|
  {
    if s != [] { PartsOf(s[1..], separator); }
  }
}
