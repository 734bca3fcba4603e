/** The keys under which instance writes are coordinated: paths in a normal form. */
module InstancePaths {
  import opened Splitting

  type Segments = seq<string>

  // ----- text -----

  /** `replaceAll("\\", "/")`. */
  function Slashed(path: string): (s: string)
    ensures |s| == |path|
    ensures forall i :: 0 <= i < |path| ==> s[i] == if path[i] == '\\' then '/' else path[i]
  {
    if path == [] then [] else [if path[0] == '\\' then '/' else path[0]] + Slashed(path[1..])
  }

  /** `join("/")`. */
  function Join(parts: Segments): string {
    if parts == [] then "" else if |parts| == 1 then parts[0] else parts[0] + "/" + Join(parts[1..])
  }

  predicate EndsWith(s: string, suffix: string) { |s| >= |suffix| && s[|s| - |suffix|..] == suffix }

  // ----- normalisation -----

  predicate Drive(segment: string) { EndsWith(segment, ":") }

  /** How many leading parts `..` cannot remove. */
  function Floor(parts: Segments): nat { if parts != [] && Drive(parts[0]) then 1 else 0 }

  predicate Ignored(segment: string) { segment == "" || segment == "." }

  /** One segment of the path. */
  function Step(absolute: bool, parts: Segments, segment: string): Segments {
    if Ignored(segment) then parts
    else if segment != ".." then parts + [segment]
    else StepUp(absolute, parts)
  }

  function StepUp(absolute: bool, parts: Segments): Segments {
    if |parts| > Floor(parts) && parts[|parts| - 1] != ".." then parts[..|parts| - 1]
    else if !absolute && Floor(parts) == 0 then parts + [".."]
    else parts
  }

  function Walk(absolute: bool, parts: Segments, segments: Segments): Segments
    decreases |segments|
  {
    if segments == [] then parts else Walk(absolute, Step(absolute, parts, segments[0]), segments[1..])
  }

  predicate Absolute(path: string) { path != [] && (path[0] == '/' || path[0] == '\\') }

  function Parts(path: string): Segments { Walk(Absolute(path), [], Split(Slashed(path), '/')) }

  function Render(absolute: bool, parts: Segments): string {
    if absolute then "/" + Join(parts) else if parts == [] then "." else Join(parts)
  }

  function Normal(path: string): string { Render(Absolute(path), Parts(path)) }

  method NormalizedPath(path: string) returns (r: string)
    ensures r == Normal(path)
  {
    hide Walk, Step, Split, Slashed;
    var slashPath := Slashed(path);
    var absolute := slashPath != [] && slashPath[0] == '/';
    SlashedStart(path);
    var segments := Split(slashPath, '/');
    var parts: Segments := [];
    for i := 0 to |segments|
      invariant Walk(absolute, parts, segments[i..]) == Parts(path)
    {
      var segment := segments[i];
      WalkNext(absolute, parts, segments[i..]);
      assert segments[i..][1..] == segments[i + 1..];
      StepIs(absolute, parts, segment);
      if segment == "" || segment == "." { continue; }
      if segment == ".." {
        var driveFloor := if parts != [] && EndsWith(parts[0], ":") then 1 else 0;
        if |parts| > driveFloor && parts[|parts| - 1] != ".." {
          parts := parts[..|parts| - 1];
        } else if !absolute && driveFloor == 0 {
          parts := parts + [segment];
        }
        continue;
      }
      parts := parts + [segment];
    }
    WalkEnd(absolute, parts);
    PartsCanonical(path);
    var normalized := Join(parts);
    if absolute {
      var rooted := "/" + normalized;
      RootedEnd(absolute, parts);
      var trimmed := if EndsWith(rooted, "/") then rooted[..|rooted| - 1] else rooted;
      return if trimmed == "" then "/" else trimmed;
    }
    JoinEmpty(absolute, parts);
    return if normalized == "" then "." else normalized;
  }

  function InstanceMutationKey(directory: string, id: string): string { Normal(directory) + "/" + id }

  const GAME := "/.minecraft"

  function InstanceMutationKeyFromGameDirectory(directory: string): string {
    var normalized := Normal(directory);
    if EndsWith(normalized, GAME) then normalized[..|normalized| - |GAME|] else normalized
  }

  // ----- the loop's steps -----

  lemma SlashedStart(path: string)
    ensures Absolute(path) <==> Slashed(path) != [] && Slashed(path)[0] == '/'
  {
  }

  lemma WalkNext(absolute: bool, parts: Segments, segments: Segments)
    requires segments != []
    ensures Walk(absolute, parts, segments) == Walk(absolute, Step(absolute, parts, segments[0]), segments[1..])
  {
  }

  lemma WalkEnd(absolute: bool, parts: Segments)
    ensures Walk(absolute, parts, []) == parts
  {
  }

  lemma StepIs(absolute: bool, parts: Segments, segment: string)
    ensures Ignored(segment) ==> Step(absolute, parts, segment) == parts
    ensures !Ignored(segment) && segment != ".." ==> Step(absolute, parts, segment) == parts + [segment]
    ensures segment == ".." ==> Step(absolute, parts, segment) == StepUp(absolute, parts)
  {
  }

  // ----- the normal form -----

  /** A segment that stays: not empty, not `.`, and without a slash of either kind. */
  predicate Clean(segment: string) { !Ignored(segment) && '/' !in segment && '\\' !in segment }

  /** Clean segments, with `..` only at the start, and not in a rooted path. */
  predicate Canonical(absolute: bool, parts: Segments) {
    && (forall i :: 0 <= i < |parts| ==> Clean(parts[i]))
    && (forall i :: 0 <= i < |parts| && parts[i] == ".." ==> !absolute && forall j :: 0 <= j < i ==> parts[j] == "..")
  }

  lemma StepCanonical(absolute: bool, parts: Segments, segment: string)
    requires Canonical(absolute, parts)
    requires '/' !in segment && '\\' !in segment
    ensures Canonical(absolute, Step(absolute, parts, segment))
  {
    var next := Step(absolute, parts, segment);
    if segment == ".." && next == parts + [segment] {
      assert |parts| > 0 ==> parts[|parts| - 1] == "..";
    }
  }

  lemma {:induction false} WalkCanonical(absolute: bool, parts: Segments, segments: Segments)
    requires Canonical(absolute, parts)
    requires forall s :: s in segments ==> '/' !in s && '\\' !in s
    ensures Canonical(absolute, Walk(absolute, parts, segments))
    decreases |segments|
  {
    hide Canonical, Step;
    if segments != [] {
      StepCanonical(absolute, parts, segments[0]);
      WalkCanonical(absolute, Step(absolute, parts, segments[0]), segments[1..]);
    }
  }

  lemma PartsCanonical(path: string)
    ensures Canonical(Absolute(path), Parts(path))
  {
    PartsOf(Slashed(path), '/');
    WalkCanonical(Absolute(path), [], Split(Slashed(path), '/'));
  }

  /** Walking canonical segments keeps them all. */
  lemma {:induction false} CanonicalStays(absolute: bool, done: Segments, rest: Segments)
    requires Canonical(absolute, done + rest)
    ensures Walk(absolute, done, rest) == done + rest
    decreases |rest|
  {
    hide Walk;
    if rest == [] {
      WalkEnd(absolute, done);
      assert done + rest == done;
    } else {
      var all := done + rest;
      assert all[|done|] == rest[0] && Clean(all[|done|]);
      if rest[0] == ".." {
        assert forall j :: 0 <= j < |done| ==> all[j] == done[j] == "..";
      }
      assert Step(absolute, done, rest[0]) == done + [rest[0]];
      WalkNext(absolute, done, rest);
      assert done + [rest[0]] + rest[1..] == all;
      CanonicalStays(absolute, done + [rest[0]], rest[1..]);
    }
  }

  lemma {:induction false} SplitJoined(parts: Segments)
    requires parts != [] && forall i :: 0 <= i < |parts| ==> '/' !in parts[i]
    ensures Split(Join(parts), '/') == parts
    decreases |parts|
  {
    SplitNone(parts[0], '/');
    if |parts| == 1 {
      assert parts == [parts[0]];
    } else {
      SplitJoined(parts[1..]);
      SplitAround(parts[0], Join(parts[1..]), '/');
      assert [parts[0]] + parts[1..] == parts;
    }
  }

  lemma {:induction false} JoinClean(parts: Segments)
    requires forall i :: 0 <= i < |parts| ==> Clean(parts[i])
    ensures '\\' !in Join(parts)
    ensures parts != [] ==> Join(parts) != "" && Join(parts)[0] != '/' && Join(parts)[|Join(parts)| - 1] != '/'
    decreases |parts|
  {
    if |parts| > 1 { JoinClean(parts[1..]); }
  }

  lemma JoinEmpty(absolute: bool, parts: Segments)
    requires Canonical(absolute, parts)
    ensures Join(parts) == "" <==> parts == []
  {
    JoinClean(parts);
  }

  lemma RootedEnd(absolute: bool, parts: Segments)
    requires Canonical(absolute, parts)
    ensures EndsWith("/" + Join(parts), "/") <==> parts == []
  {
    JoinClean(parts);
    var rooted := "/" + Join(parts);
    assert rooted[|rooted| - 1..] == [rooted[|rooted| - 1]];
  }

  lemma {:induction false} SlashedKeeps(s: string)
    requires '\\' !in s
    ensures Slashed(s) == s
  {
  }

  /** The normal form of canonical parts is made of those parts. */
  lemma RenderedParts(absolute: bool, parts: Segments)
    requires Canonical(absolute, parts)
    ensures Absolute(Render(absolute, parts)) == absolute && Parts(Render(absolute, parts)) == parts
  {
    hide Canonical, Step, Split;
    var r := Render(absolute, parts);
    assert forall i :: 0 <= i < |parts| ==> Clean(parts[i]) by { CanonicalParts(absolute, parts); }
    JoinClean(parts);
    SlashedKeeps(r);
    assert [] + parts == parts;
    CanonicalStays(absolute, [], parts);
    if absolute {
      SplitAround("", Join(parts), '/');
      assert "" + "/" + Join(parts) == r;
      SplitEmpty();
    } else {
      SplitEmpty();
    }
    if parts != [] { SplitJoined(parts); }
    Ignoring(absolute, parts);
  }

  lemma CanonicalParts(absolute: bool, parts: Segments)
    requires Canonical(absolute, parts)
    ensures forall i :: 0 <= i < |parts| ==> Clean(parts[i])
  {
  }

  lemma SplitEmpty()
    ensures Split("", '/') == [""] && Split(".", '/') == ["."]
  {
    SplitNone(".", '/');
  }

  /** Empty segments and `.` change nothing. */
  lemma Ignoring(absolute: bool, segments: Segments)
    ensures Walk(absolute, [], [""] + segments) == Walk(absolute, [], segments)
    ensures Walk(absolute, [], [""] + [""]) == [] && Walk(absolute, [], ["."]) == []
  {
    assert ([""] + segments)[1..] == segments;
    assert ([""] + [""])[1..] == [""] && [""][1..] == [] && ["."][1..] == [];
    hide Step;
    StepIs(absolute, [], "");
    StepIs(absolute, [], ".");
    WalkNext(absolute, [], [""] + [""]);
    WalkNext(absolute, [], [""]);
  }

  /** Normalising is idempotent. */
  lemma NormalIdempotent(path: string)
    ensures Normal(Normal(path)) == Normal(path)
  {
    PartsCanonical(path);
    hide Parts, Canonical, Render;
    RenderedParts(Absolute(path), Parts(path));
  }

  // ----- what does not change the normal form -----

  lemma SlashedConcat(a: string, b: string)
    ensures Slashed(a + b) == Slashed(a) + Slashed(b)
  {
  }

  /** Slash style: only the slashed text counts. */
  lemma SlashStyle(p: string, q: string)
    requires Slashed(p) == Slashed(q)
    ensures Normal(p) == Normal(q)
  {
    SlashedStart(p);
    SlashedStart(q);
    hide Slashed, Absolute;
  }

  lemma {:induction false} WalkConcat(absolute: bool, parts: Segments, a: Segments, b: Segments)
    ensures Walk(absolute, parts, a + b) == Walk(absolute, Walk(absolute, parts, a), b)
    decreases |a|
  {
    hide Step;
    if a == [] {
      assert a + b == b;
    } else {
      assert (a + b)[1..] == a[1..] + b;
      WalkConcat(absolute, Step(absolute, parts, a[0]), a[1..], b);
    }
  }

  /** Whether a path that continues after `a` and a slash is absolute. */
  predicate Rooted(a: string) { a == [] || Absolute(a) }

  /** The parts that `a` contributes to a path that continues after it. */
  function Before(a: string): Segments { Walk(Rooted(a), [], Split(Slashed(a), '/')) }

  /** The segments before a slash, then those after it. */
  lemma PartsAround(a: string, b: string)
    ensures Absolute(a + "/" + b) == Rooted(a)
    ensures Parts(a + "/" + b) == Walk(Rooted(a), Before(a), Split(Slashed(b), '/'))
  {
    hide Walk, Split, Slashed;
    SlashedConcat(a + "/", b);
    SlashedConcat(a, "/");
    OneSlash();
    SplitAround(Slashed(a), Slashed(b), '/');
    WalkConcat(Rooted(a), [], Split(Slashed(a), '/'), Split(Slashed(b), '/'));
  }

  lemma OneSlash()
    ensures Slashed("/") == "/"
  {
  }

  /** A stretch of path that leaves the parts before it as they are can be cut out. */
  lemma CutOut(a: string, m: string, b: string)
    requires Walk(Rooted(a), Before(a), Split(Slashed(m), '/')) == Before(a)
    ensures Normal(a + "/" + m + "/" + b) == Normal(a + "/" + b)
  {
    hide Walk, Split, Slashed, Absolute;
    PartsAfter(a, m, b);
    PartsAround(a, b);
  }

  lemma OneSegment(segment: string)
    requires '/' !in segment && '\\' !in segment
    ensures Split(Slashed(segment), '/') == [segment]
  {
    SlashedKeeps(segment);
    SplitNone(segment, '/');
  }

  lemma WalkOne(absolute: bool, parts: Segments, segment: string)
    ensures Walk(absolute, parts, [segment]) == Step(absolute, parts, segment)
  {
    assert [segment][1..] == [];
  }

  /** A repeated slash between two segments, or in front of the first one. */
  lemma RepeatedSlash(a: string, b: string)
    ensures Normal(a + "/" + "" + "/" + b) == Normal(a + "/" + b)
  {
    OneSegment("");
    WalkOne(Rooted(a), Before(a), "");
    CutOut(a, "", b);
  }

  /** `.` between two slashes. */
  lemma DotSegment(a: string, b: string)
    ensures Normal(a + "/" + "." + "/" + b) == Normal(a + "/" + b)
  {
    OneSegment(".");
    WalkOne(Rooted(a), Before(a), ".");
    CutOut(a, ".", b);
  }

  /** What follows a last slash can be left out together with it when it changes no
      part, unless the slash is all that makes the path absolute. */
  lemma CutEnd(a: string, m: string)
    requires Walk(Rooted(a), Before(a), Split(Slashed(m), '/')) == Before(a)
    ensures Normal(a + "/" + m) == Normal(a) <==> a != ""
  {
    hide Split, Slashed;
    PartsAround(a, m);
    if a == "" {
      SlashedKeeps("");
      SplitEmpty();
      WalkOne(false, [], "");
      WalkOne(true, [], "");
      assert Normal(a) == "." && Normal(a + "/" + m) == "/";
    }
  }

  /** A slash at the end. */
  lemma TrailingSlash(a: string)
    ensures Normal(a + "/" + "") == Normal(a) <==> a != ""
  {
    OneSegment("");
    WalkOne(Rooted(a), Before(a), "");
    CutEnd(a, "");
  }

  /** `.` at the end. */
  lemma TrailingDot(a: string)
    ensures Normal(a + "/" + ".") == Normal(a) <==> a != ""
  {
    OneSegment(".");
    WalkOne(Rooted(a), Before(a), ".");
    CutEnd(a, ".");
  }

  /** `./` in front of a path, which it makes relative. */
  lemma LeadingDot(b: string)
    ensures Normal("." + "/" + b) == Normal(b) <==> !Absolute(b)
  {
    hide Split, Slashed;
    DotBefore();
    PartsAround(".", b);
    RelativeStart(b);
  }

  lemma DotBefore()
    ensures !Rooted(".") && Before(".") == []
  {
    OneSegment(".");
    WalkOne(false, [], ".");
  }

  /** The normal form of an absolute path starts with a slash, and no other does. */
  lemma StartOfNormal(path: string)
    ensures Normal(path) != "" && (Normal(path)[0] == '/' <==> Absolute(path))
  {
    PartsCanonical(path);
    hide Parts;
    JoinClean(Parts(path));
  }

  lemma RelativeStart(b: string)
    ensures Normal(b) == Render(false, Walk(false, [], Split(Slashed(b), '/'))) <==> !Absolute(b)
  {
    hide Split, Slashed, Walk;
    if Absolute(b) {
      StartOfNormal(b);
      StartOfNormal("." + "/" + b);
      DotBefore();
      PartsAround(".", b);
    }
  }

  /** A segment that names something: clean, and not `..`. */
  predicate Plain(segment: string) { Clean(segment) && segment != ".." }

  /** The segment after `parts`, and `..`: back to `parts`, unless the segment is a
      drive at the very start. */
  lemma ThereAndBack(a: string, x: string)
    requires Plain(x)
    ensures Split(Slashed(x + "/" + ".."), '/') == [x, ".."]
    ensures Walk(Rooted(a), Before(a), [x, ".."]) ==
            if Before(a) != [] || !Drive(x) then Before(a) else [x]
  {
    hide Walk, Split, Slashed, Step;
    SlashedConcat(x + "/", "..");
    SlashedConcat(x, "/");
    OneSlash();
    SplitAround(Slashed(x), Slashed(".."), '/');
    OneSegment(x);
    OneSegment("..");
    var parts := Before(a);
    assert [x, ".."] == [x] + [".."];
    WalkConcat(Rooted(a), parts, [x], [".."]);
    WalkOne(Rooted(a), parts, x);
    StepIs(Rooted(a), parts, x);
    WalkOne(Rooted(a), parts + [x], "..");
    StepIs(Rooted(a), parts + [x], "..");
    assert (parts + [x])[..|parts|] == parts;
  }

  /** `x/..` between two slashes cancels, unless `x` is a drive with no part before
      it: then only the `..` goes. */
  lemma CancelledPair(a: string, x: string, b: string)
    requires Plain(x)
    ensures Before(a) != [] || !Drive(x) ==> Normal(a + "/" + (x + "/" + "..") + "/" + b) == Normal(a + "/" + b)
    ensures Before(a) == [] && Drive(x) ==> Normal(a + "/" + (x + "/" + "..") + "/" + b) == Normal(a + "/" + x + "/" + b)
  {
    hide Walk, Split, Slashed, Absolute;
    ThereAndBack(a, x);
    if Before(a) != [] || !Drive(x) {
      CutOut(a, x + "/" + "..", b);
    } else {
      OneSegment(x);
      WalkOne(Rooted(a), Before(a), x);
      StepIs(Rooted(a), Before(a), x);
      assert [] + [x] == [x];
      SameWalk(a, x + "/" + "..", x, b);
    }
  }

  /** Two stretches that lead to the same parts can stand for each other. */
  lemma SameWalk(a: string, m: string, n: string, b: string)
    requires Walk(Rooted(a), Before(a), Split(Slashed(m), '/')) == Walk(Rooted(a), Before(a), Split(Slashed(n), '/'))
    ensures Normal(a + "/" + m + "/" + b) == Normal(a + "/" + n + "/" + b)
  {
    hide Walk, Split, Slashed, Absolute;
    PartsAfter(a, m, b);
    PartsAfter(a, n, b);
  }

  lemma PartsAfter(a: string, m: string, b: string)
    ensures Absolute(a + "/" + m + "/" + b) == Rooted(a)
    ensures Parts(a + "/" + m + "/" + b)
         == Walk(Rooted(a), Walk(Rooted(a), Before(a), Split(Slashed(m), '/')), Split(Slashed(b), '/'))
  {
    hide Walk, Split, Slashed, Absolute;
    var rest := m + "/" + b;
    assert a + "/" + m + "/" + b == a + "/" + rest;
    PartsAround(a, rest);
    SlashedConcat(m + "/", b);
    SlashedConcat(m, "/");
    OneSlash();
    SplitAround(Slashed(m), Slashed(b), '/');
    WalkConcat(Rooted(a), Before(a), Split(Slashed(m), '/'), Split(Slashed(b), '/'));
  }

  /** At the end of a path, against the path that ends in the slash before it. */
  lemma CancelledPairExact(a: string, x: string)
    requires Plain(x)
    ensures Normal(a + "/" + (x + "/" + "..")) == Normal(a + "/" + "") <==> Before(a) != [] || !Drive(x)
  {
    var back := x + "/" + "..";
    var p, q := a + "/" + back, a + "/" + "";
    ThereAndBack(a, x);
    PartsAround(a, back);
    PartsAround(a, "");
    OneSegment("");
    WalkOne(Rooted(a), Before(a), "");
    PartsCanonical(p);
    PartsCanonical(q);
    RenderedParts(Rooted(a), Parts(p));
    RenderedParts(Rooted(a), Parts(q));
  }

  /** At the end of a path, and against the path without it, it cancels exactly then. */
  lemma TrailingPair(a: string, x: string)
    requires Plain(x)
    ensures Normal(a + "/" + (x + "/" + "..")) == Normal(a) <==> a != "" && (Before(a) != [] || !Drive(x))
  {
    hide Split, Slashed, Canonical, Step;
    var back := x + "/" + "..";
    ThereAndBack(a, x);
    if Before(a) != [] || !Drive(x) {
      CutEnd(a, back);
    } else {
      var p := a + "/" + back;
      PartsAround(a, back);
      BeforeIsParts(a);
      PartsCanonical(p);
      PartsCanonical(a);
      RenderedParts(Absolute(p), Parts(p));
      RenderedParts(Absolute(a), Parts(a));
    }
  }

  /** At the start of a relative path: a segment that is no drive goes, and leaves a
      relative path; of a drive and `..` the drive stays. */
  lemma LeadingPair(x: string, b: string)
    requires Plain(x)
    ensures !Drive(x) ==> (Normal((x + "/" + "..") + "/" + b) == Normal(b) <==> !Absolute(b))
    ensures Drive(x) ==> Normal((x + "/" + "..") + "/" + b) == Normal(x + "/" + b)
  {
    hide Walk, Split, Slashed;
    FirstPair(x);
    PartsAround(x + "/" + "..", b);
    if Drive(x) {
      PartsAround(x, b);
    } else {
      RelativeStart(b);
    }
  }

  /** Alone it is the working directory, exactly when it is no drive. */
  lemma OnlyPair(x: string)
    requires Plain(x)
    ensures Normal(x + "/" + "..") == Normal(".") <==> !Drive(x)
    ensures Normal(".") == Normal("") == "."
  {
    hide Walk, Split, Slashed;
    FirstPair(x);
    OneSegment(".");
    WalkOne(false, [], ".");
    StepIs(false, [], ".");
    OneSegment("");
    WalkOne(false, [], "");
    StepIs(false, [], "");
  }

  /** The parts of `x/..` and of `x` at the start of a path. */
  lemma FirstPair(x: string)
    requires Plain(x)
    ensures !Rooted(x + "/" + "..") && !Rooted(x) && !Absolute(x + "/" + "..")
    ensures Before(x) == [x]
    ensures Before(x + "/" + "..") == Parts(x + "/" + "..") == if Drive(x) then [x] else []
  {
    hide Walk, Split, Slashed;
    SlashedConcat(x + "/", "..");
    SlashedConcat(x, "/");
    OneSlash();
    SplitAround(Slashed(x), Slashed(".."), '/');
    OneSegment(x);
    OneSegment("..");
    assert [x, ".."] == [x] + [".."];
    WalkConcat(false, [], [x], [".."]);
    WalkOne(false, [], x);
    StepIs(false, [], x);
    assert [] + [x] == [x] && [x][..0] == [];
    WalkOne(false, [x], "..");
    StepIs(false, [x], "..");
  }

  /** The drive stays: `C:/..` is `C:`, and not the working directory. */
  lemma DriveStays()
    ensures Plain("C:") && Drive("C:")
    ensures Normal("C:" + "/" + "..") == "C:" && Normal("/" + "C:" + "/" + "..") == "/C:"
  {
    hide Walk, Split, Slashed, Step;
    FirstPair("C:");
    ThereAndBack("", "C:");
    PartsAround("", "C:" + "/" + "..");
    assert "/" + "C:" + "/" + ".." == "" + "/" + ("C:" + "/" + "..");
    OneSegment("");
    WalkOne(true, [], "");
    StepIs(true, [], "");
    assert "/" + "C:" == "/C:";
  }

  // ----- the two keys -----

  lemma {:induction false} JoinAppend(parts: Segments, segment: string)
    requires parts != []
    ensures Join(parts + [segment]) == Join(parts) + "/" + segment
    decreases |parts|
  {
    var all := parts + [segment];
    assert all[1..] == parts[1..] + [segment];
    if |parts| > 1 { JoinAppend(parts[1..], segment); }
  }

  lemma RenderAppend(absolute: bool, parts: Segments, segment: string)
    requires parts != []
    ensures Render(absolute, parts + [segment]) == Render(absolute, parts) + "/" + segment
  {
    JoinAppend(parts, segment);
    assert "/" + (Join(parts) + "/" + segment) == "/" + Join(parts) + "/" + segment;
  }

  lemma NoParts(path: string)
    ensures Parts(path) == [] <==> Normal(path) == "/" || Normal(path) == "."
  {
    PartsCanonical(path);
    RenderedParts(Absolute(path), Parts(path));
    hide Canonical, Step, Walk, Slashed;
    RenderedParts(true, []) by { EmptyCanonical(); }
    RenderedParts(false, []) by { EmptyCanonical(); }
  }

  lemma EmptyCanonical()
    ensures Canonical(true, []) && Canonical(false, [])
  {
  }

  lemma BeforeIsParts(a: string)
    ensures Before(a) == [] <==> Parts(a) == []
    ensures Before(a) != [] ==> Before(a) == Parts(a) && Rooted(a) == Absolute(a)
  {
    if a == [] {
      SplitEmpty();
      WalkOne(true, [], "");
      WalkOne(false, [], "");
    }
  }

  lemma GameParts(directory: string, id: string)
    requires Plain(id)
    ensures Parts(directory + "/" + (id + "/" + ".minecraft")) == Before(directory) + [id] + [".minecraft"]
  {
    hide Walk, Split, Slashed, Canonical, Step;
    CleanName();
    SlashedConcat(id + "/", ".minecraft");
    SlashedConcat(id, "/");
    OneSlash();
    SplitAround(Slashed(id), Slashed(".minecraft"), '/');
    OneSegment(id);
    OneSegment(".minecraft");
    PartsAround(directory, id + "/" + ".minecraft");
    var rooted, parts := Rooted(directory), Before(directory);
    WalkConcat(rooted, parts, [id], [".minecraft"]);
    WalkOne(rooted, parts, id);
    WalkOne(rooted, parts + [id], ".minecraft");
    StepIs(rooted, parts, id);
    StepIs(rooted, parts + [id], ".minecraft");
    assert [id, ".minecraft"] == [id] + [".minecraft"];
  }

  lemma CleanName()
    ensures Plain(".minecraft")
  {
  }

  /** The key of a game directory is the key of its root and id, exactly when the
      root is not the file system's root and not the working directory. */
  lemma KeysAgree(directory: string, id: string)
    requires Plain(id)
    ensures InstanceMutationKeyFromGameDirectory(directory + "/" + (id + "/" + ".minecraft"))
            == InstanceMutationKey(directory, id)
            <==> Normal(directory) != "/" && Normal(directory) != "."
  {
    hide Walk, Step, Split, Slashed, Canonical;
    var game := directory + "/" + (id + "/" + ".minecraft");
    var parts, rooted := Before(directory), Rooted(directory);
    GameParts(directory, id);
    PartsAround(directory, id + "/" + ".minecraft");
    NoParts(directory);
    BeforeIsParts(directory);
    RenderAppend(rooted, parts + [id], ".minecraft");
    var key := Render(rooted, parts + [id]);
    assert Normal(game) == key + GAME;
    assert InstanceMutationKeyFromGameDirectory(game) == key by {
      assert (key + GAME)[|key|..] == GAME && (key + GAME)[..|key|] == key;
    }
    if parts != [] {
      RenderAppend(rooted, parts, id);
    } else {
      assert [] + [id] == [id];
      assert key == if rooted then "/" + id else id;
      var other := InstanceMutationKey(directory, id);
      assert other == (if Absolute(directory) then "/" else ".") + "/" + id;
      if rooted {
        assert directory == [] ==> other[0] == '.';
      }
    }
  }

  /** The same with the other slash. */
  lemma KeysAgreeOnWindows(directory: string, id: string)
    requires Plain(id)
    ensures InstanceMutationKeyFromGameDirectory(directory + "\\" + (id + "\\" + ".minecraft"))
            == InstanceMutationKey(directory, id)
            <==> Normal(directory) != "/" && Normal(directory) != "."
  {
    hide Normal;
    SlashStyle(directory + "\\" + (id + "\\" + ".minecraft"), directory + "/" + (id + "/" + ".minecraft"));
    KeysAgree(directory, id);
  }

  /** The condition matters: at the file system's root the two keys differ. */
  lemma KeysDifferAtRoot()
    ensures InstanceMutationKey("/", "alpha") == "//alpha"
    ensures InstanceMutationKeyFromGameDirectory("/" + "/" + ("alpha" + "/" + ".minecraft")) == "/alpha"
  {
    hide Walk, Split, Slashed, Step;
    AlphaIsPlain();
    GameParts("/", "alpha");
    PartsAround("/", "alpha" + "/" + ".minecraft");
    RootHasNoParts();
    RenderAppend(true, ["alpha"], ".minecraft");
    assert [] + ["alpha"] + [".minecraft"] == ["alpha"] + [".minecraft"];
    var game := "/" + "/" + ("alpha" + "/" + ".minecraft");
    assert Normal(game) == "/alpha" + GAME;
    assert ("/alpha" + GAME)[|"/alpha"|..] == GAME && ("/alpha" + GAME)[..|"/alpha"|] == "/alpha";
  }

  lemma AlphaIsPlain()
    ensures Plain("alpha")
  {
  }

  lemma RootHasNoParts()
    ensures Before("/") == [] && Parts("/") == [] && Absolute("/")
  {
    OneSlash();
    SplitAround("", "", '/');
    assert "" + ['/'] + "" == "/";
    SplitEmpty();
    Ignoring(true, []);
    assert Split("/", '/') == [""] + [""];
  }
}
