/** The bounded scan of a ZIP archive's central directory that runs before the
    archive is opened (sections 4.3.12 and 4.3.16 of PKWARE APPNOTE). */
module ModpackDirectory {
  import opened Results
  import opened Bytes

  datatype PreviewError = Invalid | Limit | Unsupported | UnknownFormat | Ambiguous

  const MAX_ARCHIVE := 512 * 1024 * 1024
  const MAX_DIRECTORY := 8 * 1024 * 1024
  const MAX_ENTRIES := 65_534
  const MAX_TAIL := 65_557
  const NO_U32 := 0xFFFF_FFFF

  const END_SIGNATURE: seq<byte> := [0x50, 0x4B, 5, 6]
  const RECORD_SIGNATURE: seq<byte> := [0x50, 0x4B, 1, 2]

  /** "modrinth.index.json" and "manifest.json". */
  const MODRINTH: seq<byte> :=
    [109, 111, 100, 114, 105, 110, 116, 104, 46, 105, 110, 100, 101, 120, 46, 106, 115, 111, 110]
  const CURSEFORGE: seq<byte> := [109, 97, 110, 105, 102, 101, 115, 116, 46, 106, 115, 111, 110]

  // ----- the end record -----

  /** An end record at `i` whose comment reaches exactly to the end of `tail`. */
  predicate EndAt(tail: seq<byte>, i: nat) {
    && i + 22 <= |tail|
    && tail[i..i + 4] == END_SIGNATURE
    && i + 22 + U16(tail, i + 20) == |tail|
  }

  /** The last such position below `n`. */
  function LastEnd(tail: seq<byte>, n: nat): (r: Option<nat>)
    ensures r.Some? ==> r.value < n && EndAt(tail, r.value) && forall i :: r.value < i < n ==> !EndAt(tail, i)
    ensures r.None? ==> forall i :: 0 <= i < n ==> !EndAt(tail, i)
  {
    if n == 0 then None else if EndAt(tail, n - 1) then Some(n - 1) else LastEnd(tail, n - 1)
  }

  // ----- one directory record -----

  predicate IsManifest(name: seq<byte>) { name == MODRINTH || name == CURSEFORGE }

  predicate RecordFits(d: seq<byte>, at: nat) {
    at + 46 <= |d| && d[at..at + 4] == RECORD_SIGNATURE
  }

  function Total(d: seq<byte>, at: nat): nat
    requires at + 46 <= |d|
  {
    46 + U16(d, at + 28) + U16(d, at + 30) + U16(d, at + 32)
  }

  function Name(d: seq<byte>, at: nat): seq<byte>
    requires at + 46 <= |d| && at + Total(d, at) <= |d|
  {
    d[at + 46..at + 46 + U16(d, at + 28)]
  }

  /** Unencrypted, and stored or deflated. */
  predicate Readable(d: seq<byte>, at: nat)
    requires at + 46 <= |d|
  {
    U16(d, at + 8) % 2 == 0 && (U16(d, at + 10) == 0 || U16(d, at + 10) == 8)
  }

  /** The file type bits of the Unix mode say a regular file, or nothing. */
  predicate Regular(d: seq<byte>, at: nat)
    requires at + 46 <= |d|
  {
    var kind := U16(d, at + 40) / 0x1000;
    kind == 0 || kind == 8
  }

  /** One record: whether it is a manifest, or why the archive is refused. */
  function Check(d: seq<byte>, at: nat): (r: Result<bool, PreviewError>)
    ensures r.Success? ==> RecordFits(d, at) && at + Total(d, at) <= |d|
  {
    if !RecordFits(d, at) then Failure(Invalid)
    else if at + 46 + U16(d, at + 28) > |d| then Failure(Invalid)
    else
      var manifest := IsManifest(d[at + 46..at + 46 + U16(d, at + 28)]);
      if manifest && !Readable(d, at) then Failure(Unsupported)
      else if manifest && !Regular(d, at) then Failure(Invalid)
      else if at + Total(d, at) > |d| then Failure(Invalid)
      else Success(manifest)
  }

  /** The record walk: how many manifests `count` records from `at` hold. */
  function Walk(d: seq<byte>, at: nat, count: nat): Result<nat, PreviewError>
    decreases count
  {
    if count == 0 then (if at == |d| then Success(0) else Failure(Invalid))
    else match Check(d, at)
      case Failure(e) => Failure(e)
      case Success(manifest) => AddTo(if manifest then 1 else 0, Walk(d, at + Total(d, at), count - 1))
  }

  function AddTo(n: nat, r: Result<nat, PreviewError>): Result<nat, PreviewError> {
    match r
    case Success(m) => Success(n + m)
    case Failure(e) => Failure(e)
  }

  function TailLength(file: seq<byte>): (n: nat)
    ensures n <= |file| && n <= MAX_TAIL && (|file| >= 22 ==> n >= 22)
  {
    if |file| < MAX_TAIL then |file| else MAX_TAIL
  }

  function Budget(file: seq<byte>): Result<nat, PreviewError> {
    if |file| < 22 then Failure(Invalid)
    else if |file| > MAX_ARCHIVE then Failure(Limit)
    else
      var tailLen := TailLength(file);
      var tail := file[|file| - tailLen..];
      match LastEnd(tail, tailLen - 21)
      case None => Failure(Invalid)
      case Some(offset) =>
        var count := U16(tail, offset + 10);
        var size, start := U32(tail, offset + 12), U32(tail, offset + 16);
        if U16(tail, offset + 4) != 0 || U16(tail, offset + 6) != 0 || U16(tail, offset + 8) != count
           || count > MAX_ENTRIES || size == NO_U32 || start == NO_U32
        then Failure(Unsupported)
        else if size > MAX_DIRECTORY then Failure(Limit)
        else if start + size != |file| - tailLen + offset then Failure(Invalid)
        else Verdict(Walk(file[start..start + size], 0, count), count)
  }

  function Verdict(manifests: Result<nat, PreviewError>, count: nat): Result<nat, PreviewError> {
    match manifests
    case Failure(e) => Failure(e)
    case Success(m) =>
      if m == 0 then Failure(UnknownFormat) else if m == 1 then Success(count) else Failure(Ambiguous)
  }

  method DirectoryBudget(file: seq<byte>) returns (r: Result<nat, PreviewError>)
    ensures r == Budget(file)
  {
    hide EndAt, LastEnd, Walk, U16, U32;
    if |file| < 22 {
      return Failure(Invalid);
    }
    if |file| > MAX_ARCHIVE {
      return Failure(Limit);
    }
    var tailLen := if |file| < MAX_TAIL then |file| else MAX_TAIL;
    var tail := file[|file| - tailLen..];
    var end := FindEnd(tail);
    if end.None? {
      return Failure(Invalid);
    }
    var offset := end.value;
    var count := U16(tail, offset + 10);
    var size, start := U32(tail, offset + 12), U32(tail, offset + 16);
    if U16(tail, offset + 4) != 0 || U16(tail, offset + 6) != 0 || U16(tail, offset + 8) != count
      || count > MAX_ENTRIES || size == NO_U32 || start == NO_U32
    {
      return Failure(Unsupported);
    }
    if size > MAX_DIRECTORY {
      return Failure(Limit);
    }
    if start + size != |file| - tailLen + offset {
      return Failure(Invalid);
    }
    var manifests := CountManifests(file[start..start + size], count);
    match manifests {
      case Failure(e) => return Failure(e);
      case Success(m) =>
        return if m == 0 then Failure(UnknownFormat) else if m == 1 then Success(count) else Failure(Ambiguous);
    }
  }

  /** The backward search for the end record. */
  method FindEnd(tail: seq<byte>) returns (r: Option<nat>)
    requires |tail| >= 22
    ensures r == LastEnd(tail, |tail| - 21)
  {
    var i := |tail| - 21;
    while i > 0
      invariant 0 <= i <= |tail| - 21
      invariant LastEnd(tail, |tail| - 21) == LastEnd(tail, i)
    {
      i := i - 1;
      if tail[i..i + 4] == END_SIGNATURE && i + 22 + U16(tail, i + 20) == |tail| {
        return Some(i);
      }
    }
    return None;
  }

  /** The walk over the raw records. */
  method CountManifests(directory: seq<byte>, count: nat) returns (r: Result<nat, PreviewError>)
    ensures r == Walk(directory, 0, count)
  {
    hide Check, Total;
    var at: nat, manifests: nat := 0, 0;
    for k := 0 to count
      invariant Walk(directory, 0, count) == AddTo(manifests, Walk(directory, at, count - k))
    {
      var manifest := CheckRecord(directory, at);
      match manifest {
        case Failure(e) => return Failure(e);
        case Success(found) => if found { manifests := manifests + 1; }
      }
      at := at + Total(directory, at);
    }
    if at != |directory| {
      return Failure(Invalid);
    }
    return Success(manifests);
  }

  method CheckRecord(directory: seq<byte>, at: nat) returns (r: Result<bool, PreviewError>)
    ensures r == Check(directory, at)
  {
    if at + 46 > |directory| || directory[at..at + 4] != RECORD_SIGNATURE {
      return Failure(Invalid);
    }
    hide U16, IsManifest;
    var nameLen := U16(directory, at + 28);
    if at + 46 + nameLen > |directory| {
      return Failure(Invalid);
    }
    var manifest := IsManifest(directory[at + 46..at + 46 + nameLen]);
    if manifest {
      if U16(directory, at + 8) % 2 != 0 || (U16(directory, at + 10) != 0 && U16(directory, at + 10) != 8) {
        return Failure(Unsupported);
      }
      var kind := U16(directory, at + 40) / 0x1000;
      if kind != 0 && kind != 8 {
        return Failure(Invalid);
      }
    }
    if at + 46 + nameLen + U16(directory, at + 30) + U16(directory, at + 32) > |directory| {
      return Failure(Invalid);
    }
    return Success(manifest);
  }

  // ----- what acceptance means -----

  /** `starts` cuts the directory from `from` on into consecutive records, without a gap. */
  ghost predicate Tiles(d: seq<byte>, starts: seq<nat>, from: nat) {
    && |starts| >= 1 && starts[0] == from && starts[|starts| - 1] == |d|
    && forall i :: 0 <= i < |starts| - 1 ==> Adjacent(d, starts, i)
  }

  /** The record that starts at cut `i` ends at cut `i + 1`. */
  predicate Adjacent(d: seq<byte>, starts: seq<nat>, i: nat)
    requires i + 1 < |starts|
  {
    RecordFits(d, starts[i]) && starts[i] + Total(d, starts[i]) == starts[i + 1] <= |d|
  }

  predicate ManifestAt(d: seq<byte>, at: nat) {
    at + 46 <= |d| && at + Total(d, at) <= |d| && IsManifest(Name(d, at))
  }

  /** The records at `starts` that carry a manifest name, counted. */
  function Manifests(d: seq<byte>, starts: seq<nat>): nat {
    if starts == [] then 0 else (if ManifestAt(d, starts[0]) then 1 else 0) + Manifests(d, starts[1..])
  }

  predicate Plain(d: seq<byte>, at: nat) {
    ManifestAt(d, at) ==> Readable(d, at) && Regular(d, at)
  }

  predicate AllPlain(d: seq<byte>, starts: seq<nat>) {
    forall i :: 0 <= i < |starts| ==> Plain(d, starts[i])
  }

  lemma CheckOf(d: seq<byte>, at: nat)
    requires RecordFits(d, at) && at + Total(d, at) <= |d|
    ensures Check(d, at) == if Plain(d, at) then Success(ManifestAt(d, at))
                            else if !Readable(d, at) then Failure(Unsupported) else Failure(Invalid)
  {
    hide U16, IsManifest;
  }

  lemma OneMore(d: seq<byte>, at: nat, after: seq<nat>)
    requires |after| >= 1 && Tiles(d, after, after[0])
    requires RecordFits(d, at) && at + Total(d, at) == after[0] <= |d|
    ensures Tiles(d, [at] + after, at)
    ensures Manifests(d, [at] + after) == (if ManifestAt(d, at) then 1 else 0) + Manifests(d, after)
    ensures AllPlain(d, [at] + after) <==> Plain(d, at) && AllPlain(d, after)
  {
    hide Total, RecordFits, Plain, ManifestAt;
    var starts := [at] + after;
    assert starts[1..] == after;
    forall i | 0 <= i < |starts| - 1 ensures Adjacent(d, starts, i) {
      if i > 0 { assert Adjacent(d, after, i - 1); }
    }
    if AllPlain(d, starts) {
      forall i | 0 <= i < |after| ensures Plain(d, after[i]) { assert Plain(d, starts[i + 1]); }
    }
  }

  /** A walk that succeeds has found consecutive records up to the end. */
  lemma {:induction false} WalkTiles(d: seq<byte>, at: nat, count: nat) returns (starts: seq<nat>)
    requires Walk(d, at, count).Success?
    ensures |starts| == count + 1 && Tiles(d, starts, at)
    ensures Walk(d, at, count) == Success(Manifests(d, starts))
    ensures AllPlain(d, starts)
    decreases count
  {
    hide Total, Check, U16, IsManifest, Readable, Regular;
    if count == 0 {
      starts := [at];
      assert Manifests(d, [at]) == Manifests(d, [at][1..]) == 0;
    } else {
      CheckOf(d, at);
      var rest := WalkTiles(d, at + Total(d, at), count - 1);
      starts := [at] + rest;
      OneMore(d, at, rest);
    }
  }

  /** A directory of consecutive records is walked to its end, unless one of its
      manifests is encrypted, oddly compressed or no regular file. */
  lemma {:induction false} TilesWalk(d: seq<byte>, starts: seq<nat>, at: nat)
    requires Tiles(d, starts, at)
    ensures AllPlain(d, starts) ==> Walk(d, at, |starts| - 1) == Success(Manifests(d, starts))
    ensures !AllPlain(d, starts) ==> Walk(d, at, |starts| - 1).Failure?
    decreases |starts|
  {
    hide Total, Check, RecordFits, U16, IsManifest, Readable, Regular;
    if |starts| == 1 {
      assert Manifests(d, starts) == Manifests(d, starts[1..]) == 0;
    } else {
      var rest := starts[1..];
      assert Adjacent(d, starts, 0);
      forall i | 0 <= i < |rest| - 1 ensures Adjacent(d, rest, i) { assert Adjacent(d, starts, i + 1); }
      TilesWalk(d, rest, starts[1]);
      CheckOf(d, at);
      assert forall i :: 0 <= i < |rest| ==> rest[i] == starts[i + 1];
      if i :| 0 <= i < |starts| && !Plain(d, starts[i]) {
        if i > 0 { assert !Plain(d, rest[i - 1]); }
      }
    }
  }

  /** The end record of a file: the last one whose comment reaches the end. */
  ghost predicate FinalEnd(file: seq<byte>, end: nat) {
    EndAt(file, end) && forall i: nat :: end < i ==> !EndAt(file, i)
  }

  /** The end record of the tail that the search finds. */
  lemma LastEndIs(tail: seq<byte>, end: nat)
    requires |tail| >= 22
    ensures LastEnd(tail, |tail| - 21) == Some(end) <==> FinalEnd(tail, end)
  {
    forall i: nat | EndAt(tail, i) ensures i < |tail| - 21 { EndBound(tail, i); }
    hide EndAt;
  }

  /** Searching the tail is searching the file: a comment is at most 65535 bytes. */
  lemma TailSuffices(file: seq<byte>, end: nat)
    requires |file| >= 22
    ensures var base := |file| - TailLength(file);
      FinalEnd(file, end) <==> end >= base && FinalEnd(file[base..], end - base)
  {
    hide EndAt, TailLength;
    var base := |file| - TailLength(file);
    if FinalEnd(file, end) {
      EndNearEnd(file, end);
      TailEnd(file, base, end - base);
      forall i: nat | end - base < i ensures !EndAt(file[base..], i) { TailEnd(file, base, i); }
    }
    if end >= base && FinalEnd(file[base..], end - base) {
      TailEnd(file, base, end - base);
      forall i: nat | end < i ensures !EndAt(file, i) { TailEnd(file, base, i - base); }
    }
  }

  lemma EndNearEnd(file: seq<byte>, i: nat)
    requires EndAt(file, i)
    ensures i >= |file| - TailLength(file)
  {
  }

  lemma TailEnd(file: seq<byte>, base: nat, i: nat)
    requires base <= |file|
    ensures EndAt(file[base..], i) <==> EndAt(file, base + i)
  {
    var tail := file[base..];
    if i + 22 <= |tail| {
      assert tail[i..i + 4] == file[base + i..base + i + 4];
    }
  }

  lemma EndBound(tail: seq<byte>, i: nat)
    requires EndAt(tail, i)
    ensures i < |tail| - 21
  {
  }

  /** One disk, a plausible count, and a directory that ends where the end record starts. */
  predicate EndSays(file: seq<byte>, end: nat, n: nat, start: nat)
    requires end + 22 <= |file|
  {
    && U16(file, end + 4) == 0 && U16(file, end + 6) == 0
    && U16(file, end + 8) == n && U16(file, end + 10) == n && n <= MAX_ENTRIES
    && U32(file, end + 16) == start && start != NO_U32
    && start <= end && U32(file, end + 12) == end - start <= MAX_DIRECTORY
  }

  /** The declarative reading of an accepted archive with `n` entries. */
  ghost predicate WellLaidOut(file: seq<byte>, n: nat, end: nat, start: nat, starts: seq<nat>) {
    && 22 <= |file| <= MAX_ARCHIVE
    && FinalEnd(file, end) && EndSays(file, end, n, start)
    && var d := file[start..end];
       && |starts| == n + 1 && Tiles(d, starts, 0)
       && Manifests(d, starts) == 1
       && AllPlain(d, starts)
  }

  lemma FieldsOfTail(file: seq<byte>, base: nat, i: nat)
    requires base + i + 22 <= |file|
    ensures var tail := file[base..];
      && U16(tail, i + 4) == U16(file, base + i + 4) && U16(tail, i + 6) == U16(file, base + i + 6)
      && U16(tail, i + 8) == U16(file, base + i + 8) && U16(tail, i + 10) == U16(file, base + i + 10)
      && U32(tail, i + 12) == U32(file, base + i + 12) && U32(tail, i + 16) == U32(file, base + i + 16)
  {
  }

  /** Accepting an archive means that its directory is cut into exactly `n`
      records up to the end record, and that exactly one is a usable manifest. */
  lemma AcceptedIsWellLaidOut(file: seq<byte>, n: nat) returns (end: nat, start: nat, starts: seq<nat>)
    requires Budget(file) == Success(n)
    ensures WellLaidOut(file, n, end, start, starts)
  {
    hide EndAt, LastEnd, Walk, U16, U32, Tiles, Manifests, Plain;
    var base := |file| - TailLength(file);
    var tail := file[base..];
    var offset := LastEnd(tail, |tail| - 21).value;
    end := base + offset;
    LastEndIs(tail, offset);
    TailSuffices(file, end);
    FieldsOfTail(file, base, offset);
    start := U32(file, end + 16);
    assert start + U32(file, end + 12) == end;
    starts := WalkTiles(file[start..end], 0, n);
  }

  /** A file within the size limits whose end record describes its directory is
      judged by the record walk alone. */
  lemma JudgedByWalk(file: seq<byte>, n: nat, end: nat, start: nat)
    requires 22 <= |file| <= MAX_ARCHIVE && FinalEnd(file, end) && EndSays(file, end, n, start)
    ensures Budget(file) == Verdict(Walk(file[start..end], 0, n), n)
  {
    hide EndAt, LastEnd, Walk, U16, U32, Verdict;
    var base := |file| - TailLength(file);
    TailSuffices(file, end);
    LastEndIs(file[base..], end - base);
    FieldsOfTail(file, base, end - base);
  }

  /** And such an archive is accepted. */
  lemma WellLaidOutIsAccepted(file: seq<byte>, n: nat, end: nat, start: nat, starts: seq<nat>)
    requires WellLaidOut(file, n, end, start, starts)
    ensures Budget(file) == Success(n)
  {
    hide Budget, Walk, U16, U32, Tiles, Manifests, AllPlain;
    JudgedByWalk(file, n, end, start);
    assert start <= end <= |file|;
    TilesWalk(file[start..end], starts, 0);
  }

  // ----- why an archive is refused -----

  function Text(s: seq<byte>): string { seq(|s|, i requires 0 <= i < |s| => s[i] as char) }

  /** The names a manifest has. */
  lemma ManifestNames(name: seq<byte>)
    ensures IsManifest(name) <==> Text(name) == "modrinth.index.json" || Text(name) == "manifest.json"
    ensures Text(END_SIGNATURE) == "PK" + [5 as char, 6 as char] && Text(RECORD_SIGNATURE) == "PK" + [1 as char, 2 as char]
  {
    assert Text(MODRINTH) == "modrinth.index.json" && Text(CURSEFORGE) == "manifest.json";
    TextInjective(name, MODRINTH);
    TextInjective(name, CURSEFORGE);
  }

  lemma TextInjective(a: seq<byte>, b: seq<byte>)
    ensures Text(a) == Text(b) <==> a == b
  {
    if Text(a) == Text(b) {
      forall i | 0 <= i < |a| ensures a[i] == b[i] { assert Text(a)[i] == Text(b)[i]; }
    }
  }

  /** A whole record that is no unusable manifest. */
  predicate Sound(d: seq<byte>, at: nat) {
    RecordFits(d, at) && at + Total(d, at) <= |d| && Plain(d, at)
  }

  /** A manifest that is encrypted or oddly compressed. */
  predicate Unreadable(d: seq<byte>, at: nat) {
    && RecordFits(d, at) && at + 46 + U16(d, at + 28) <= |d|
    && IsManifest(d[at + 46..at + 46 + U16(d, at + 28)]) && !Readable(d, at)
  }

  lemma Reasons(d: seq<byte>, at: nat)
    ensures Check(d, at) == if Sound(d, at) then Success(ManifestAt(d, at))
                            else Failure(if Unreadable(d, at) then Unsupported else Invalid)
  {
    hide U16, IsManifest;
  }

  predicate Follows(d: seq<byte>, starts: seq<nat>, i: nat)
    requires i + 1 < |starts|
  {
    Sound(d, starts[i]) && starts[i] + Total(d, starts[i]) == starts[i + 1]
  }

  /** Sound records one behind the other: `count` of them, or up to the first that is not sound. */
  ghost predicate Cut(d: seq<byte>, starts: seq<nat>, count: nat) {
    && 1 <= |starts| <= count + 1
    && (forall i :: 0 <= i < |starts| - 1 ==> Follows(d, starts, i))
    && (|starts| <= count ==> !Sound(d, starts[|starts| - 1]))
  }

  /** What the records say about the archive. */
  function Found(d: seq<byte>, starts: seq<nat>, count: nat): Result<nat, PreviewError>
    requires starts != []
  {
    var last := starts[|starts| - 1];
    if |starts| <= count then Failure(if Unreadable(d, last) then Unsupported else Invalid)
    else if last != |d| then Failure(Invalid)
    else Success(Manifests(d, starts))
  }

  lemma {:induction false} CutWalk(d: seq<byte>, starts: seq<nat>, count: nat)
    requires Cut(d, starts, count)
    ensures Walk(d, starts[0], count) == Found(d, starts, count)
    decreases count
  {
    hide U16, IsManifest, Check, Sound, Unreadable, Total;
    Reasons(d, starts[0]);
    if |starts| > 1 {
      var rest := starts[1..];
      assert Follows(d, starts, 0);
      forall i | 0 <= i < |rest| - 1 ensures Follows(d, rest, i) { assert Follows(d, starts, i + 1); }
      CutWalk(d, rest, count - 1);
      assert starts[|starts| - 1] == rest[|rest| - 1];
    } else if count == 0 {
      EndIsNoManifest(d, starts);
    }
  }

  lemma EndIsNoManifest(d: seq<byte>, starts: seq<nat>)
    requires |starts| == 1
    ensures starts[0] == |d| ==> Manifests(d, starts) == 0
  {
    assert Manifests(d, starts[1..]) == 0;
  }

  lemma {:induction false} CutExists(d: seq<byte>, at: nat, count: nat) returns (starts: seq<nat>)
    ensures Cut(d, starts, count) && starts[0] == at
    decreases count
  {
    hide Sound, Total;
    starts := [at];
    if count > 0 && Sound(d, at) {
      SoundFits(d, at);
      var rest := CutExists(d, at + Total(d, at), count - 1);
      starts := [at] + rest;
      forall i | 0 <= i < |starts| - 1 ensures Follows(d, starts, i) {
        if i > 0 { assert Follows(d, rest, i - 1); }
      }
      assert starts[|starts| - 1] == rest[|rest| - 1];
    }
  }

  lemma SoundFits(d: seq<byte>, at: nat)
    requires Sound(d, at)
    ensures RecordFits(d, at) && at + Total(d, at) <= |d|
  {
  }

  /** An archive that is split, has no plausible count, or needs 64-bit fields. */
  predicate Unusual(file: seq<byte>, end: nat)
    requires end + 22 <= |file|
  {
    || U16(file, end + 4) != 0 || U16(file, end + 6) != 0 || U16(file, end + 8) != U16(file, end + 10)
    || U16(file, end + 10) > 65_534 || U32(file, end + 12) == 0xFFFF_FFFF || U32(file, end + 16) == 0xFFFF_FFFF
  }

  /** Why an archive gets its verdict, told on the file: its size, its end record, the
      fields of that record, the records in front of it, and the manifests among them,
      in that order. */
  ghost predicate Explains(file: seq<byte>, end: nat, starts: seq<nat>, r: Result<nat, PreviewError>) {
    if |file| < 22 then r == Failure(Invalid)
    else if |file| > 0x2000_0000 then r == Failure(Limit)
    else if forall i: nat :: !EndAt(file, i) then r == Failure(Invalid)
    else
      && FinalEnd(file, end)
      && var n, size, start := U16(file, end + 10), U32(file, end + 12), U32(file, end + 16);
         if Unusual(file, end) then r == Failure(Unsupported)
         else if size > 0x80_0000 then r == Failure(Limit)
         else if start + size != end then r == Failure(Invalid)
         else
           && Cut(file[start..end], starts, n) && starts[0] == 0
           && match Found(file[start..end], starts, n)
              case Failure(e) => r == Failure(e)
              case Success(m) => r == if m == 0 then Failure(UnknownFormat) else if m == 1 then Success(n) else Failure(Ambiguous)
  }

  lemma EndFound(file: seq<byte>, end: nat)
    requires 22 <= |file| <= MAX_ARCHIVE && FinalEnd(file, end)
    ensures var base := |file| - TailLength(file); var tail := file[base..];
      && base <= end && LastEnd(tail, |tail| - 21) == Some(end - base)
      && Unusual(file, end) == (|| U16(tail, end - base + 4) != 0 || U16(tail, end - base + 6) != 0
                                || U16(tail, end - base + 8) != U16(tail, end - base + 10)
                                || U16(tail, end - base + 10) > MAX_ENTRIES
                                || U32(tail, end - base + 12) == NO_U32 || U32(tail, end - base + 16) == NO_U32)
      && U16(tail, end - base + 10) == U16(file, end + 10)
      && U32(tail, end - base + 12) == U32(file, end + 12) && U32(tail, end - base + 16) == U32(file, end + 16)
  {
    hide EndAt, LastEnd, U16, U32;
    var base := |file| - TailLength(file);
    TailSuffices(file, end);
    LastEndIs(file[base..], end - base);
    FieldsOfTail(file, base, end - base);
  }

  lemma NoEnd(file: seq<byte>)
    requires 22 <= |file| <= MAX_ARCHIVE
    ensures LastEnd(file[|file| - TailLength(file)..], TailLength(file) - 21).None? <==> forall i: nat :: !EndAt(file, i)
  {
    hide EndAt, LastEnd;
    var base := |file| - TailLength(file);
    var tail := file[base..];
    forall i: nat | EndAt(file, i) ensures i >= base && EndAt(tail, i - base) && i - base < |tail| - 21 {
      EndNearEnd(file, i);
      TailEnd(file, base, i - base);
      EndBound(tail, i - base);
    }
    if LastEnd(tail, |tail| - 21).Some? { TailEnd(file, base, LastEnd(tail, |tail| - 21).value); }
  }

  lemma ExplainedVerdict(file: seq<byte>, end: nat, starts: seq<nat>, r: Result<nat, PreviewError>)
    requires Explains(file, end, starts, r)
    ensures Budget(file) == r
  {
    hide EndAt, LastEnd, Walk, U16, U32, Cut, Unusual, Found;
    if 22 <= |file| <= MAX_ARCHIVE {
      NoEnd(file);
      if i: nat :| EndAt(file, i) {
        EndFound(file, end);
        var n, size, start := U16(file, end + 10), U32(file, end + 12), U32(file, end + 16);
        if !Unusual(file, end) && size <= MAX_DIRECTORY && start + size == end {
          CutWalk(file[start..end], starts, n);
        }
      }
    }
  }

  /** The last end record of a file that has one. */
  lemma {:induction false} SomeFinalEnd(file: seq<byte>, i: nat) returns (end: nat)
    requires EndAt(file, i)
    ensures FinalEnd(file, end)
    decreases |file| - i
  {
    if j: nat :| i < j && EndAt(file, j) {
      assert j + 22 <= |file|;
      end := SomeFinalEnd(file, j);
    } else {
      end := i;
    }
  }

  lemma EveryVerdictExplained(file: seq<byte>) returns (end: nat, starts: seq<nat>, r: Result<nat, PreviewError>)
    ensures Explains(file, end, starts, r)
  {
    hide EndAt, U16, U32, Cut, Unusual, Found;
    end, starts, r := 0, [], Failure(Invalid);
    if |file| > MAX_ARCHIVE {
      r := Failure(Limit);
    } else if |file| >= 22 {
      if i: nat :| EndAt(file, i) {
        end := SomeFinalEnd(file, i);
        EndFits(file, end);
        var n, size, start := U16(file, end + 10), U32(file, end + 12), U32(file, end + 16);
        if Unusual(file, end) {
          r := Failure(Unsupported);
        } else if size > MAX_DIRECTORY {
          r := Failure(Limit);
        } else if start + size == end {
          starts := CutExists(file[start..end], 0, n);
          CutNotEmpty(file[start..end], starts, n);
          var found := Found(file[start..end], starts, n);
          r := match found
            case Failure(e) => Failure(e)
            case Success(m) => if m == 0 then Failure(UnknownFormat) else if m == 1 then Success(n) else Failure(Ambiguous);
        }
      }
    }
  }

  lemma EndFits(file: seq<byte>, end: nat)
    requires EndAt(file, end)
    ensures end + 22 <= |file|
  {
  }

  lemma CutNotEmpty(d: seq<byte>, starts: seq<nat>, count: nat)
    requires Cut(d, starts, count)
    ensures starts != []
  {
  }

  /** The verdict on every file, success or the reason for refusing it, is the one that
      the file explains. */
  lemma VerdictIff(file: seq<byte>, r: Result<nat, PreviewError>)
    ensures Budget(file) == r <==> exists end, starts :: Explains(file, end, starts, r)
  {
    hide Budget, Explains;
    var end, starts, q := EveryVerdictExplained(file);
    ExplainedVerdict(file, end, starts, q);
    if e, t :| Explains(file, e, t, r) { ExplainedVerdict(file, e, t, r); }
  }
}
