/** What a conforming single-disk ZIP writer lays out, and how the directory
    scan judges it (sections 4.3.12 and 4.3.16 of PKWARE APPNOTE). */
module ModpackWriter {
  import opened Results
  import opened Bytes
  import opened ModpackDirectory

  /** One directory record; fields the scan does not look at stay raw bytes. */
  datatype Entry = Entry(versions: seq<byte>, flags: nat, compression: nat, sizes: seq<byte>,
                         disk: seq<byte>, attributes: nat, mode: nat, offset: seq<byte>,
                         name: seq<byte>, extra: seq<byte>, comment: seq<byte>)

  predicate Encodable(e: Entry) {
    && |e.versions| == 4 && |e.sizes| == 16 && |e.disk| == 4 && |e.offset| == 4
    && e.flags < 0x1_0000 && e.compression < 0x1_0000 && e.attributes < 0x1_0000 && e.mode < 0x1_0000
    && |e.name| < 0x1_0000 && |e.extra| < 0x1_0000 && |e.comment| < 0x1_0000
  }

  function Header(e: Entry): (h: seq<byte>)
    requires Encodable(e)
    ensures |h| == 46
  {
    RECORD_SIGNATURE + e.versions + Put16(e.flags) + Put16(e.compression) + e.sizes
    + Put16(|e.name|) + Put16(|e.extra|) + Put16(|e.comment|)
    + e.disk + Put16(e.attributes) + Put16(e.mode) + e.offset
  }

  function Record(e: Entry): seq<byte>
    requires Encodable(e)
  {
    Header(e) + e.name + e.extra + e.comment
  }

  predicate AllEncodable(entries: seq<Entry>) { forall i :: 0 <= i < |entries| ==> Encodable(entries[i]) }

  function Directory(entries: seq<Entry>): seq<byte>
    requires AllEncodable(entries)
  {
    if entries == [] then [] else Record(entries[0]) + Directory(entries[1..])
  }

  function EndRecord(n: nat, size: nat, start: nat, comment: seq<byte>): (r: seq<byte>)
    requires n < 0x1_0000 && size < 0x1_0000_0000 && start < 0x1_0000_0000 && |comment| < 0x1_0000
    ensures |r| == 22 + |comment|
  {
    END_SIGNATURE + Put16(0) + Put16(0) + Put16(n) + Put16(n) + Put32(size) + Put32(start) + Put16(|comment|) + comment
  }

  /** What the writer can express within the limits of the scan. */
  predicate Writable(body: seq<byte>, entries: seq<Entry>, comment: seq<byte>) {
    && AllEncodable(entries) && |entries| <= MAX_ENTRIES
    && |Directory(entries)| <= MAX_DIRECTORY
    && |comment| < 0x1_0000
    && |body| + |Directory(entries)| + 22 + |comment| <= MAX_ARCHIVE
  }

  /** The archive: file data, directory, end record. */
  function Archive(body: seq<byte>, entries: seq<Entry>, comment: seq<byte>): seq<byte>
    requires Writable(body, entries, comment)
  {
    var d := Directory(entries);
    body + d + EndRecord(|entries|, |d|, |body|, comment)
  }

  predicate Usable(e: Entry) {
    e.flags % 2 == 0 && (e.compression == 0 || e.compression == 8) && (e.mode / 0x1000 == 0 || e.mode / 0x1000 == 8)
  }

  function ManifestEntries(entries: seq<Entry>): nat {
    if entries == [] then 0 else (if IsManifest(entries[0].name) then 1 else 0) + ManifestEntries(entries[1..])
  }

  predicate ManifestsUsable(entries: seq<Entry>) {
    forall i :: 0 <= i < |entries| && IsManifest(entries[i].name) ==> Usable(entries[i])
  }

  // ----- reading back one record -----

  lemma At16(before: seq<byte>, n: nat, after: seq<byte>)
    requires n < 0x1_0000
    ensures U16(before + Put16(n) + after, |before|) == n
  {
    var s := before + Put16(n) + after;
    assert s[|before|] == Put16(n)[0] && s[|before| + 1] == Put16(n)[1];
  }

  /** Two bytes read the same in any place that holds the same bytes. */
  lemma Shifted16(d: seq<byte>, at: nat, part: seq<byte>, i: nat)
    requires at + |part| <= |d| && d[at..at + |part|] == part && i + 2 <= |part|
    ensures U16(d, at + i) == U16(part, i)
  {
    assert d[at..at + |part|][i] == d[at + i] && d[at..at + |part|][i + 1] == d[at + i + 1];
  }

  lemma SliceOfSlice(d: seq<byte>, at: nat, n: nat, i: nat, j: nat)
    requires at + n <= |d| && i <= j <= n
    ensures d[at..at + n][i..j] == d[at + i..at + j]
  {
    var whole, part := d[at..at + n], d[at + i..at + j];
    forall k | 0 <= k < j - i ensures whole[i..j][k] == part[k] {
      assert whole[i + k] == d[at + (i + k)];
      assert part[k] == d[(at + i) + k];
    }
  }

  lemma HeaderFields(e: Entry)
    requires Encodable(e)
    ensures Header(e)[..4] == RECORD_SIGNATURE
    ensures U16(Header(e), 8) == e.flags && U16(Header(e), 10) == e.compression
    ensures U16(Header(e), 28) == |e.name| && U16(Header(e), 30) == |e.extra| && U16(Header(e), 32) == |e.comment|
    ensures U16(Header(e), 40) == e.mode
  {
    hide U16, Put16;
    var h := Header(e);
    var a := RECORD_SIGNATURE + e.versions;
    var b := a + Put16(e.flags) + Put16(e.compression) + e.sizes;
    var c := b + Put16(|e.name|) + Put16(|e.extra|) + Put16(|e.comment|) + e.disk + Put16(e.attributes);
    assert h == a + Put16(e.flags) + h[10..];
    At16(a, e.flags, h[10..]);
    assert h == (a + Put16(e.flags)) + Put16(e.compression) + h[12..];
    At16(a + Put16(e.flags), e.compression, h[12..]);
    assert h == b + Put16(|e.name|) + h[30..];
    At16(b, |e.name|, h[30..]);
    assert h == (b + Put16(|e.name|)) + Put16(|e.extra|) + h[32..];
    At16(b + Put16(|e.name|), |e.extra|, h[32..]);
    assert h == (b + Put16(|e.name|) + Put16(|e.extra|)) + Put16(|e.comment|) + h[34..];
    At16(b + Put16(|e.name|) + Put16(|e.extra|), |e.comment|, h[34..]);
    assert h == c + Put16(e.mode) + h[42..];
    At16(c, e.mode, h[42..]);
  }

  /** A record in place reads back as its entry. */
  lemma RecordInPlace(d: seq<byte>, at: nat, e: Entry)
    requires Encodable(e) && at + |Record(e)| <= |d| && d[at..at + |Record(e)|] == Record(e)
    ensures RecordFits(d, at) && Total(d, at) == |Record(e)|
    ensures Name(d, at) == e.name
    ensures Readable(d, at) && Regular(d, at) <==> Usable(e)
  {
    HeaderFields(e);
    var h := Header(e);
    var r := Record(e);
    assert d[at..at + 46] == h by { assert r[..46] == h; SliceOfSlice(d, at, |r|, 0, 46); }
    hide U16, Header;
    Shifted16(d, at, h, 8);
    Shifted16(d, at, h, 10);
    Shifted16(d, at, h, 28);
    Shifted16(d, at, h, 30);
    Shifted16(d, at, h, 32);
    Shifted16(d, at, h, 40);
    SliceOfSlice(d, at, 46, 0, 4);
    assert r[46..46 + |e.name|] == e.name;
    SliceOfSlice(d, at, |r|, 46, 46 + |e.name|);
  }

  // ----- reading back the directory -----

  function Starts(entries: seq<Entry>, at: nat): (s: seq<nat>)
    requires AllEncodable(entries)
    ensures |s| == |entries| + 1 && s[0] == at
  {
    if entries == [] then [at] else [at] + Starts(entries[1..], at + |Record(entries[0])|)
  }

  lemma {:induction false} DirectoryTiles(d: seq<byte>, at: nat, entries: seq<Entry>)
    requires AllEncodable(entries) && at <= |d| && d[at..] == Directory(entries)
    ensures Tiles(d, Starts(entries, at), at)
    ensures Manifests(d, Starts(entries, at)) == ManifestEntries(entries)
    ensures AllPlain(d, Starts(entries, at)) <==> ManifestsUsable(entries)
    decreases |entries|
  {
    hide Encodable, Record, Total, Readable, Regular, IsManifest, Usable, Name, AllPlain, ManifestsUsable, Tiles, Manifests;
    var starts := Starts(entries, at);
    if entries == [] {
      NothingLeft(d);
    } else {
      var e, rest := entries[0], entries[1..];
      var next := at + |Record(e)|;
      assert d[at..next] == d[at..][..|Record(e)|] == Record(e);
      assert d[next..] == d[at..][|Record(e)|..] == Directory(rest);
      RecordInPlace(d, at, e);
      DirectoryTiles(d, next, rest);
      var after := Starts(rest, next);
      assert ManifestAt(d, at) <==> IsManifest(e.name);
      OneMore(d, at, after);
      UsableSplit(e, rest);
      assert entries == [e] + rest;
    }
  }

  lemma NothingLeft(d: seq<byte>)
    ensures Tiles(d, [|d|], |d|) && Manifests(d, [|d|]) == 0 && AllPlain(d, [|d|]) && ManifestsUsable([])
  {
    hide IsManifest, U16, RecordFits;
    var last: seq<nat> := [|d|];
    assert !ManifestAt(d, last[0]) && last[1..] == [];
    assert Manifests(d, last) == Manifests(d, []);
  }

  lemma UsableSplit(e: Entry, rest: seq<Entry>)
    ensures ManifestsUsable([e] + rest) <==> (IsManifest(e.name) ==> Usable(e)) && ManifestsUsable(rest)
  {
    hide Usable, IsManifest;
    var entries := [e] + rest;
    if ManifestsUsable(entries) {
      assert entries[0] == e;
      forall i | 0 <= i < |rest| && IsManifest(rest[i].name) ensures Usable(rest[i]) { assert entries[i + 1] == rest[i]; }
    }
  }

  // ----- the whole archive -----

  lemma EndFields(n: nat, size: nat, start: nat, comment: seq<byte>)
    requires n < 0x1_0000 && size < 0x1_0000_0000 && start < 0x1_0000_0000 && |comment| < 0x1_0000
    ensures var r := EndRecord(n, size, start, comment);
      && r[..4] == END_SIGNATURE && U16(r, 4) == 0 && U16(r, 6) == 0 && U16(r, 8) == n && U16(r, 10) == n
      && U32(r, 12) == size && U32(r, 16) == start && U16(r, 20) == |comment|
  {
    hide U16, Put16, Put32, U32;
    var r := EndRecord(n, size, start, comment);
    var a, z, m := END_SIGNATURE, Put16(0), Put16(n);
    assert r == a + z + r[6..];
    At16(a, 0, r[6..]);
    assert r == (a + z) + z + r[8..];
    At16(a + z, 0, r[8..]);
    assert r == (a + z + z) + m + r[10..];
    At16(a + z + z, n, r[10..]);
    assert r == (a + z + z + m) + m + r[12..];
    At16(a + z + z + m, n, r[12..]);
    var b := a + z + z + m + m;
    assert r == b + Put32(size) + r[16..];
    At32(b, size, r[16..]);
    assert r == (b + Put32(size)) + Put32(start) + r[20..];
    At32(b + Put32(size), start, r[20..]);
    var c := b + Put32(size) + Put32(start);
    assert r == c + Put16(|comment|) + comment;
    At16(c, |comment|, comment);
  }

  lemma At32(before: seq<byte>, n: nat, after: seq<byte>)
    requires n < 0x1_0000_0000
    ensures U32(before + Put32(n) + after, |before|) == n
  {
    var s := before + Put32(n) + after;
    Shifted16(s, |before|, Put32(n), 0);
    Shifted16(s, |before|, Put32(n), 2);
  }

  /** The writer's own end record says what the scan needs. */
  lemma ArchiveEnd(body: seq<byte>, entries: seq<Entry>, comment: seq<byte>)
    requires Writable(body, entries, comment)
    ensures var file, end := Archive(body, entries, comment), |body| + |Directory(entries)|;
      && 22 <= |file| <= MAX_ARCHIVE && EndAt(file, end) && EndSays(file, end, |entries|, |body|)
      && file[|body|..end] == Directory(entries)
  {
    hide AllEncodable, Directory;
    var d := Directory(entries);
    var r := EndRecord(|entries|, |d|, |body|, comment);
    var file, end := Archive(body, entries, comment), |body| + |d|;
    EndFields(|entries|, |d|, |body|, comment);
    assert file[end..end + |r|] == r;
    assert file[end..end + 4] == file[end..end + |r|][..4];
    hide U16, EndRecord;
    Shifted16(file, end, r, 4);
    Shifted16(file, end, r, 6);
    Shifted16(file, end, r, 8);
    Shifted16(file, end, r, 10);
    Shifted16(file, end, r, 12);
    Shifted16(file, end, r, 14);
    Shifted16(file, end, r, 16);
    Shifted16(file, end, r, 18);
    Shifted16(file, end, r, 20);
  }

  /** How the scan judges every archive a writer lays out within the limits, as
      long as no end record fits later in the file: it accepts with the writer's
      own count exactly when one entry has a manifest name and that entry is
      regular, unencrypted, and stored or deflated. */
  lemma WrittenIsJudged(body: seq<byte>, entries: seq<Entry>, comment: seq<byte>)
    requires Writable(body, entries, comment)
    requires FinalEnd(Archive(body, entries, comment), |body| + |Directory(entries)|)
    ensures Budget(Archive(body, entries, comment)) == Success(|entries|)
            <==> ManifestEntries(entries) == 1 && ManifestsUsable(entries)
    ensures ManifestsUsable(entries) && ManifestEntries(entries) == 0
            ==> Budget(Archive(body, entries, comment)) == Failure(UnknownFormat)
    ensures ManifestsUsable(entries) && ManifestEntries(entries) > 1
            ==> Budget(Archive(body, entries, comment)) == Failure(Ambiguous)
    ensures !ManifestsUsable(entries) ==> Budget(Archive(body, entries, comment)).Failure?
  {
    hide Budget, Walk, FinalEnd, EndSays, EndAt, Tiles, Plain, Directory, ManifestsUsable, Archive;
    var file, end := Archive(body, entries, comment), |body| + |Directory(entries)|;
    ArchiveEnd(body, entries, comment);
    JudgedByWalk(file, |entries|, end, |body|);
    var d := Directory(entries);
    assert d[0..] == d;
    DirectoryTiles(d, 0, entries);
    TilesWalk(d, Starts(entries, 0), 0);
  }

  lemma WritableEncodes(body: seq<byte>, entries: seq<Entry>, comment: seq<byte>)
    requires Writable(body, entries, comment)
    ensures AllEncodable(entries)
  {
  }

  lemma ArchiveLength(body: seq<byte>, entries: seq<Entry>, comment: seq<byte>)
    requires Writable(body, entries, comment)
    ensures |Archive(body, entries, comment)| == |body| + |Directory(entries)| + 22 + |comment|
  {
    hide AllEncodable, Directory;
  }

  lemma NothingAfter(file: seq<byte>, end: nat)
    requires EndAt(file, end) && |file| == end + 22
    ensures FinalEnd(file, end)
  {
  }

  /** Without an archive comment no later end record can fit, so the scan is exact
      on everything the writer can produce. */
  lemma UncommentedIsJudged(body: seq<byte>, entries: seq<Entry>)
    requires Writable(body, entries, [])
    ensures Budget(Archive(body, entries, [])) == Success(|entries|)
            <==> ManifestEntries(entries) == 1 && ManifestsUsable(entries)
  {
    hide *;
    WritableEncodes(body, entries, []);
    var file, end := Archive(body, entries, []), |body| + |Directory(entries)|;
    ArchiveEnd(body, entries, []);
    ArchiveLength(body, entries, []);
    NothingAfter(file, end);
    WrittenIsJudged(body, entries, []);
  }
}
