/** The rotating diagnostic log: up to four capped segment files, shifted by
    renames, seen as a suffix of an append-only list of records. */
module DiagnosticLog {
  import opened ByteLines
  import opened Bytes

  const MAX_FILE_BYTES := 262_144
  const MAX_FILES := 4
  const MAX_LINE := 1024
  const MAX_RECORDS := 4096

  /** Which lines decode to a valid record. Encodings are never empty and have no
      line feed. */
  ghost predicate Codec(valid: Line -> bool) {
    forall l :: valid(l) ==> l != [] && NEWLINE !in l
  }

  // ----- bytes and records -----

  /** `split` at line feeds, keeping the pieces that are not empty. */
  function Pieces(bytes: seq<byte>): seq<Line>
    decreases |bytes|
  {
    var i := NewlineAt(bytes);
    (if i == 0 then [] else [bytes[..i]]) + (if i == |bytes| then [] else Pieces(bytes[i + 1..]))
  }

  lemma PiecesNext(l: Line, rest: seq<byte>)
    requires l != [] && NEWLINE !in l
    ensures Pieces(l + [NEWLINE] + rest) == [l] + Pieces(rest)
  {
    FirstLine(l, rest);
  }

  /** Splitting an encoding gives the records back. */
  lemma {:induction false} PiecesOfFrame(lines: seq<Line>)
    requires forall l :: l in lines ==> l != [] && NEWLINE !in l
    ensures Pieces(Frame(lines)) == lines
  {
    hide Pieces;
    if lines == [] {
      assert Pieces([]) == [] by { NoPieces(); }
    } else {
      assert lines[0] in lines;
      PiecesNext(lines[0], Frame(lines[1..]));
      assert forall l :: l in lines[1..] ==> l in lines;
      PiecesOfFrame(lines[1..]);
    }
  }

  lemma NoPieces()
    ensures Pieces([]) == []
  {
  }

  lemma {:induction false} FrameAppend(a: seq<Line>, b: seq<Line>)
    ensures Frame(a + b) == Frame(a) + Frame(b)
  {
    if a == [] {
      assert a + b == b;
    } else {
      FrameAppend(a[1..], b);
      assert (a + b)[1..] == a[1..] + b;
    }
  }

  lemma FrameNothing()
    ensures Frame([]) == []
  {
  }

  function Size(lines: seq<Line>): nat { |Frame(lines)| }

  lemma SizeAppend(lines: seq<Line>, l: Line)
    ensures Frame(lines + [l]) == Frame(lines) + l + [NEWLINE]
    ensures Size(lines + [l]) == Size(lines) + |l| + 1
  {
    FrameAppend(lines, [l]);
    assert Frame([l]) == l + [NEWLINE] + Frame([]) == l + [NEWLINE];
  }

  // ----- the segments -----

  /** Segment 0 is the newest file. */
  type Segments = map<nat, seq<Line>>

  datatype Log = Log(segments: Segments, enabled: bool)

  /** Which file operation of an append fails, if one does. */
  datatype Fault = NoFault | CheckFails | RemoveFails | RenameFails(i: nat) | OpenFails

  function Segment(s: Segments, i: nat): seq<Line> { if i in s then s[i] else [] }

  /** Retained records, oldest first. */
  function Retained(s: Segments): seq<Line> {
    Segment(s, 3) + Segment(s, 2) + Segment(s, 1) + Segment(s, 0)
  }

  function Renamed<T>(m: map<nat, T>, i: nat): map<nat, T> {
    if i in m then (m - {i})[i + 1 := m[i]] else m
  }

  /** The rename loop from `i` down to 0, and whether it got through. */
  function Shift<T>(m: map<nat, T>, i: int, fault: Fault): (map<nat, T>, bool)
    decreases i + 1
  {
    if i < 0 then (m, true)
    else if i in m && fault == RenameFails(i) then (m, false)
    else Shift(Renamed(m, i), i - 1, fault)
  }

  function Rotate<T>(m: map<nat, T>, fault: Fault): (map<nat, T>, bool) {
    if fault.CheckFails? || (3 in m && fault.RemoveFails?) then (m, false)
    else Shift(m - {3}, 2, fault)
  }

  predicate Fits(s: Segments, line: Line) { Size(Segment(s, 0)) + |line| + 1 <= MAX_FILE_BYTES }

  predicate Accepts(valid: Line -> bool, line: Line) { |line| + 1 <= MAX_LINE && valid(line) }

  /** One append: the log afterwards and whether the record was stored. A disabled
      log reports success without storing anything. */
  function Append(log: Log, valid: Line -> bool, line: Line, fault: Fault): (r: (Log, bool))
    ensures r.0.enabled == log.enabled
  {
    if !log.enabled then (log, true)
    else if !Accepts(valid, line) || fault.CheckFails? then (log, false)
    else
      var (s, rotated) := if Fits(log.segments, line) then (log.segments, true) else Rotate(log.segments, fault);
      if !rotated || fault.OpenFails? then (log.(segments := s), false)
      else (log.(segments := s[0 := Segment(s, 0) + [line]]), true)
  }

  predicate Stores(log: Log, valid: Line -> bool, line: Line, fault: Fault) {
    log.enabled && Append(log, valid, line, fault).1
  }

  // ----- the store -----

  function EncodeAll(s: Segments): map<nat, seq<byte>> { map i | i in s :: Frame(s[i]) }

  datatype Snapshot = Snapshot(records: seq<Line>, skipped: nat)

  /** One line of a read: kept, pushing out the oldest record of a full list, or skipped. */
  function Push(out: Snapshot, valid: Line -> bool, line: Line): Snapshot {
    if |line| <= MAX_LINE && valid(line) then
      if |out.records| == MAX_RECORDS then Snapshot(out.records[1..] + [line], out.skipped + 1)
      else Snapshot(out.records + [line], out.skipped)
    else out.(skipped := out.skipped + 1)
  }

  function PushAll(out: Snapshot, valid: Line -> bool, lines: seq<Line>): Snapshot
    decreases |lines|
  {
    if lines == [] then out else Push(PushAll(out, valid, lines[..|lines| - 1]), valid, lines[|lines| - 1])
  }

  /** A file's contribution: an oversized file counts as one skip. */
  function ReadFile(out: Snapshot, valid: Line -> bool, files: map<nat, seq<byte>>, i: nat): Snapshot {
    if i !in files then out
    else if |files[i]| > MAX_FILE_BYTES then out.(skipped := out.skipped + 1)
    else PushAll(out, valid, Pieces(files[i]))
  }

  function ReadFrom(files: map<nat, seq<byte>>, valid: Line -> bool, i: nat): Snapshot
    requires i <= MAX_FILES
    decreases MAX_FILES - i
  {
    if i == MAX_FILES then Snapshot([], 0) else ReadFile(ReadFrom(files, valid, i + 1), valid, files, i)
  }

  class Store {
    var files: map<nat, seq<byte>>
    var enabled: bool
    ghost var segments: Segments

    ghost function State(): Log
      reads this
    {
      Log(segments, enabled)
    }

    /** The files hold the encoded segments. */
    ghost predicate Valid()
      reads this
    {
      files == EncodeAll(segments)
    }

    /** The store opens on whatever files it finds; `found` is what they hold. */
    constructor (files: map<nat, seq<byte>>, on: bool, ghost found: Segments)
      requires files == EncodeAll(found)
      ensures Valid() && State() == Log(found, on)
    {
      this.files, enabled, segments := files, on, found;
    }

    method SetEnabled(on: bool, ok: bool)
      requires Valid()
      modifies this
      ensures Valid() && State() == if ok then old(State()).(enabled := on) else old(State())
    {
      if ok { enabled := on; }
    }

    method AppendRecord(valid: Line -> bool, line: Line, fault: Fault) returns (ok: bool)
      requires Valid()
      modifies this
      ensures Valid() && (State(), ok) == Append(old(State()), valid, line, fault)
      ensures !old(enabled) ==> ok && segments == old(segments)
      ensures old(enabled) ==>
        var s, room := old(segments), HasRoom(old(segments), line);
        && (ok <==> |line| + 1 <= MAX_LINE && valid(line) && !Hits(s, !room, fault))
        && (ok ==> Retained(segments) == (if room then Retained(s) else Retained(s)[|Segment(s, 3)|..]) + [line])
    {
      if enabled { AppendIff(State(), valid, line, fault); }
      hide HasRoom, Hits, Retained;
      if !enabled {
        return true;
      }
      if fault.CheckFails? || |line| + 1 > MAX_LINE || !valid(line) {
        return false;
      }
      var len := if 0 in files then |files[0]| else 0;
      if len + |line| + 1 > MAX_FILE_BYTES {
        var rotated := RotateFiles(fault);
        if !rotated {
          return false;
        }
      }
      if fault.OpenFails? {
        return false;
      }
      WriteRecord(line);
      return true;
    }

    /** Append a record to the newest file, creating it when needed. */
    method WriteRecord(line: Line)
      requires Valid()
      modifies this
      ensures Valid() && enabled == old(enabled) && segments == old(segments)[0 := Segment(old(segments), 0) + [line]]
    {
      SizeAppend(Segment(segments, 0), line);
      FrameNothing();
      hide Frame;
      files := files[0 := (if 0 in files then files[0] else []) + line + [NEWLINE]];
      segments := segments[0 := Segment(segments, 0) + [line]];
    }

    /** Remove the oldest file and move the others up, newest last. */
    method RotateFiles(fault: Fault) returns (rotated: bool)
      requires Valid() && !fault.CheckFails?
      modifies this
      ensures Valid() && enabled == old(enabled) && (segments, rotated) == Rotate(old(segments), fault)
    {
      if 3 in files {
        if fault.RemoveFails? {
          return false;
        }
        files, segments := files - {3}, segments - {3};
      }
      assert segments == old(segments) - {3};
      var i := 3;
      while i > 0
        invariant 0 <= i <= 3
        invariant Valid() && enabled == old(enabled)
        invariant Shift(segments, i - 1, fault) == Shift(old(segments) - {3}, 2, fault)
      {
        i := i - 1;
        if i in files {
          if fault == RenameFails(i) {
            return false;
          }
          files := Renamed(files, i);
          segments := Renamed(segments, i);
        }
      }
      return true;
    }

    method Clear(ok: bool)
      requires Valid()
      modifies this
      ensures Valid() && State() == if ok then old(State()).(segments := map[]) else old(State())
    {
      if ok {
        files, segments := map[], map[];
      }
    }

    method Read(valid: Line -> bool) returns (out: Snapshot)
      ensures out == ReadFrom(files, valid, 0)
    {
      hide Pieces;
      out := Snapshot([], 0);
      var i := MAX_FILES;
      while i > 0
        invariant 0 <= i <= MAX_FILES
        invariant out == ReadFrom(files, valid, i)
      {
        i := i - 1;
        if i !in files {
          continue;
        }
        if |files[i]| > MAX_FILE_BYTES {
          out := out.(skipped := out.skipped + 1);
          continue;
        }
        var lines := Pieces(files[i]);
        ghost var before := out;
        for k := 0 to |lines|
          invariant out == PushAll(before, valid, lines[..k])
        {
          assert lines[..k + 1][..k] == lines[..k];
          if |lines[k]| <= MAX_LINE && valid(lines[k]) {
            var records, skipped := out.records, out.skipped;
            if |records| == MAX_RECORDS {
              records, skipped := records[1..], skipped + 1;
            }
            out := Snapshot(records + [lines[k]], skipped);
          } else {
            out := out.(skipped := out.skipped + 1);
          }
        }
        assert lines[..|lines|] == lines;
      }
    }
  }

  // ----- the log as a suffix of what was appended -----

  ghost predicate Suffix(x: seq<Line>, all: seq<Line>) {
    |x| <= |all| && all[|all| - |x|..] == x
  }

  lemma RenamedRetained(s: Segments, i: nat)
    requires i < 3 && i + 1 !in s
    ensures Retained(Renamed(s, i)) == Retained(s) && i !in Renamed(s, i)
  {
    RenamedSegments(s, i);
    var r := Renamed(s, i);
    hide Segment, Renamed;
    var a, b := Segment(r, i + 1), Segment(s, i);
    assert Segment(s, 3) + Segment(s, 2) + Segment(s, 1) + Segment(s, 0) == Retained(s);
    assert a == b && Segment(r, i) == [] && Segment(s, i + 1) == [];
    assert i == 0 || i == 1 || i == 2;
  }

  lemma RenamedSegments(s: Segments, i: nat)
    requires i + 1 !in s
    ensures var r := Renamed(s, i);
      && i !in r && Segment(r, i + 1) == Segment(s, i) && Segment(r, i) == [] && Segment(s, i + 1) == []
      && forall k: nat :: k != i && k != i + 1 ==> Segment(r, k) == Segment(s, k)
  {
  }

  /** A rename loop loses and reorders nothing, even when it stops halfway. */
  lemma {:induction false} ShiftRetained(s: Segments, i: int, fault: Fault)
    requires -1 <= i < 3 && i + 1 !in s
    ensures Retained(Shift(s, i, fault).0) == Retained(s)
    decreases i + 1
  {
    hide Retained;
    if i >= 0 && !(i in s && fault == RenameFails(i)) {
      RenamedRetained(s, i);
      ShiftRetained(Renamed(s, i), i - 1, fault);
    }
  }

  lemma DropOldest(s: Segments)
    ensures Retained(s) == Segment(s, 3) + Retained(s - {3})
  {
    Regroup(Segment(s, 3), Segment(s, 2), Segment(s, 1), Segment(s, 0));
  }

  lemma Regroup(a: seq<Line>, b: seq<Line>, c: seq<Line>, d: seq<Line>)
    ensures a + b + c + d == a + ([] + b + c + d)
  {
  }

  /** A rotation keeps a suffix of the retained records, whatever fails. */
  lemma RotateRetained(s: Segments, fault: Fault)
    ensures Suffix(Retained(Rotate(s, fault).0), Retained(s))
  {
    if fault.CheckFails? || (3 in s && fault.RemoveFails?) {
    } else {
      DropOldest(s);
      ShiftRetained(s - {3}, 2, fault);
    }
  }

  lemma AppendRetained(s: Segments, line: Line)
    ensures Retained(s[0 := Segment(s, 0) + [line]]) == Retained(s) + [line]
  {
  }

  lemma SuffixChain(a: seq<Line>, b: seq<Line>, c: seq<Line>)
    requires Suffix(a, b) && Suffix(b, c)
    ensures Suffix(a, c)
  {
    assert c[|c| - |a|..] == c[|c| - |b|..][|b| - |a|..];
  }

  lemma SuffixSnoc(a: seq<Line>, b: seq<Line>, line: Line)
    requires Suffix(a, b)
    ensures Suffix(a + [line], b + [line])
  {
  }

  // ----- when a record is stored, and what is retained then -----

  /** Whether segment 0 has room for the record and its newline. */
  predicate HasRoom(s: Segments, line: Line) { |Frame(Segment(s, 0))| + |line| + 1 <= MAX_FILE_BYTES }

  /** The fault hits an append: the check of the file, the opening, or, when the files
      have to be shifted, the removal or a renaming of a file that is there. */
  predicate Hits(s: Segments, shifts: bool, fault: Fault) {
    match fault
    case NoFault => false
    case CheckFails => true
    case OpenFails => true
    case RemoveFails => shifts && 3 in s
    case RenameFails(i) => shifts && i <= 2 && i in s
  }

  lemma ShiftIff(s: Segments, fault: Fault)
    requires 3 !in s
    ensures Shift(s, 2, fault).1 <==> !(fault.RenameFails? && fault.i <= 2 && fault.i in s)
  {
    hide Renamed;
    RenamedKeys(s, 2);
    RenamedKeys(Renamed(s, 2), 1);
    var m := Renamed(Renamed(s, 2), 1);
    assert Shift(s, 2, fault) == if 2 in s && fault == RenameFails(2) then (s, false) else Shift(Renamed(s, 2), 1, fault);
    assert Shift(Renamed(s, 2), 1, fault)
        == if 1 in Renamed(s, 2) && fault == RenameFails(1) then (Renamed(s, 2), false) else Shift(m, 0, fault);
    assert Shift(m, 0, fault) == if 0 in m && fault == RenameFails(0) then (m, false) else Shift(Renamed(m, 0), -1, fault);
  }

  lemma RenamedKeys(s: Segments, i: nat)
    ensures forall k :: k < i ==> (k in Renamed(s, i) <==> k in s)
  {
  }

  lemma RotateIff(s: Segments, fault: Fault)
    ensures Rotate(s, fault).1 <==> !Hits(s, true, fault) || fault.OpenFails?
    ensures Rotate(s, fault).1 ==> Retained(Rotate(s, fault).0) == Retained(s)[|Segment(s, 3)|..]
  {
    hide Shift, Retained;
    ShiftIff(s - {3}, fault);
    DropOldest(s);
    ShiftRetained(s - {3}, 2, fault);
    assert (Segment(s, 3) + Retained(s - {3}))[|Segment(s, 3)|..] == Retained(s - {3});
  }

  /** An enabled log stores a record exactly when it is a valid line within the limit
      and no fault hits. Then the record is the newest one retained, behind all that
      were retained before it, but for the oldest file when there was no room. */
  lemma AppendIff(log: Log, valid: Line -> bool, line: Line, fault: Fault)
    requires log.enabled
    ensures var (after, ok) := Append(log, valid, line, fault);
      var room := HasRoom(log.segments, line);
      && (ok <==> |line| + 1 <= MAX_LINE && valid(line) && !Hits(log.segments, !room, fault))
      && (ok ==> Retained(after.segments)
                 == (if room then Retained(log.segments) else Retained(log.segments)[|Segment(log.segments, 3)|..]) + [line])
  {
    hide Rotate, Retained, Segment;
    RotateIff(log.segments, fault);
    AppendRetained(log.segments, line);
    AppendRetained(Rotate(log.segments, fault).0, line);
  }

  // ----- runs of the log -----

  datatype Operation = Add(line: Line, fault: Fault) | ClearLog(ok: bool) | Enable(on: bool, ok: bool)

  /** The log with what was stored since the last clear, the completed rotations
      since then, and whether a storage operation has failed since. */
  datatype Tracked = Tracked(log: Log, appended: seq<Line>, rotations: nat, faulty: bool)

  predicate Rotates(log: Log, valid: Line -> bool, line: Line, fault: Fault) {
    log.enabled && Accepts(valid, line) && !fault.CheckFails? && !Fits(log.segments, line) && Rotate(log.segments, fault).1
  }

  /** What an operation does to the log itself. */
  function Applied(log: Log, valid: Line -> bool, op: Operation): Log {
    match op
    case Add(line, fault) => Append(log, valid, line, fault).0
    case ClearLog(ok) => if ok then log.(segments := map[]) else log
    case Enable(on, ok) => if ok then log.(enabled := on) else log
  }

  function Step(t: Tracked, valid: Line -> bool, op: Operation): (q: Tracked)
    ensures q.log == Applied(t.log, valid, op)
  {
    match op
    case Add(line, fault) =>
      Tracked(Append(t.log, valid, line, fault).0,
              if Stores(t.log, valid, line, fault) then t.appended + [line] else t.appended,
              if Rotates(t.log, valid, line, fault) then t.rotations + 1 else t.rotations,
              t.faulty || !fault.NoFault?)
    case ClearLog(ok) => if ok then Tracked(t.log.(segments := map[]), [], 0, false) else t.(faulty := true)
    case Enable(on, ok) => if ok then t.(log := t.log.(enabled := on)) else t
  }

  function Run(t: Tracked, valid: Line -> bool, ops: seq<Operation>): Tracked
    decreases |ops|
  {
    if ops == [] then t else Run(Step(t, valid, ops[0]), valid, ops[1..])
  }

  lemma {:induction false} RunSnoc(t: Tracked, valid: Line -> bool, ops: seq<Operation>, op: Operation)
    ensures Run(t, valid, ops + [op]) == Step(Run(t, valid, ops), valid, op)
    decreases |ops|
  {
    hide Step;
    if ops == [] {
      assert ([] + [op])[1..] == [];
    } else {
      assert (ops + [op])[1..] == ops[1..] + [op];
      RunSnoc(Step(t, valid, ops[0]), valid, ops[1..], op);
    }
  }

  ghost predicate Capped(s: Segments, valid: Line -> bool) {
    forall i :: i in s ==> i < MAX_FILES && Size(s[i]) <= MAX_FILE_BYTES && forall l :: l in s[i] ==> Accepts(valid, l)
  }

  function Full(rotations: nat): nat { if rotations < 3 then rotations else 3 }

  /** The segments that rotations have closed are nearly full. */
  ghost predicate Filled(s: Segments, rotations: nat) {
    forall i :: 1 <= i <= Full(rotations) ==> i in s && Size(s[i]) > MAX_FILE_BYTES - MAX_LINE
  }

  ghost predicate Inv(t: Tracked, valid: Line -> bool) {
    && Capped(t.log.segments, valid)
    && Suffix(Retained(t.log.segments), t.appended)
    && (!t.faulty ==> Filled(t.log.segments, t.rotations))
  }

  lemma RenamedCapped(s: Segments, valid: Line -> bool, i: nat)
    requires Capped(s, valid) && i < 3
    ensures Capped(Renamed(s, i), valid)
  {
  }

  lemma {:induction false} ShiftCapped(s: Segments, valid: Line -> bool, i: int, fault: Fault)
    requires Capped(s, valid) && -1 <= i < 3
    ensures Capped(Shift(s, i, fault).0, valid)
    decreases i + 1
  {
    hide Capped;
    if i >= 0 && !(i in s && fault == RenameFails(i)) {
      RenamedCapped(s, valid, i);
      ShiftCapped(Renamed(s, i), valid, i - 1, fault);
    }
  }

  /** Without a fault every segment moves up by one. */
  lemma CleanRotation(s: Segments, valid: Line -> bool)
    requires Capped(s, valid)
    ensures var r := Rotate(s, NoFault);
      r.1 && 0 !in r.0 && (forall i :: 1 <= i <= 3 ==> (i in r.0 <==> i - 1 in s) && (i in r.0 ==> r.0[i] == s[i - 1]))
  {
    CleanShift(s - {3});
    MovedUp(s);
    hide Shift, Renamed;
  }

  lemma CleanShift(a: Segments)
    ensures Shift(a, 2, NoFault) == (Renamed(Renamed(Renamed(a, 2), 1), 0), true)
  {
    hide Renamed;
    var b := Renamed(a, 2);
    var c := Renamed(b, 1);
    assert Shift(a, 2, NoFault) == Shift(b, 1, NoFault) == Shift(c, 0, NoFault) == Shift(Renamed(c, 0), -1, NoFault);
  }

  lemma MovedUp(s: Segments)
    ensures var r := Renamed(Renamed(Renamed(s - {3}, 2), 1), 0);
      0 !in r && forall i :: 1 <= i <= 3 ==> (i in r <==> i - 1 in s) && (i in r ==> r[i] == s[i - 1])
  {
  }

  lemma RotatedCapped(s: Segments, valid: Line -> bool, fault: Fault)
    requires Capped(s, valid)
    ensures Capped(Rotate(s, fault).0, valid)
    ensures Rotate(s, fault).1 ==> 0 !in Rotate(s, fault).0
  {
    assert Capped(s - {3}, valid);
    ShiftCapped(s - {3}, valid, 2, fault);
    ShiftEmptiesNewest(s - {3}, 2, fault);
  }

  lemma {:induction false} ShiftEmptiesNewest(s: Segments, i: int, fault: Fault)
    requires -1 <= i
    ensures Shift(s, i, fault).1 ==> (i >= 0 || 0 !in s ==> 0 !in Shift(s, i, fault).0)
    decreases i + 1
  {
    if i >= 0 && !(i in s && fault == RenameFails(i)) {
      ShiftEmptiesNewest(Renamed(s, i), i - 1, fault);
    }
  }

  lemma StoredCapped(s: Segments, valid: Line -> bool, line: Line)
    requires Capped(s, valid) && Accepts(valid, line)
    requires Size(Segment(s, 0)) + |line| + 1 <= MAX_FILE_BYTES
    ensures Capped(s[0 := Segment(s, 0) + [line]], valid)
  {
    SizeAppend(Segment(s, 0), line);
  }

  lemma AddStep(t: Tracked, valid: Line -> bool, line: Line, fault: Fault)
    requires Inv(t, valid)
    ensures Inv(Step(t, valid, Add(line, fault)), valid)
  {
    hide Capped, Suffix, Retained, Rotate, Filled;
    var s := t.log.segments;
    if t.log.enabled && Accepts(valid, line) && !fault.CheckFails? {
      var q := s;
      if !Fits(s, line) {
        q := Rotate(s, fault).0;
        RotatedCapped(s, valid, fault);
        RotateRetained(s, fault);
        SuffixChain(Retained(q), Retained(s), t.appended);
        if fault.NoFault? {
          RotationFills(s, valid, line, t.rotations, t.faulty);
        }
      }
      if Stores(t.log, valid, line, fault) {
        assert Segment(q, 0) == [] || q == s;
        StoredCapped(q, valid, line);
        AppendRetained(q, line);
        SuffixSnoc(Retained(q), t.appended, line);
        StoringFills(q, line, if Fits(s, line) then t.rotations else t.rotations + 1);
      }
    }
  }

  lemma RotationFills(s: Segments, valid: Line -> bool, line: Line, rotations: nat, faulty: bool)
    requires Capped(s, valid) && Accepts(valid, line) && !Fits(s, line)
    requires !faulty ==> Filled(s, rotations)
    ensures Rotate(s, NoFault).1
    ensures !faulty ==> Filled(Rotate(s, NoFault).0, rotations + 1)
  {
    CleanRotation(s, valid);
    assert 0 in s;
    var r := Rotate(s, NoFault).0;
    if !faulty {
      forall i | 1 <= i <= Full(rotations + 1) ensures i in r && Size(r[i]) > MAX_FILE_BYTES - MAX_LINE {
        if i > 1 { assert i - 1 in s; }
      }
    }
  }

  lemma StoringFills(s: Segments, line: Line, rotations: nat)
    ensures Filled(s, rotations) ==> Filled(s[0 := Segment(s, 0) + [line]], rotations)
  {
  }

  lemma {:induction false} RunInv(t: Tracked, valid: Line -> bool, ops: seq<Operation>)
    requires Inv(t, valid)
    ensures Inv(Run(t, valid, ops), valid)
    decreases |ops|
  {
    if ops != [] {
      match ops[0] {
        case Add(line, fault) => AddStep(t, valid, line, fault);
        case ClearLog(ok) =>
        case Enable(on, ok) =>
      }
      hide Inv;
      RunInv(Step(t, valid, ops[0]), valid, ops[1..]);
    }
  }

  /** A log as it is opened, whatever whole records its files already hold. */
  function Start(first: Log): Tracked { Tracked(first, Retained(first.segments), 0, false) }

  lemma Reached(valid: Line -> bool, first: Log, ops: seq<Operation>)
    requires Capped(first.segments, valid)
    ensures Inv(Run(Start(first), valid, ops), valid)
  {
    SameIsSuffix(Retained(first.segments));
    assert Inv(Start(first), valid);
    RunInv(Start(first), valid, ops);
  }

  lemma SameIsSuffix(lines: seq<Line>)
    ensures Suffix(lines, lines)
  {
  }

  /** The log refines an append-only list: whatever files it is opened on, whatever
      operations run and whichever renames and removals fail, the segments hold whole
      records, never exceed their cap, and read from oldest to newest are a suffix of
      what was there at first and what was stored, since the last clear. */
  lemma LogIsSuffix(valid: Line -> bool, first: Log, ops: seq<Operation>)
    requires Capped(first.segments, valid)
    ensures var t := Run(Start(first), valid, ops);
      && Suffix(Retained(t.log.segments), t.appended)
      && (forall i :: i in t.log.segments ==> i < MAX_FILES && Size(t.log.segments[i]) <= MAX_FILE_BYTES)
  {
    Reached(valid, first, ops);
  }

  /** Without storage failures three nearly full segments survive three rotations. */
  lemma TailSurvives(valid: Line -> bool, first: Log, ops: seq<Operation>)
    requires Capped(first.segments, valid)
    ensures var t := Run(Start(first), valid, ops);
      !t.faulty && t.rotations >= 3 ==> Size(Retained(t.log.segments)) > 3 * (MAX_FILE_BYTES - MAX_LINE)
  {
    Reached(valid, first, ops);
    var s := Run(Start(first), valid, ops).log.segments;
    FrameAppend(Segment(s, 3) + Segment(s, 2) + Segment(s, 1), Segment(s, 0));
    FrameAppend(Segment(s, 3) + Segment(s, 2), Segment(s, 1));
    FrameAppend(Segment(s, 3), Segment(s, 2));
  }

  /** What a log must have stored since the last clear when nothing fails: what it was
      opened on, and every valid line within the limit that came while it was enabled. */
  function Wanted(kept: seq<Line>, on: bool, valid: Line -> bool, ops: seq<Operation>): seq<Line>
    decreases |ops|
  {
    if ops == [] then kept
    else match ops[0]
      case Add(line, _) => Wanted(if on && |line| + 1 <= MAX_LINE && valid(line) then kept + [line] else kept, on, valid, ops[1..])
      case ClearLog(_) => Wanted([], on, valid, ops[1..])
      case Enable(turned, _) => Wanted(kept, turned, valid, ops[1..])
  }

  predicate Faultless(ops: seq<Operation>) {
    forall i :: 0 <= i < |ops| ==>
      match ops[i]
      case Add(_, fault) => fault.NoFault?
      case ClearLog(ok) => ok
      case Enable(_, ok) => ok
  }

  lemma {:induction false} WantedStored(t: Tracked, valid: Line -> bool, ops: seq<Operation>)
    requires Faultless(ops)
    ensures Run(t, valid, ops).appended == Wanted(t.appended, t.log.enabled, valid, ops)
    decreases |ops|
  {
    if ops != [] {
      var op, rest := ops[0], ops[1..];
      if op.Add? && t.log.enabled { AppendIff(t.log, valid, op.line, op.fault); }
      hide Append, Rotates;
      WantedStored(Step(t, valid, op), valid, rest);
    }
  }

  /** Without faults nothing is refused that should be stored, and nothing else is. */
  lemma EverythingStored(valid: Line -> bool, first: Log, ops: seq<Operation>)
    requires Faultless(ops)
    ensures Run(Start(first), valid, ops).appended == Wanted(Retained(first.segments), first.enabled, valid, ops)
  {
    WantedStored(Start(first), valid, ops);
  }

  // ----- reading -----

  /** The last records of a list, as many as a read returns. */
  function Latest(lines: seq<Line>): Snapshot {
    if |lines| <= MAX_RECORDS then Snapshot(lines, 0)
    else Snapshot(lines[|lines| - MAX_RECORDS..], |lines| - MAX_RECORDS)
  }

  lemma LatestPush(valid: Line -> bool, lines: seq<Line>, l: Line)
    requires Accepts(valid, l)
    ensures Push(Latest(lines), valid, l) == Latest(lines + [l])
  {
    var n := |lines|;
    if n >= MAX_RECORDS {
      assert (lines + [l])[n + 1 - MAX_RECORDS..] == lines[n - MAX_RECORDS..][1..] + [l];
    }
  }

  lemma {:induction false} LatestPushAll(valid: Line -> bool, before: seq<Line>, lines: seq<Line>)
    requires forall l :: l in lines ==> Accepts(valid, l)
    ensures PushAll(Latest(before), valid, lines) == Latest(before + lines)
    decreases |lines|
  {
    if lines == [] {
      assert before + lines == before;
    } else {
      var n := |lines| - 1;
      var front := lines[..n];
      assert forall l :: l in front ==> l in lines;
      LatestPushAll(valid, before, front);
      LatestPush(valid, before + front, lines[n]);
      assert before + front + [lines[n]] == before + lines;
    }
  }

  lemma ReadSegment(valid: Line -> bool, s: Segments, before: seq<Line>, i: nat)
    requires Codec(valid) && Capped(s, valid)
    ensures ReadFile(Latest(before), valid, EncodeAll(s), i) == Latest(before + Segment(s, i))
  {
    if i in s {
      PiecesOfFrame(s[i]);
      LatestPushAll(valid, before, s[i]);
    } else {
      assert before + Segment(s, i) == before;
    }
  }

  /** A read of the files returns the last 4096 retained records and counts the
      others as skipped. */
  lemma ReadReturnsLatest(valid: Line -> bool, s: Segments)
    requires Codec(valid) && Capped(s, valid)
    ensures ReadFrom(EncodeAll(s), valid, 0) == Latest(Retained(s))
  {
    var files := EncodeAll(s);
    hide ReadFile, Latest, Capped, Codec;
    assert Latest([]) == Snapshot([], 0) by { NothingLatest(); }
    ReadSegment(valid, s, [], 3);
    ReadSegment(valid, s, [] + Segment(s, 3), 2);
    ReadSegment(valid, s, [] + Segment(s, 3) + Segment(s, 2), 1);
    ReadSegment(valid, s, [] + Segment(s, 3) + Segment(s, 2) + Segment(s, 1), 0);
    assert [] + Segment(s, 3) == Segment(s, 3);
    assert ReadFrom(files, valid, 3) == ReadFile(ReadFrom(files, valid, 4), valid, files, 3);
    assert ReadFrom(files, valid, 2) == ReadFile(ReadFrom(files, valid, 3), valid, files, 2);
    assert ReadFrom(files, valid, 1) == ReadFile(ReadFrom(files, valid, 2), valid, files, 1);
    assert ReadFrom(files, valid, 0) == ReadFile(ReadFrom(files, valid, 1), valid, files, 0);
  }

  lemma NothingLatest()
    ensures Latest([]) == Snapshot([], 0)
  {
  }

  // ----- reading files that anything may be in -----

  function NonEmpty(lines: seq<Line>): seq<Line> {
    if lines == [] then [] else (if lines[0] == [] then [] else [lines[0]]) + NonEmpty(lines[1..])
  }

  lemma LastPiece(tail: Line)
    requires NewlineAt(tail) == |tail|
    ensures Pieces(tail) == NonEmpty([tail])
  {
    assert tail[..|tail|] == tail && [tail][1..] == [];
    assert NonEmpty([]) == [];
    hide NewlineAt;
  }

  /** Lines and an unterminated rest are the pieces, as far as they are not empty. */
  lemma {:induction false} PiecesExactly(lines: seq<Line>, tail: Line)
    requires (forall l :: l in lines ==> NEWLINE !in l) && NEWLINE !in tail
    ensures Pieces(Frame(lines) + tail) == NonEmpty(lines + [tail])
    decreases |lines|
  {
    if lines == [] {
      FrameNothing();
      assert [] + tail == tail && [] + [tail] == [tail] && [tail][1..] == [];
      NoNewline(tail);
      LastPiece(tail);
    } else {
      var rest := Frame(lines[1..]) + tail;
      assert lines[0] in lines;
      assert Frame(lines) + tail == lines[0] + [NEWLINE] + rest;
      FirstLine(lines[0], rest);
      PiecesExactly(lines[1..], tail);
      assert (lines + [tail])[0] == lines[0] && (lines + [tail])[1..] == lines[1..] + [tail];
    }
  }

  /** The lines of a file that is read at all. */
  function LinesOf(files: map<nat, seq<byte>>, i: nat): seq<Line> {
    if i in files && |files[i]| <= 0x4_0000 then Pieces(files[i]) else []
  }

  function Oversized(files: map<nat, seq<byte>>, i: nat): nat { if i in files && |files[i]| > 0x4_0000 then 1 else 0 }

  /** The lines that are records. */
  function Good(valid: Line -> bool, lines: seq<Line>): seq<Line> {
    if lines == [] then []
    else Good(valid, lines[..|lines| - 1]) + if |lines[|lines| - 1]| <= 0x400 && valid(lines[|lines| - 1]) then [lines[|lines| - 1]] else []
  }

  lemma GoodNext(valid: Line -> bool, a: seq<Line>, l: Line)
    ensures Good(valid, a + [l]) == Good(valid, a) + if |l| <= 0x400 && valid(l) then [l] else []
  {
    assert (a + [l])[..|a|] == a;
  }

  /** What a read has gathered: the latest of the records, and the count of all else. */
  predicate Gathered(out: Snapshot, valid: Line -> bool, lines: seq<Line>, oversized: nat) {
    && out.records == Latest(Good(valid, lines)).records
    && out.skipped + |out.records| == |lines| + oversized
  }

  lemma PushGathers(out: Snapshot, valid: Line -> bool, lines: seq<Line>, l: Line, oversized: nat)
    requires Gathered(out, valid, lines, oversized)
    ensures Gathered(Push(out, valid, l), valid, lines + [l], oversized)
  {
    GoodNext(valid, lines, l);
    var good := Good(valid, lines);
    hide Good;
    if |good| >= MAX_RECORDS { assert (good + [l])[|good| + 1 - MAX_RECORDS..] == good[|good| - MAX_RECORDS..][1..] + [l]; }
  }

  lemma {:induction false} PushAllGathers(out: Snapshot, valid: Line -> bool, before: seq<Line>, lines: seq<Line>, oversized: nat)
    requires Gathered(out, valid, before, oversized)
    ensures Gathered(PushAll(out, valid, lines), valid, before + lines, oversized)
    decreases |lines|
  {
    hide Gathered, Push;
    if lines == [] {
      assert before + lines == before;
    } else {
      var n := |lines| - 1;
      PushAllGathers(out, valid, before, lines[..n], oversized);
      PushGathers(PushAll(out, valid, lines[..n]), valid, before + lines[..n], lines[n], oversized);
      assert before + lines[..n] + [lines[n]] == before + lines;
    }
  }

  lemma FileGathers(out: Snapshot, valid: Line -> bool, files: map<nat, seq<byte>>, i: nat, before: seq<Line>, oversized: nat)
    requires Gathered(out, valid, before, oversized)
    ensures Gathered(ReadFile(out, valid, files, i), valid, before + LinesOf(files, i), oversized + Oversized(files, i))
  {
    hide Pieces, Good, Latest;
    if i in files && |files[i]| <= MAX_FILE_BYTES {
      PushAllGathers(out, valid, before, Pieces(files[i]), oversized);
    } else {
      assert before + [] == before;
    }
  }

  /** Whatever is in the files, a read returns the last 4096 records among their
      lines, oldest file first; and records and skips add up to the lines of the files
      that are not too large, and those files. */
  lemma ReadGathers(valid: Line -> bool, files: map<nat, seq<byte>>)
    ensures Gathered(ReadFrom(files, valid, 0), valid,
                     LinesOf(files, 3) + LinesOf(files, 2) + LinesOf(files, 1) + LinesOf(files, 0),
                     Oversized(files, 3) + Oversized(files, 2) + Oversized(files, 1) + Oversized(files, 0))
  {
    hide ReadFile, LinesOf, Oversized;
    var a, b, c := LinesOf(files, 3), LinesOf(files, 2), LinesOf(files, 1);
    var k, l, m := Oversized(files, 3), Oversized(files, 2), Oversized(files, 1);
    assert [] + a == a;
    NothingGathered(valid);
    hide Gathered;
    FileGathers(ReadFrom(files, valid, 4), valid, files, 3, [], 0);
    FileGathers(ReadFrom(files, valid, 3), valid, files, 2, a, k);
    FileGathers(ReadFrom(files, valid, 2), valid, files, 1, a + b, k + l);
    FileGathers(ReadFrom(files, valid, 1), valid, files, 0, a + b + c, k + l + m);
  }

  lemma NothingGathered(valid: Line -> bool)
    ensures Gathered(Snapshot([], 0), valid, [], 0)
  {
  }
}
