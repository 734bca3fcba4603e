/** The bounded reader of the SSH child's standard output, and the loop that turns
    it into events. Whether bytes are UTF-8 is a parameter. */
module BoundedLines {
  import opened ByteLines
  import opened Bytes
  import opened Results

  const MAX_SSH_STDOUT_LINE_BYTES: nat := 2 * 1024 * 1024
  const RETURN: byte := 13

  datatype BoundedLine = Line(text: seq<byte>) | Eof | PartialEof | ReadError | TooLong | InvalidUtf8

  datatype ReaderEvent = LineEvent(text: seq<byte>) | EofEvent | ReadErrorEvent | ProtocolCorruption

  /** How the pipe ends once its bytes are read: closed, or with an I/O error. */
  datatype Ending = Closed | Broken

  // ----- the whole stream, read without chunks -----

  function DropReturn(line: seq<byte>): seq<byte> {
    if line != [] && line[|line| - 1] == RETURN then line[..|line| - 1] else line
  }

  /** A complete line as the reader returns it. */
  function Judge(line: seq<byte>, utf8: seq<byte> -> bool): (r: BoundedLine)
    ensures r.Line? || r.TooLong? || r.InvalidUtf8?
  {
    if |line| > MAX_SSH_STDOUT_LINE_BYTES then TooLong
    else if utf8(DropReturn(line)) then Line(DropReturn(line)) else InvalidUtf8
  }

  /** What an unterminated rest of the stream comes to. */
  function JudgeTail(tail: seq<byte>, ending: Ending): (r: BoundedLine)
    ensures !r.Line? && !r.InvalidUtf8?
  {
    if |tail| > MAX_SSH_STDOUT_LINE_BYTES then TooLong
    else if ending == Broken then ReadError
    else if tail == [] then Eof
    else PartialEof
  }

  function Next(stream: seq<byte>, ending: Ending, utf8: seq<byte> -> bool): BoundedLine {
    var i := NewlineAt(stream);
    if i < |stream| then Judge(stream[..i], utf8) else JudgeTail(stream, ending)
  }

  function Flatten(chunks: seq<seq<byte>>): seq<byte> {
    if chunks == [] then [] else chunks[0] + Flatten(chunks[1..])
  }

  // ----- the chunked reader -----

  /** A buffered pipe: whatever chunks the system hands over, then the ending. */
  class ChunkReader {
    var chunks: seq<seq<byte>>
    const ending: Ending

    constructor (chunks: seq<seq<byte>>, ending: Ending)
      requires [] !in chunks
      ensures this.chunks == chunks && this.ending == ending && Valid()
    {
      this.chunks := chunks;
      this.ending := ending;
    }

    ghost predicate Valid() reads this { [] !in chunks }

    ghost function Rest(): seq<byte> reads this { Flatten(chunks) }

    /** `fill_buf`: the bytes at hand, none at the end of a closed pipe. */
    method FillBuf() returns (r: Result<seq<byte>, ()>)
      requires Valid()
      ensures r.Success? && r.value != [] ==> chunks != [] && r.value == chunks[0]
      ensures r.Success? && r.value == [] ==> chunks == [] && ending == Closed
      ensures r.Failure? ==> chunks == [] && ending == Broken
    {
      if chunks == [] {
        return if ending == Closed then Success([]) else Failure(());
      }
      assert chunks[0] in chunks;
      return Success(chunks[0]);
    }

    method Consume(n: nat)
      requires Valid() && chunks != [] && n <= |chunks[0]|
      modifies this`chunks
      ensures Valid()
      ensures Rest() == old(chunks[0])[n..] + Flatten(old(chunks)[1..])
      ensures n == |old(chunks[0])| ==> chunks == old(chunks)[1..] && Rest() == Flatten(old(chunks)[1..])
    {
      var front, later := chunks[0][n..], chunks[1..];
      chunks := if front == [] then later else [front] + later;
      assert [front] + later != [] && ([front] + later)[1..] == later;
    }
  }

  /** The end of a line: the chunk is consumed past the newline, one carriage
      return is dropped, and the rest is decoded. */
  method FinishLine(reader: ChunkReader, start: seq<byte>, newline: nat, utf8: seq<byte> -> bool)
    returns (r: BoundedLine)
    requires reader.Valid() && reader.chunks != [] && newline < |reader.chunks[0]|
    requires |start| + newline <= MAX_SSH_STDOUT_LINE_BYTES
    modifies reader`chunks
    ensures reader.Valid()
    ensures r == Judge(start + old(reader.chunks[0])[..newline], utf8)
    ensures reader.Rest() == old(reader.chunks[0])[newline + 1..] + Flatten(old(reader.chunks)[1..])
  {
    hide Flatten;
    var bytes := start + reader.chunks[0][..newline];
    reader.Consume(newline + 1);
    if bytes != [] && bytes[|bytes| - 1] == RETURN {
      bytes := bytes[..|bytes| - 1];
    }
    return if utf8(bytes) then Line(bytes) else InvalidUtf8;
  }

  /** The bytes that decide a line are decided however they are cut into chunks,
      and the line buffer never grows beyond the limit. */
  method ReadBoundedLine(reader: ChunkReader, utf8: seq<byte> -> bool) returns (r: BoundedLine, ghost peak: nat)
    requires reader.Valid()
    modifies reader`chunks
    ensures reader.Valid()
    ensures r == Next(old(reader.Rest()), reader.ending, utf8)
    ensures r.Line? ==> reader.Rest() == old(reader.Rest())[NewlineAt(old(reader.Rest())) + 1..]
    ensures peak <= MAX_SSH_STDOUT_LINE_BYTES
  {
    hide *;
    var bytes: seq<byte> := [];
    peak := 0;
    ghost var whole := reader.Rest();
    while true
      invariant reader.Valid() && whole == bytes + reader.Rest()
      invariant NEWLINE !in bytes && |bytes| == peak <= MAX_SSH_STDOUT_LINE_BYTES
      decreases |reader.chunks|
    {
      var filled := reader.FillBuf();
      if filled.Failure? || filled.value == [] {
        NothingLeft(reader);
        assert whole == bytes;
        TailIs(bytes, reader.ending, utf8);
        if filled.Failure? {
          return ReadError, peak;
        }
        return if bytes == [] then Eof else PartialEof, peak;
      }
      var available := filled.value;
      ghost var later := Flatten(reader.chunks[1..]);
      FirstChunk(reader);
      var newline := NewlineAt(available);
      if newline < |available| {
        CompleteLine(bytes, available, later, reader.ending, utf8);
        if |bytes| + newline > MAX_SSH_STDOUT_LINE_BYTES {
          JudgeLong(bytes + available[..newline], utf8);
          return TooLong, peak;
        }
        peak := |bytes| + newline;
        r := FinishLine(reader, bytes, newline, utf8);
        return r, peak;
      }
      NoLineYet(bytes, available, later);
      if |bytes| + |available| > MAX_SSH_STDOUT_LINE_BYTES {
        TooLongEventually(bytes + available, later, reader.ending, utf8);
        return TooLong, peak;
      }
      bytes := bytes + available;
      peak := |bytes|;
      reader.Consume(|available|);
    }
  }

  lemma NothingLeft(reader: ChunkReader)
    ensures reader.chunks == [] ==> reader.Rest() == []
  {
  }

  lemma FirstChunk(reader: ChunkReader)
    requires reader.chunks != []
    ensures reader.Rest() == reader.chunks[0] + Flatten(reader.chunks[1..])
  {
  }

  lemma TailIs(tail: seq<byte>, ending: Ending, utf8: seq<byte> -> bool)
    requires NEWLINE !in tail && |tail| <= MAX_SSH_STDOUT_LINE_BYTES
    ensures Next(tail, ending, utf8) == JudgeTail(tail, ending)
    ensures JudgeTail(tail, ending) == if ending == Broken then ReadError else if tail == [] then Eof else PartialEof
  {
    NoNewline(tail);
  }

  /** A line of `front` and the newline after it decide the next result. */
  lemma LineFirst(front: seq<byte>, rest: seq<byte>, ending: Ending, utf8: seq<byte> -> bool)
    requires NEWLINE !in front
    ensures var whole := front + [NEWLINE] + rest;
      && NewlineAt(whole) == |front| < |whole|
      && Next(whole, ending, utf8) == Judge(front, utf8)
      && whole[|front| + 1..] == rest
  {
    hide Judge, NewlineAt;
    FirstLine(front, rest);
  }

  /** The first newline lies in the chunk at hand. */
  lemma CompleteLine(bytes: seq<byte>, available: seq<byte>, later: seq<byte>, ending: Ending, utf8: seq<byte> -> bool)
    requires NEWLINE !in bytes && NewlineAt(available) < |available|
    ensures var whole := bytes + (available + later); var n := NewlineAt(available);
      && NewlineAt(whole) == |bytes| + n < |whole|
      && Next(whole, ending, utf8) == Judge(bytes + available[..n], utf8)
      && whole[|bytes| + n + 1..] == available[n + 1..] + later
  {
    hide NewlineAt, Judge, Next;
    var n := NewlineAt(available);
    var whole := bytes + (available + later);
    var front, rest := bytes + available[..n], available[n + 1..] + later;
    assert available == available[..n] + [NEWLINE] + available[n + 1..];
    assert whole == front + [NEWLINE] + rest;
    LineFirst(front, rest, ending, utf8);
  }

  /** A chunk without a newline joins the unfinished line. */
  lemma NoLineYet(bytes: seq<byte>, available: seq<byte>, later: seq<byte>)
    requires NEWLINE !in bytes && NewlineAt(available) == |available|
    ensures NEWLINE !in bytes + available
    ensures bytes + (available + later) == (bytes + available) + later
  {
    NoNewline(available);
  }

  lemma JudgeLong(line: seq<byte>, utf8: seq<byte> -> bool)
    requires |line| > MAX_SSH_STDOUT_LINE_BYTES
    ensures Judge(line, utf8) == TooLong
  {
  }

  /** Once the limit is passed without a newline, nothing that follows matters. */
  lemma TooLongEventually(start: seq<byte>, later: seq<byte>, ending: Ending, utf8: seq<byte> -> bool)
    requires NEWLINE !in start && |start| > MAX_SSH_STDOUT_LINE_BYTES
    ensures Next(start + later, ending, utf8) == TooLong
  {
    NewlineAfter(start, later);
  }

  lemma LineIsTerminated(stream: seq<byte>, ending: Ending, utf8: seq<byte> -> bool)
    ensures Next(stream, ending, utf8).Line? ==> NewlineAt(stream) < |stream|
  {
  }

  // ----- the reader task -----

  /** The events of a stream, line by line until the first that is not a line. */
  function Events(stream: seq<byte>, ending: Ending, utf8: seq<byte> -> bool): (e: seq<ReaderEvent>)
    ensures e != []
    decreases |stream|
  {
    var next := Next(stream, ending, utf8);
    if next.Line? then [LineEvent(next.text)] + Events(stream[NewlineAt(stream) + 1..], ending, utf8)
    else [LastEvent(next)]
  }

  /** What the receiver learns from a result that is no line. */
  function LastEvent(r: BoundedLine): ReaderEvent {
    if r.Eof? then EofEvent else if r.ReadError? then ReadErrorEvent else ProtocolCorruption
  }

  lemma EventsIs(stream: seq<byte>, ending: Ending, utf8: seq<byte> -> bool)
    ensures var next := Next(stream, ending, utf8);
      && (next.Line? ==> NewlineAt(stream) < |stream|)
      && Events(stream, ending, utf8) ==
         if next.Line? then [LineEvent(next.text)] + Events(stream[NewlineAt(stream) + 1..], ending, utf8)
         else [LastEvent(next)]
  {
    hide Next, LastEvent;
    LineIsTerminated(stream, ending, utf8);
  }

  lemma LastEventIs(r: BoundedLine)
    ensures LastEvent(r) == if r.Eof? then EofEvent else if r.ReadError? then ReadErrorEvent else ProtocolCorruption
  {
  }

  /** The receiving side of the channel: it takes `room` events and is then dropped. */
  class EventChannel {
    var received: seq<ReaderEvent>
    const room: nat

    constructor (room: nat)
      ensures received == [] && this.room == room
    {
      received := [];
      this.room := room;
    }

    method Send(event: ReaderEvent) returns (ok: bool)
      modifies this`received
      ensures ok == (|old(received)| < room)
      ensures received == if ok then old(received) + [event] else old(received)
    {
      ok := |received| < room;
      if ok { received := received + [event]; }
    }
  }

  function Prefix<T>(s: seq<T>, n: nat): seq<T> { if n < |s| then s[..n] else s }

  lemma PrefixGrows(front: seq<ReaderEvent>, e: ReaderEvent, rest: seq<ReaderEvent>, room: nat)
    requires |front| <= room && rest != []
    ensures |front| == room ==> Prefix(front + [e] + rest, room) == front
  {
  }

  lemma PrefixEnds(front: seq<ReaderEvent>, e: ReaderEvent, room: nat)
    requires |front| <= room
    ensures Prefix(front + [e], room) == if |front| < room then front + [e] else front
  {
  }

  /** The loop delivers the events of the stream in order, as many as are taken, and
      flags corruption exactly when it got to an event that says so. */
  method PumpStdout(reader: ChunkReader, channel: EventChannel, utf8: seq<byte> -> bool) returns (corrupted: bool)
    requires reader.Valid() && channel.received == []
    modifies reader`chunks, channel`received
    ensures var events := Events(old(reader.Rest()), reader.ending, utf8);
      && channel.received == Prefix(events, channel.room)
      && (corrupted <==> |events| <= channel.room + 1 && events[|events| - 1] == ProtocolCorruption)
  {
    hide *;
    corrupted := false;
    ghost var all := Events(reader.Rest(), reader.ending, utf8);
    ghost var next := all;
    while true
      invariant reader.Valid() && !corrupted
      invariant |channel.received| <= channel.room
      invariant next == Events(reader.Rest(), reader.ending, utf8) && all == channel.received + next
      decreases |reader.Rest()|
    {
      LineIsTerminated(reader.Rest(), reader.ending, utf8);
      EventsIs(reader.Rest(), reader.ending, utf8);
      var line, _ := ReadBoundedLine(reader, utf8);
      var ok;
      if line.Line? {
        next := next[1..];
        assert all == channel.received + [LineEvent(line.text)] + next;
        PrefixGrows(channel.received, LineEvent(line.text), next, channel.room);
        ok := channel.Send(LineEvent(line.text));
        if !ok { return; }
      } else {
        PrefixEnds(channel.received, LastEvent(line), channel.room);
        LastEventIs(line);
        if line.Eof? {
          ok := channel.Send(EofEvent);
        } else if line.ReadError? {
          ok := channel.Send(ReadErrorEvent);
        } else {
          corrupted := true;
          ok := channel.Send(ProtocolCorruption);
        }
        return;
      }
    }
  }

  // ----- framing -----

  predicate NoneBreaks(lines: seq<seq<byte>>) { forall l :: l in lines ==> NEWLINE !in l }

  /** What a receiver should see of a list of lines and an unterminated rest. */
  function Expected(lines: seq<seq<byte>>, tail: seq<byte>, ending: Ending, utf8: seq<byte> -> bool): seq<ReaderEvent> {
    if lines == [] then
      [LastEvent(JudgeTail(tail, ending))]
    else match Judge(lines[0], utf8)
      case Line(text) => [LineEvent(text)] + Expected(lines[1..], tail, ending, utf8)
      case _ => [ProtocolCorruption]
  }

  lemma FrameNext(lines: seq<seq<byte>>, tail: seq<byte>)
    requires lines != [] && NEWLINE !in lines[0]
    ensures var s := Frame(lines) + tail; var n := |lines[0]|;
      NewlineAt(s) == n < |s| && s[..n] == lines[0] && s[n + 1..] == Frame(lines[1..]) + tail
  {
    var rest := Frame(lines[1..]) + tail;
    assert Frame(lines) + tail == lines[0] + [NEWLINE] + rest;
    FirstLine(lines[0], rest);
  }

  /** Splitting the stream at its newlines and judging line by line gives the same
      events as reading it. */
  lemma {:induction false} EventsOfLines(lines: seq<seq<byte>>, tail: seq<byte>, ending: Ending, utf8: seq<byte> -> bool)
    requires NoneBreaks(lines) && NEWLINE !in tail
    ensures Events(Frame(lines) + tail, ending, utf8) == Expected(lines, tail, ending, utf8)
    decreases |lines|
  {
    hide Frame, NewlineAt, Judge, JudgeTail;
    if lines == [] {
      EmptyFrame(tail);
      NoNewline(tail);
    } else {
      var s := Frame(lines) + tail;
      FrameNext(lines, tail);
      EventsOfLines(lines[1..], tail, ending, utf8);
      assert Next(s, ending, utf8) == Judge(lines[0], utf8);
      assert s[NewlineAt(s) + 1..] == Frame(lines[1..]) + tail;
    }
  }

  lemma EmptyFrame(tail: seq<byte>)
    ensures Frame([]) + tail == tail
  {
  }

  /** Every stream is some lines and an unterminated rest, so this covers them all. */
  lemma {:induction false} EveryStreamSplits(stream: seq<byte>) returns (lines: seq<seq<byte>>, tail: seq<byte>)
    ensures NoneBreaks(lines) && NEWLINE !in tail && stream == Frame(lines) + tail
    decreases |stream|
  {
    var i := NewlineAt(stream);
    if i == |stream| {
      NoNewline(stream);
      lines, tail := [], stream;
      EmptyFrame(stream);
    } else {
      var rest: seq<seq<byte>>;
      rest, tail := EveryStreamSplits(stream[i + 1..]);
      lines := [stream[..i]] + rest;
      assert lines[1..] == rest;
      assert stream == stream[..i] + [NEWLINE] + stream[i + 1..];
      assert Frame(lines) + tail == stream[..i] + [NEWLINE] + (Frame(rest) + tail);
    }
  }

  /** A line a peer can send and get back unchanged. */
  predicate Sendable(line: seq<byte>, utf8: seq<byte> -> bool) {
    |line| <= MAX_SSH_STDOUT_LINE_BYTES && utf8(line) && (line != [] ==> line[|line| - 1] != RETURN)
  }

  function LineEvents(lines: seq<seq<byte>>): seq<ReaderEvent> {
    seq(|lines|, i requires 0 <= i < |lines| => LineEvent(lines[i]))
  }

  /** Framed lines come back as they were sent, followed by a clean end, exactly
      when each of them is sendable. */
  lemma {:induction false} FramedLinesReturn(lines: seq<seq<byte>>, utf8: seq<byte> -> bool)
    requires NoneBreaks(lines)
    ensures Events(Frame(lines), Closed, utf8) == LineEvents(lines) + [EofEvent]
            <==> forall i :: 0 <= i < |lines| ==> Sendable(lines[i], utf8)
  {
    assert Frame(lines) + [] == Frame(lines);
    EventsOfLines(lines, [], Closed, utf8);
    ExpectedReturn(lines, utf8);
  }

  lemma {:induction false} ExpectedReturn(lines: seq<seq<byte>>, utf8: seq<byte> -> bool)
    ensures Expected(lines, [], Closed, utf8) == LineEvents(lines) + [EofEvent]
            <==> forall i :: 0 <= i < |lines| ==> Sendable(lines[i], utf8)
    decreases |lines|
  {
    hide Judge, JudgeTail, DropReturn, Sendable;
    if lines == [] {
      TailIs([], Closed, utf8);
    } else {
      var rest := lines[1..];
      ExpectedReturn(rest, utf8);
      SendableIs(lines[0], utf8);
      assert LineEvents(lines) + [EofEvent] == [LineEvent(lines[0])] + (LineEvents(rest) + [EofEvent]);
      assert forall i :: 0 < i < |lines| ==> lines[i] == rest[i - 1];
      if forall i :: 0 <= i < |rest| ==> Sendable(rest[i], utf8) {
        assert forall i :: 0 < i < |lines| ==> Sendable(lines[i], utf8);
      } else {
        var k :| 0 <= k < |rest| && !Sendable(rest[k], utf8);
        assert !Sendable(lines[k + 1], utf8);
      }
      var e := Expected(lines, [], Closed, utf8);
      if Judge(lines[0], utf8).Line? {
        assert e[1..] == Expected(rest, [], Closed, utf8);
      }
    }
  }

  lemma SendableIs(line: seq<byte>, utf8: seq<byte> -> bool)
    ensures Sendable(line, utf8) <==> Judge(line, utf8) == Line(line)
  {
  }

  /** `text` is the line without the one carriage return it may end in. */
  predicate Unreturned(line: seq<byte>, text: seq<byte>) {
    line == text + [RETURN] || (line == text && (text == [] || text[|text| - 1] != RETURN))
  }

  /** A line that is delivered as `text`. */
  predicate DeliveredAs(line: seq<byte>, text: seq<byte>, utf8: seq<byte> -> bool) {
    |line| <= 0x20_0000 && Unreturned(line, text) && utf8(text)
  }

  /** How a stream ends once all its lines are delivered: cleanly, when nothing
      follows and the pipe was closed; with the read error, when the pipe broke before
      the rest grew too long; and as a corrupted stream otherwise. */
  function Ends(tail: seq<byte>, ending: Ending): ReaderEvent {
    if ending == Closed && tail == [] then EofEvent
    else if ending == Broken && |tail| <= 0x20_0000 then ReadErrorEvent
    else ProtocolCorruption
  }

  lemma JudgedIff(line: seq<byte>, text: seq<byte>, utf8: seq<byte> -> bool)
    ensures Judge(line, utf8) == Line(text) <==> DeliveredAs(line, text, utf8)
    ensures Judge(line, utf8).Line? ==> DeliveredAs(line, Judge(line, utf8).text, utf8)
  {
    if Unreturned(line, text) && line == text + [RETURN] { assert line[..|line| - 1] == text; }
    if line != [] && line[|line| - 1] == RETURN { assert line == line[..|line| - 1] + [RETURN]; }
  }

  lemma TailEnds(tail: seq<byte>, ending: Ending)
    ensures LastEvent(JudgeTail(tail, ending)) == Ends(tail, ending)
  {
  }

  /** Every stream: the lines up to the first that cannot be delivered, and then how it
      ends, or corruption at that line. */
  lemma {:induction false} StreamDelivers(lines: seq<seq<byte>>, tail: seq<byte>, ending: Ending, utf8: seq<byte> -> bool)
    returns (texts: seq<seq<byte>>)
    requires NoneBreaks(lines) && NEWLINE !in tail
    ensures |texts| <= |lines| && forall i :: 0 <= i < |texts| ==> DeliveredAs(lines[i], texts[i], utf8)
    ensures |texts| < |lines| ==> forall text :: !DeliveredAs(lines[|texts|], text, utf8)
    ensures Events(Frame(lines) + tail, ending, utf8)
         == LineEvents(texts) + [if |texts| < |lines| then ProtocolCorruption else Ends(tail, ending)]
    decreases |lines|
  {
    hide Frame, Judge, JudgeTail, DeliveredAs, Ends, Events;
    EventsOfLines(lines, tail, ending, utf8);
    if lines == [] {
      texts := [];
      TailEnds(tail, ending);
    } else {
      var rest := lines[1..];
      var judged := Judge(lines[0], utf8);
      forall text ensures judged == Line(text) <==> DeliveredAs(lines[0], text, utf8) { JudgedIff(lines[0], text, utf8); }
      if judged.Line? {
        var more := StreamDelivers(rest, tail, ending, utf8);
        EventsOfLines(rest, tail, ending, utf8);
        texts := [judged.text] + more;
        assert LineEvents(texts) == [LineEvent(judged.text)] + LineEvents(more);
        assert forall i :: 0 < i < |texts| ==> texts[i] == more[i - 1] && lines[i] == rest[i - 1];
        assert |texts| < |lines| ==> lines[|texts|] == rest[|more|];
      } else {
        texts := [];
      }
    }
  }
}
