/** The line framer (stdiotransport.cpp, onReadable): reads of any size are cut into frames. */
module Framing {
  import opened Sequences
  import opened Texts

  type Bytes = seq<byte>

  const NEWLINE: byte := 10
  const RETURN: byte := 13

  /** What read(2) gives. */
  datatype Read = Failed | EndOfFile | Chunk(bytes: Bytes)

  /** What the JSON parser makes of a frame. */
  datatype Parsed<T> = Malformed | NotAnObject | Message(message: T)

  datatype Code = ParseError | InvalidRequest

  datatype Event<T> = InvalidFrame(code: Code) | MessageReceived(message: T) | Closed

  // ------------------------------------------------------------ the whole stream

  /** A stream is lines ended by '\n', then an unfinished rest. */
  function Joined(lines: seq<Bytes>): Bytes {
    if lines == [] then [] else lines[0] + [NEWLINE] + Joined(lines[1..])
  }

  ghost predicate IsCut(stream: Bytes, lines: seq<Bytes>, rest: Bytes) {
    && stream == Joined(lines) + rest
    && NEWLINE !in rest
    && forall line | line in lines :: NEWLINE !in line
  }

  /** QByteArray::indexOf, -1 when there is none. */
  function NewlineAt(stream: Bytes): (at: int)
    ensures -1 <= at < |stream|
    ensures at == -1 <==> NEWLINE !in stream
    ensures at >= 0 ==> stream[at] == NEWLINE && NEWLINE !in stream[..at]
  {
    if stream == [] then -1
    else if stream[0] == NEWLINE then 0
    else
      var at := NewlineAt(stream[1..]);
      if at == -1 then -1 else
        assert stream[..at + 1] == [stream[0]] + stream[1..][..at];
        at + 1
  }

  function Lines(stream: Bytes): seq<Bytes>
    decreases |stream|
  {
    var at := NewlineAt(stream);
    if at == -1 then [] else [stream[..at]] + Lines(stream[at + 1..])
  }

  function Rest(stream: Bytes): Bytes
    decreases |stream|
  {
    var at := NewlineAt(stream);
    if at == -1 then stream else Rest(stream[at + 1..])
  }

  lemma AfterLine(line: Bytes, more: Bytes, rest: Bytes)
    ensures (line + [NEWLINE] + more) + rest == line + [NEWLINE] + (more + rest)
  {
  }

  lemma AtFirstNewline(a: Bytes, x: Bytes, b: Bytes, y: Bytes)
    requires NEWLINE !in a && NEWLINE !in b && a + [NEWLINE] + x == b + [NEWLINE] + y
    ensures a == b && x == y
  {
    var s, z := a + [NEWLINE] + x, b + [NEWLINE] + y;
    assert s[|a|] == NEWLINE && z[|b|] == NEWLINE;
    assert forall k | 0 <= k < |a| :: s[k] == a[k];
    assert forall k | 0 <= k < |b| :: z[k] == b[k];
    assert s[..|a|] == a && z[..|b|] == b;
    assert s[|a| + 1..] == x && z[|b| + 1..] == y;
  }

  /** The only cut of a stream is into its lines and its rest. */
  lemma {:induction false} CutIsUnique(stream: Bytes, lines: seq<Bytes>, rest: Bytes)
    ensures IsCut(stream, lines, rest) <==> lines == Lines(stream) && rest == Rest(stream)
    decreases |stream|
  {
    hide IsCut, Joined;
    var at := NewlineAt(stream);
    if at == -1 {
      CutWithoutNewline(stream, lines, rest);
    } else if lines == [] {
      CutWithNewline(stream, rest);
    } else {
      CutIsUnique(stream[at + 1..], lines[1..], rest);
      CutHead(stream, lines, rest);
      assert lines == [lines[0]] + lines[1..];
    }
  }

  lemma CutWithoutNewline(stream: Bytes, lines: seq<Bytes>, rest: Bytes)
    requires NEWLINE !in stream
    ensures IsCut(stream, lines, rest) <==> lines == [] && rest == stream
  {
    if lines == [] {
      assert Joined(lines) + rest == rest;
    } else {
      assert Joined(lines)[|lines[0]|] == NEWLINE;
      assert NEWLINE in Joined(lines) + rest;
    }
  }

  lemma CutWithNewline(stream: Bytes, rest: Bytes)
    requires NEWLINE in stream
    ensures !IsCut(stream, [], rest)
  {
    assert Joined([]) + rest == rest;
  }

  lemma CutHead(stream: Bytes, lines: seq<Bytes>, rest: Bytes)
    requires NEWLINE in stream && lines != []
    ensures var at := NewlineAt(stream);
            IsCut(stream, lines, rest) <==> lines[0] == stream[..at] && IsCut(stream[at + 1..], lines[1..], rest)
  {
    var at := NewlineAt(stream);
    var tail := Joined(lines[1..]) + rest;
    AfterLine(lines[0], Joined(lines[1..]), rest);
    assert Joined(lines) + rest == lines[0] + [NEWLINE] + tail;
    assert forall line :: line in lines <==> line == lines[0] || line in lines[1..];
    hide Joined, NewlineAt;
    StreamHead(stream, at);
    if stream == lines[0] + [NEWLINE] + tail && NEWLINE !in lines[0] {
      AtFirstNewline(stream[..at], stream[at + 1..], lines[0], tail);
    }
  }

  lemma StreamHead(stream: Bytes, at: nat)
    requires at < |stream| && stream[at] == NEWLINE
    ensures stream == stream[..at] + [NEWLINE] + stream[at + 1..]
  {
  }

  lemma {:induction false} JoinedAppend(a: seq<Bytes>, b: seq<Bytes>)
    ensures Joined(a + b) == Joined(a) + Joined(b)
  {
    if a == [] {
      assert a + b == b && Joined(a) + Joined(b) == Joined(b);
    } else {
      JoinedAppend(a[1..], b);
      Front(a, b);
      AfterLine(a[0], Joined(a[1..]), Joined(b));
    }
  }

  /** Cutting a stream, and then what is left together with what follows, is cutting it at once. */
  lemma CutContinues(a: Bytes, b: Bytes)
    ensures Lines(a + b) == Lines(a) + Lines(Rest(a) + b)
    ensures Rest(a + b) == Rest(Rest(a) + b)
  {
    hide Lines, Rest;
    var whole := Rest(a) + b;
    CutIsUnique(a, Lines(a), Rest(a));
    CutIsUnique(whole, Lines(whole), Rest(whole));
    CutsChain(a, Lines(a), Rest(a), b, Lines(whole), Rest(whole));
    CutIsUnique(a + b, Lines(a) + Lines(whole), Rest(whole));
  }

  lemma CutsChain(a: Bytes, first: seq<Bytes>, rest: Bytes, b: Bytes, then_: seq<Bytes>, last: Bytes)
    requires IsCut(a, first, rest) && IsCut(rest + b, then_, last)
    ensures IsCut(a + b, first + then_, last)
  {
    JoinedAppend(first, then_);
    hide Joined;
    Regroup(Joined(first), rest, b);
    Regroup(Joined(first), Joined(then_), last);
  }

  // ------------------------------------------------------------ frames

  /** One '\r' before the '\n' belongs to the line end. */
  function Chopped(line: Bytes): Bytes {
    if line != [] && line[|line| - 1] == RETURN then line[..|line| - 1] else line
  }

  predicate IsSpace(b: byte) {
    9 <= b <= 13 || b == 32
  }

  predicate IsBlank(line: Bytes) {
    forall i | 0 <= i < |line| :: IsSpace(line[i])
  }

  function Handled<T>(line: Bytes, parse: Bytes -> Parsed<T>): Event<T> {
    match parse(Chopped(line))
    case Malformed => InvalidFrame(ParseError)
    case NotAnObject => InvalidFrame(InvalidRequest)
    case Message(message) => MessageReceived(message)
  }

  /** The signals for the lines of a stream: blank lines give none. */
  function Frames<T>(lines: seq<Bytes>, parse: Bytes -> Parsed<T>): seq<Event<T>> {
    if lines == [] then []
    else (if IsBlank(Chopped(lines[0])) then [] else [Handled(lines[0], parse)]) + Frames(lines[1..], parse)
  }

  lemma {:induction false} FramesAppend<T>(a: seq<Bytes>, b: seq<Bytes>, parse: Bytes -> Parsed<T>)
    ensures Frames(a + b, parse) == Frames(a, parse) + Frames(b, parse)
  {
    hide IsBlank, Chopped, Handled;
    if a == [] {
      assert a + b == b && Frames(a, parse) + Frames(b, parse) == Frames(b, parse);
    } else {
      FramesAppend(a[1..], b, parse);
      Front(a, b);
      Regroup(if IsBlank(Chopped(a[0])) then [] else [Handled(a[0], parse)], Frames(a[1..], parse), Frames(b, parse));
    }
  }

  /** What one frame of the client is signalled as, whichever way its line ends: the object parsed, a
      wrong frame for another value, a parse error for what is no JSON; nothing when it is blank. */
  lemma FrameSignals<T>(text: Bytes, ending: Bytes, parse: Bytes -> Parsed<T>)
    requires NEWLINE !in text && (text == [] || text[|text| - 1] != 13) && (ending == [10] || ending == [13, 10])
    ensures var signals := Frames(Lines(text + ending), parse);
            if forall i | 0 <= i < |text| :: text[i] == 32 || 9 <= text[i] <= 13 then signals == []
            else
              && |signals| == 1
              && (parse(text).Malformed? <==> signals[0] == InvalidFrame(ParseError))
              && (parse(text).NotAnObject? <==> signals[0] == InvalidFrame(InvalidRequest))
              && (parse(text).Message? <==> signals[0].MessageReceived? && signals[0].message == parse(text).message)
    ensures Rest(text + ending) == []
  {
    LineOf(text, ending);
    OneFrame(if ending == [10] then text else text + [RETURN], parse);
    BlankIs(text);
    hide Frames, Lines, Rest, Chopped, NewlineAt, IsBlank;
  }

  lemma BlankIs(text: Bytes)
    ensures IsBlank(text) <==> forall i | 0 <= i < |text| :: text[i] == 32 || 9 <= text[i] <= 13
  {
  }

  lemma LineOf(text: Bytes, ending: Bytes)
    requires NEWLINE !in text && (text == [] || text[|text| - 1] != 13) && (ending == [10] || ending == [13, 10])
    ensures var line := if ending == [10] then text else text + [RETURN];
            && Lines(text + ending) == [line] && Rest(text + ending) == [] && Chopped(line) == text
  {
    hide Lines, Rest, NewlineAt;
    var line := if ending == [10] then text else text + [RETURN];
    assert text + ending == line + [NEWLINE];
    CutIsUnique(text + ending, [line], []);
    OneLineCut(line);
  }

  lemma OneLineCut(line: Bytes)
    requires NEWLINE !in line
    ensures IsCut(line + [NEWLINE], [line], [])
  {
    assert [line][1..] == [];
    assert Joined([]) == [];
    assert Joined([line]) == line + [NEWLINE];
  }

  lemma OneFrame<T>(line: Bytes, parse: Bytes -> Parsed<T>)
    ensures Frames([line], parse) == if IsBlank(Chopped(line)) then [] else [Handled(line, parse)]
  {
    assert [line][1..] == [];
    assert Frames([], parse) == [];
    hide IsBlank, Chopped, Handled;
  }

  // ------------------------------------------------------------ any sequence of reads

  /** All that a sequence of reads delivers. */
  function Stream(chunks: seq<Bytes>): Bytes {
    if chunks == [] then [] else chunks[0] + Stream(chunks[1..])
  }

  /** The signals of handling the reads one after the other, the buffer being `buffer` before. */
  function Signals<T>(buffer: Bytes, chunks: seq<Bytes>, parse: Bytes -> Parsed<T>): seq<Event<T>>
    decreases chunks
  {
    if chunks == [] then []
    else Frames(Lines(buffer + chunks[0]), parse) + Signals(Rest(buffer + chunks[0]), chunks[1..], parse)
  }

  /** The signals do not depend on how the stream is cut into reads. */
  lemma {:induction false} ChunkingIsInvisible<T>(buffer: Bytes, chunks: seq<Bytes>, parse: Bytes -> Parsed<T>)
    requires NEWLINE !in buffer
    ensures Signals(buffer, chunks, parse) == Frames(Lines(buffer + Stream(chunks)), parse)
    decreases chunks
  {
    if chunks == [] {
      assert buffer + [] == buffer;
    } else {
      var first, later := buffer + chunks[0], Stream(chunks[1..]);
      assert buffer + Stream(chunks) == first + later;
      CutContinues(first, later);
      FramesAppend(Lines(first), Lines(Rest(first) + later), parse);
      CutIsUnique(first, Lines(first), Rest(first));
      ChunkingIsInvisible(Rest(first), chunks[1..], parse);
    }
  }

  lemma FirstLine(buffer: Bytes, at: nat)
    requires at == NewlineAt(buffer)
    ensures Rest(buffer) == Rest(buffer[at + 1..]) && Lines(buffer) == [buffer[..at]] + Lines(buffer[at + 1..])
  {
    hide NewlineAt;
  }

  lemma FirstFrame<T>(buffer: Bytes, at: nat, parse: Bytes -> Parsed<T>, before: seq<Event<T>>)
    requires at == NewlineAt(buffer)
    ensures Rest(buffer) == Rest(buffer[at + 1..])
    ensures before + Frames(Lines(buffer), parse) ==
            before + Frames([buffer[..at]], parse) + Frames(Lines(buffer[at + 1..]), parse)
  {
    FirstLine(buffer, at);
    hide Frames, Lines, Rest, NewlineAt;
    FramesAppend([buffer[..at]], Lines(buffer[at + 1..]), parse);
    Regroup(before, Frames([buffer[..at]], parse), Frames(Lines(buffer[at + 1..]), parse));
  }

  lemma NoFrames<T>(parse: Bytes -> Parsed<T>)
    ensures Frames([], parse) == []
  {
  }

  lemma NoMore<T>(buffer: Bytes, parse: Bytes -> Parsed<T>, before: seq<Event<T>>)
    requires NewlineAt(buffer) == -1
    ensures Rest(buffer) == buffer && before + Frames(Lines(buffer), parse) == before
  {
  }

  // ------------------------------------------------------------ the reader

  class StdioTransport {
    var buffer: Bytes
    var listening: bool
    /** Everything read so far, and the signals emitted for it. */
    ghost var received: Bytes
    ghost var cut: seq<Bytes>

    /** Between reads the buffer holds the unfinished line, no more. */
    ghost predicate Valid()
      reads this
    {
      IsCut(received, cut, buffer)
    }

    constructor ()
      ensures Valid() && received == [] && cut == [] && listening
    {
      buffer, listening, received, cut := [], true, [], [];
    }

    method OnReadable<T>(read: Read, parse: Bytes -> Parsed<T>) returns (events: seq<Event<T>>)
      requires Valid()
      modifies this
      ensures Valid() && NEWLINE !in buffer
      ensures received == old(received) + if read.Chunk? then read.bytes else []
      ensures old(cut) <= cut
      ensures read.EndOfFile? ==> events == [Closed] && !listening
      ensures !read.EndOfFile? ==> events == Frames(cut[|old(cut)|..], parse) && listening == old(listening)
    {
      hide IsBlank, Lines, Rest, Frames;
      CutIsUnique(received, cut, buffer);
      if read.Failed? {
        assert received + [] == received && cut[|cut|..] == [];
        NoFrames(parse);
        return [];
      }
      if read.EndOfFile? {
        assert received + [] == received;
        listening := false;
        return [Closed];
      }
      buffer := buffer + read.bytes;
      ghost var lines := Lines(buffer);
      ghost var rest := Rest(buffer);
      CutContinues(received, read.bytes);
      events := [];
      assert events + Frames(lines, parse) == Frames(lines, parse);
      var newline := NewlineAt(buffer);
      while newline != -1
        invariant newline == NewlineAt(buffer) && Rest(buffer) == rest
        invariant events + Frames(Lines(buffer), parse) == Frames(lines, parse)
        invariant received == old(received) && cut == old(cut) && listening == old(listening)
        decreases |buffer|
      {
        var line := buffer[..newline];
        FirstFrame(buffer, newline, parse, events);
        buffer := buffer[newline + 1..];
        newline := NewlineAt(buffer);
        var event := Take(line, parse);
        events := events + event;
      }
      NoMore(buffer, parse, events);
      received := received + read.bytes;
      cut := cut + lines;
      assert cut[|old(cut)|..] == lines;
      CutIsUnique(received, cut, buffer);
    }
  }

  /** One turn of the loop: the line without its '\r', skipped when blank, else parsed. */
  method Take<T>(line: Bytes, parse: Bytes -> Parsed<T>) returns (events: seq<Event<T>>)
    ensures events == Frames([line], parse)
  {
    var text := line;
    if text != [] && text[|text| - 1] == RETURN {
      text := text[..|text| - 1];
    }
    var blank := Trimmed(text);
    if blank {
      return [];
    }
    match parse(text)
    case Malformed => return [InvalidFrame(ParseError)];
    case NotAnObject => return [InvalidFrame(InvalidRequest)];
    case Message(message) => return [MessageReceived(message)];
  }

  /** Whether trimmed() leaves nothing. */
  method Trimmed(line: Bytes) returns (blank: bool)
    ensures blank == IsBlank(line)
  {
    for i := 0 to |line|
      invariant forall k | 0 <= k < i :: IsSpace(line[k])
    {
      if !IsSpace(line[i]) {
        return false;
      }
    }
    blank := true;
  }
}
