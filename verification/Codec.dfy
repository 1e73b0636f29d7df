/** The Content-Length framing of src/client.rs: `write_frame` and `read_one_message`
    ("Base Protocol / Header Part", LSP 3.17 specification). */
module Codec {
  import opened Wrappers
  import opened Utf8

  const LF: byte := 10
  const CR: byte := 13

  /** "Content-Length: " */
  const PREFIX: seq<byte> :=
    [67, 111, 110, 116, 101, 110, 116, 45, 76, 101, 110, 103, 116, 104, 58, 32]

  function Header(length: nat): (h: seq<byte>)
    ensures |h| > 4
  {
    PREFIX + Decimal(length) + [CR, LF, CR, LF]
  }

  function Frame(body: seq<byte>): (f: seq<byte>)
    ensures |f| > |body| + 4
  {
    Header(|body|) + body
  }

  function Frames(bodies: seq<seq<byte>>): seq<byte>
  {
    if bodies == [] then [] else Frame(bodies[0]) + Frames(bodies[1..])
  }

  /** Bodies a Rust `String` can hold. */
  ghost predicate Sized(bodies: seq<seq<byte>>)
  {
    forall i :: 0 <= i < |bodies| ==> |bodies[i]| <= USIZE_MAX
  }

  // ---- reading --------------------------------------------------------------

  /** How far one `read_line` reaches: through the first line feed, or to the end. */
  function LineLength(input: seq<byte>): (n: nat)
    ensures n <= |input| && (input != [] ==> n > 0)
    ensures forall i :: 0 <= i < n - 1 ==> input[i] != LF
    ensures n < |input| ==> n > 0 && input[n - 1] == LF
  {
    if input == [] then 0
    else if input[0] == LF then 1
    else 1 + LineLength(input[1..])
  }

  datatype HeaderResult = BlankLine(length: Option<nat>, rest: seq<byte>) | HeaderEof | HeaderInvalid

  /** The header loop: `length` is what the last Content-Length line so far said. */
  function ReadHeaders(input: seq<byte>, length: Option<nat>): (r: HeaderResult)
    ensures r.BlankLine? ==> |r.rest| < |input|
    decreases |input|
  {
    if input == [] then HeaderEof
    else
      var n := LineLength(input);
      match DecodeUtf8(input[..n])
      case None => HeaderInvalid
      case Some(line) =>
        var trimmed := Trim(line);
        if trimmed == [] then BlankLine(length, input[n..])
        else ReadHeaders(input[n..], NextLength(trimmed, length))
  }

  function NextLength(trimmed: Text, length: Option<nat>): Option<nat>
  {
    if PREFIX <= trimmed then ParseUsize(trimmed[|PREFIX|..]) else length
  }

  datatype ReadResult =
    | Message(body: seq<byte>, rest: seq<byte>)
    | ServerDied   // end of stream before the blank line
    | Protocol     // no usable Content-Length
    | Io           // header not UTF-8, or end of stream inside the body

  function ReadOne(input: seq<byte>): (r: ReadResult)
    ensures r.Message? ==> |r.rest| < |input|
  {
    Body(ReadHeaders(input, None))
  }

  function Body(h: HeaderResult): (r: ReadResult)
    ensures r.Message? ==> h.BlankLine? && |r.rest| <= |h.rest|
  {
    match h
    case HeaderEof => ServerDied
    case HeaderInvalid => Io
    case BlankLine(None, _) => Protocol
    case BlankLine(Some(n), rest) =>
      if n <= |rest| then Message(rest[..n], rest[n..]) else Io
  }

  datatype Stream = Stream(bodies: seq<seq<byte>>, end: ReadResult)

  /** The reader task's loop: messages until the first error. */
  function ReadAll(input: seq<byte>): (s: Stream)
    ensures !s.end.Message?
    decreases |input|
  {
    match ReadOne(input)
    case Message(body, rest) =>
      var s := ReadAll(rest);
      Stream([body] + s.bodies, s.end)
    case error => Stream([], error)
  }

  // ---- the frame's header line ----------------------------------------------

  lemma LineEndsAt(input: seq<byte>, n: nat)
    requires n < |input| && input[n] == LF
    requires forall i :: 0 <= i < n ==> input[i] != LF
    ensures LineLength(input) == n + 1
  {
  }

  lemma LineWithoutEnd(input: seq<byte>)
    requires forall i :: 0 <= i < |input| ==> input[i] != LF
    ensures LineLength(input) == |input|
  {
  }

  /** `t` starts and ends with something that is not white space. */
  ghost predicate Tight(t: Text)
  {
    t != [] && !IsWhite(t[0]) && !IsWhite(t[|t| - 1])
  }

  lemma TrimLineEnd(t: Text)
    requires Tight(t)
    ensures Trim(t) == t && Trim(t + [13, 10]) == t
  {
    var u := t + [13, 10];
    assert u[..|u| - 1] == t + [13];
    assert (t + [13])[..|t|] == t;
    assert TrimEnd(u) == TrimEnd(t + [13]) == TrimEnd(t);
  }

  /** The length line alone, without its line end. */
  function LengthLine(length: nat): (l: seq<byte>)
    ensures |l| >= |PREFIX| + 1
  {
    PREFIX + Decimal(length)
  }

  lemma LengthLineShape(length: nat)
    ensures var l := LengthLine(length);
            Tight(l) && IsAscii(l) && forall i :: 0 <= i < |l| ==> l[i] != LF
  {
    var l := LengthLine(length);
    forall i | 0 <= i < |l| ensures l[i] != LF && l[i] < 0x80
    {
      if i >= |PREFIX| { assert IsDigit(Decimal(length)[i - |PREFIX|]); }
    }
    assert IsDigit(Decimal(length)[|l| - 1 - |PREFIX|]);
  }

  /** The first header line of a frame is consumed and its length understood. */
  lemma ReadLengthLine(length: nat, rest: seq<byte>)
    requires length <= USIZE_MAX
    ensures ReadHeaders(LengthLine(length) + [CR, LF] + rest, None)
         == ReadHeaders(rest, Some(length))
  {
    var l := LengthLine(length);
    var line := l + [CR, LF];
    var input := line + rest;
    LengthLineShape(length);
    LineEndsAt(input, |l| + 1);
    assert input[..|l| + 2] == line && input[|l| + 2..] == rest;
    AsciiDecodesToItself(line);
    TrimLineEnd(l);
    assert l[..|PREFIX|] == PREFIX && l[|PREFIX|..] == Decimal(length);
    ParsePrint(length);
  }

  lemma ReadBlankLine(length: Option<nat>, rest: seq<byte>)
    ensures ReadHeaders([CR, LF] + rest, length) == BlankLine(length, rest)
  {
    var input := [CR, LF] + rest;
    LineEndsAt(input, 1);
    assert input[..2] == [CR, LF] && input[2..] == rest;
    WhiteLine([CR, LF]);
  }

  lemma WhiteLine(line: seq<byte>)
    requires line == [CR, LF] || line == [CR]
    ensures DecodeUtf8(line) == Some(line) && Trim(line) == []
  {
    AsciiDecodesToItself(line);
    var t: Text := line;
    if |line| == 2 {
      assert t[1..] == [10] && [10][1..] == [];
      assert TrimStart([10]) == TrimStart([]) == [];
    } else {
      assert t[1..] == [];
      assert TrimStart(t) == TrimStart([]);
    }
  }

  // ---- round trips ----------------------------------------------------------

  /** One frame decodes to its body and leaves exactly what followed it. */
  lemma FrameRoundTrip(body: seq<byte>, rest: seq<byte>)
    requires |body| <= USIZE_MAX
    ensures ReadOne(Frame(body) + rest) == Message(body, rest)
  {
    var l := LengthLine(|body|);
    assert Frame(body) + rest == l + [CR, LF] + ([CR, LF] + (body + rest));
    ReadLengthLine(|body|, [CR, LF] + (body + rest));
    ReadBlankLine(Some(|body|), body + rest);
    assert (body + rest)[..|body|] == body && (body + rest)[|body|..] == rest;
  }

  lemma ReadAllStep(body: seq<byte>, rest: seq<byte>)
    requires |body| <= USIZE_MAX
    ensures ReadAll(Frame(body) + rest) == Stream([body] + ReadAll(rest).bodies, ReadAll(rest).end)
  {
    hide Frame, ReadOne;
    FrameRoundTrip(body, rest);
  }

  /** A written stream decodes to exactly its bodies, in order; whatever follows the last
      frame is read as if it stood alone. */
  lemma {:induction false} StreamRoundTrip(bodies: seq<seq<byte>>, tail: seq<byte>)
    requires Sized(bodies)
    ensures ReadAll(Frames(bodies) + tail)
         == Stream(bodies + ReadAll(tail).bodies, ReadAll(tail).end)
  {
    hide Frame, ReadOne;
    if bodies == [] {
      assert Frames(bodies) + tail == tail;
      assert bodies + ReadAll(tail).bodies == ReadAll(tail).bodies;
    } else {
      var rest := Frames(bodies[1..]) + tail;
      assert Frames(bodies) + tail == Frame(bodies[0]) + rest;
      ReadAllStep(bodies[0], rest);
      StreamRoundTrip(bodies[1..], tail);
      assert bodies + ReadAll(tail).bodies == [bodies[0]] + (bodies[1..] + ReadAll(tail).bodies);
    }
  }

  lemma FrameShape(body: seq<byte>)
    ensures Frame(body) == LengthLine(|body|) + [CR, LF] + ([CR, LF] + body)
    ensures |Frame(body)| == |LengthLine(|body|)| + 4 + |body|
  {
    assert Frame(body) == LengthLine(|body|) + [CR, LF] + ([CR, LF] + body);
  }

  /** What is left of a frame cut after its length line. */
  lemma CutAfterLengthLine(body: seq<byte>, after: seq<byte>)
    requires after <= [CR, LF] + body && |after| < 2 + |body|
    ensures Body(ReadHeaders(after, Some(|body|))).Message? <==> body == [] && after == [CR]
  {
    if after == [] {
    } else if |after| == 1 {
      assert after == [CR];
      LineWithoutEnd(after);
      assert after[..1] == after && after[1..] == [];
      WhiteLine(after);
    } else {
      var part := after[2..];
      assert after == [CR, LF] + part;
      ReadBlankLine(Some(|body|), part);
    }
  }

  /** A strict prefix of a frame is a message only for the empty body, and then only when
      just the final line feed is missing. */
  lemma StrictPrefixIsNoMessage(body: seq<byte>, n: nat)
    requires |body| <= USIZE_MAX && n < |Frame(body)|
    ensures ReadOne(Frame(body)[..n]).Message? <==> body == [] && n == |Frame(body)| - 1
  {
    FrameShape(body);
    hide Frame, LengthLine, ReadHeaders;
    var l := LengthLine(|body|);
    var p := Frame(body)[..n];
    if n < |l| + 2 {
      assert p == (l + [CR])[..n];
      NoCompleteLine(|body|, p);
    } else {
      var after := ([CR, LF] + body)[..n - |l| - 2];
      assert p == l + [CR, LF] + after;
      ReadLengthLine(|body|, after);
      CutAfterLengthLine(body, after);
    }
  }

  lemma NoCompleteLine(length: nat, p: seq<byte>)
    requires p <= LengthLine(length) + [CR]
    ensures ReadOne(p) == ServerDied
  {
    var l := LengthLine(length);
    LengthLineShape(length);
    if p != [] {
      forall i | 0 <= i < |p| ensures p[i] != LF && p[i] < 0x80
      {
        assert p[i] == (l + [CR])[i];
      }
      LineWithoutEnd(p);
      assert p[..|p|] == p && p[|p|..] == [];
      AsciiDecodesToItself(p);
      assert p[0] == (l + [CR])[0] == 67;
      KeepsFirst(p);
      var trimmed := Trim(p);
      assert ReadHeaders(p, None) == ReadHeaders([], NextLength(trimmed, None));
    }
  }

  lemma {:induction false} KeepsFirst(t: Text)
    requires t != [] && !IsWhite(t[0])
    ensures Trim(t) != []
  {
    if IsWhite(t[|t| - 1]) {
      KeepsFirst(t[..|t| - 1]);
    }
  }

  // ---- prefixes of a stream of frames ---------------------------------------

  lemma {:induction false} FramesAppend(a: seq<seq<byte>>, b: seq<seq<byte>>)
    ensures Frames(a + b) == Frames(a) + Frames(b)
  {
    hide Frame;
    if a == [] {
      assert a + b == b;
    } else {
      FramesAppend(a[1..], b);
      assert (a + b)[1..] == a[1..] + b;
    }
  }

  /** How many of the frames of `bodies` fit whole into the first `n` bytes. */
  function WholeFrames(bodies: seq<seq<byte>>, n: nat): (j: nat)
    ensures j <= |bodies|
  {
    if bodies == [] || n < |Frame(bodies[0])| then 0
    else 1 + WholeFrames(bodies[1..], n - |Frame(bodies[0])|)
  }

  /** Bytes that cover the frames of `head` hold at least those. */
  lemma {:induction false} WholeFramesReach(head: seq<seq<byte>>, more: seq<seq<byte>>, n: nat)
    requires |Frames(head)| <= n
    ensures WholeFrames(head + more, n) >= |head|
  {
    hide Frame;
    if head != [] {
      WholeFramesReach(head[1..], more, n - |Frame(head[0])|);
      assert (head + more)[1..] == head[1..] + more;
    }
  }

  /** A stream cut anywhere decodes to the bodies it holds whole, and to nothing else. */
  lemma {:induction false} CutStream(bodies: seq<seq<byte>>, p: seq<byte>)
    requires Sized(bodies) && (forall i :: 0 <= i < |bodies| ==> bodies[i] != [])
    requires p <= Frames(bodies)
    ensures ReadAll(p).bodies == bodies[..WholeFrames(bodies, |p|)]
  {
    hide Frame, ReadOne;
    if bodies != [] {
      var f := Frame(bodies[0]);
      if |p| < |f| {
        assert p == f[..|p|];
        StrictPrefixIsNoMessage(bodies[0], |p|);
      } else {
        var rest := p[|f|..];
        assert p == f + rest && rest <= Frames(bodies[1..]);
        CutStream(bodies[1..], rest);
        ReadAllStep(bodies[0], rest);
        var j := WholeFrames(bodies[1..], |rest|);
        assert bodies[..j + 1] == [bodies[0]] + bodies[1..][..j];
      }
    }
  }

  // ---- the tasks' own loops --------------------------------------------------

  /** The child's stdin. `room` is how many more bytes the pipe accepts before it breaks;
      flushing needs the pipe to be unbroken. */
  class ChildStdin {
    var written: seq<byte>
    var room: nat

    constructor (room: nat)
      ensures written == [] && this.room == room
    {
      written, this.room := [], room;
    }

    /** `write_all`: loops over partial writes until done or broken. */
    method WriteAll(bytes: seq<byte>) returns (ok: bool)
      modifies this
      ensures ok == (|bytes| <= old(room))
      ensures var n := if ok then |bytes| else old(room);
              written == old(written) + bytes[..n] && room == old(room) - n
    {
      var i := 0;
      while i < |bytes| && room > 0
        invariant i <= |bytes| && i + room == old(room)
        invariant written == old(written) + bytes[..i]
      {
        var n :| 0 < n <= |bytes| - i && n <= room;
        assert bytes[..i] + bytes[i..i + n] == bytes[..i + n];
        written, room, i := written + bytes[i..i + n], room - n, i + n;
      }
      ok := i == |bytes|;
    }

    /** `write_frame`: header, body, flush. Success means the whole frame is written; failure
        leaves some prefix of it, possibly all of it. */
    method WriteFrame(body: seq<byte>) returns (ok: bool)
      modifies this
      ensures ok == (|Frame(body)| < old(room))
      ensures var n := if ok || |Frame(body)| <= old(room) then |Frame(body)| else old(room);
              written == old(written) + Frame(body)[..n] && room == old(room) - n
    {
      var header := Header(|body|);
      ghost var frame := Frame(body);
      assert frame == header + body;
      hide Frame, Header;
      ok := WriteAll(header);
      if !ok {
        assert header[..old(room)] == frame[..old(room)];
        return;
      }
      assert header[..|header|] == header;
      label AfterHeader:
      ok := WriteAll(body);
      ghost var n := if ok then |body| else old@AfterHeader(room);
      assert header + body[..n] == frame[..|header| + n];
      ok := ok && room > 0;
    }
  }

  /** The child's stdout behind its buffered reader. */
  class BufReader {
    var unread: seq<byte>

    constructor (input: seq<byte>)
      ensures unread == input
    {
      unread := input;
    }

    /** `read_line`: the bytes through the next line feed, or all that is left. */
    method ReadLine() returns (line: seq<byte>)
      modifies this
      ensures line == old(unread)[..LineLength(old(unread))]
      ensures unread == old(unread)[LineLength(old(unread))..]
    {
      var i := 0;
      while i < |unread| && unread[i] != LF
        invariant i <= |unread| && forall k :: 0 <= k < i ==> unread[k] != LF
      {
        i := i + 1;
      }
      if i < |unread| {
        LineEndsAt(unread, i);
        i := i + 1;
      } else {
        LineWithoutEnd(unread);
      }
      line, unread := unread[..i], unread[i..];
    }

    /** `read_one_message`, up to parsing the body as JSON. On a message the reader is left
        at what follows it. */
    method ReadOneMessage() returns (r: ReadResult)
      modifies this
      ensures r == ReadOne(old(unread))
      ensures r.Message? ==> unread == r.rest
    {
      hide NextLength;
      var length: Option<nat> := None;
      while true
        invariant ReadHeaders(unread, length) == ReadHeaders(old(unread), None)
        decreases |unread|
      {
        if unread == [] { return ServerDied; }
        var headerLine := ReadLine();
        var text := DecodeUtf8(headerLine);
        if text == None { return Io; }
        var trimmed := Trim(text.value);
        if trimmed == [] { break; }
        length := NextLength(trimmed, length);
      }
      assert ReadHeaders(old(unread), None) == BlankLine(length, unread);
      if length == None { return Protocol; }
      if length.value > |unread| { return Io; }
      r := Message(unread[..length.value], unread[length.value..]);
      unread := r.rest;
    }
  }
}
