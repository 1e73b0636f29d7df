/** What the decoder makes of any header block a server may send, said by the block's lines. */
module HeaderBlocks {
  import opened Wrappers
  import opened Utf8
  import opened TextTheorems
  import opened Codec

  /** One line with its line feed. */
  ghost predicate IsLine(l: seq<byte>)
  {
    l != [] && l[|l| - 1] == LF && forall i :: 0 <= i < |l| - 1 ==> l[i] != LF
  }

  ghost predicate Decodes(l: seq<byte>) { DecodeUtf8(l).Some? }

  /** The line says something: not all of it is white space. */
  ghost predicate Speaks(l: seq<byte>)
  {
    Decodes(l) && exists k :: 0 <= k < |DecodeUtf8(l).value| && !IsWhite(DecodeUtf8(l).value[k])
  }

  ghost predicate HeaderLine(l: seq<byte>) { IsLine(l) && Speaks(l) }

  ghost predicate BlankLine(l: seq<byte>) { IsLine(l) && Decodes(l) && !Speaks(l) }

  /** The line without the white space at its ends starts with the length prefix. */
  ghost predicate NamesLength(l: seq<byte>)
  {
    Decodes(l) && PREFIX <= Trim(DecodeUtf8(l).value)
  }

  function LengthOf(l: seq<byte>): Option<nat>
    requires NamesLength(l)
  {
    ParseUsize(Trim(DecodeUtf8(l).value)[|PREFIX|..])
  }

  function Concat(lines: seq<seq<byte>>): seq<byte>
  {
    if lines == [] then [] else lines[0] + Concat(lines[1..])
  }

  ghost predicate HeaderLines(lines: seq<seq<byte>>) { forall i :: 0 <= i < |lines| ==> HeaderLine(lines[i]) }

  /** Line `j` is the last to name a length. */
  ghost predicate Decides(lines: seq<seq<byte>>, j: nat)
  {
    j < |lines| && NamesLength(lines[j]) && forall i :: j < i < |lines| ==> !NamesLength(lines[i])
  }

  ghost predicate NobodyNames(lines: seq<seq<byte>>) { forall i :: 0 <= i < |lines| ==> !NamesLength(lines[i]) }

  // ---- line by line ---------------------------------------------------------

  lemma FirstLine(l: seq<byte>, rest: seq<byte>)
    requires IsLine(l)
    ensures LineLength(l + rest) == |l| && (l + rest)[..|l|] == l && (l + rest)[|l|..] == rest
  {
    var n := |l| - 1;
    assert forall i :: 0 <= i < n ==> (l + rest)[i] == l[i];
    LineEndsAt(l + rest, n);
  }

  function After(l: seq<byte>, length: Option<nat>): Option<nat>
    requires Decodes(l)
  {
    NextLength(Trim(DecodeUtf8(l).value), length)
  }

  lemma AfterMeans(l: seq<byte>, length: Option<nat>)
    requires Decodes(l)
    ensures After(l, length) == if NamesLength(l) then LengthOf(l) else length
  {
  }

  lemma OneHeader(l: seq<byte>, rest: seq<byte>, length: Option<nat>)
    requires HeaderLine(l)
    ensures ReadHeaders(l + rest, length) == ReadHeaders(rest, if NamesLength(l) then LengthOf(l) else length)
  {
    FirstLine(l, rest);
    BlankIff(DecodeUtf8(l).value);
    AfterMeans(l, length);
    hide DecodeUtf8, Trim, LineLength;
  }

  /** What the lines leave of an earlier length. */
  ghost predicate Leaves(lines: seq<seq<byte>>, before: Option<nat>, length: Option<nat>)
  {
    && (forall j: nat :: Decides(lines, j) ==> length == LengthOf(lines[j]))
    && (NobodyNames(lines) ==> length == before)
  }

  lemma {:induction false} ReadLines(lines: seq<seq<byte>>, rest: seq<byte>, before: Option<nat>)
    requires HeaderLines(lines)
    ensures exists length :: Leaves(lines, before, length) && ReadHeaders(Concat(lines) + rest, before) == ReadHeaders(rest, length)
    decreases |lines|
  {
    hide ReadHeaders, NamesLength, HeaderLine;
    if lines == [] {
      assert Concat(lines) + rest == rest;
      assert Leaves(lines, before, before);
    } else {
      var l, more := lines[0], lines[1..];
      var next := if NamesLength(l) then LengthOf(l) else before;
      assert Concat(lines) + rest == l + (Concat(more) + rest);
      OneHeader(l, Concat(more) + rest, before);
      ReadLines(more, rest, next);
      var length :| Leaves(more, next, length) && ReadHeaders(Concat(more) + rest, next) == ReadHeaders(rest, length);
      LeavesCons(lines, before, length);
    }
  }

  lemma LeavesCons(lines: seq<seq<byte>>, before: Option<nat>, length: Option<nat>)
    requires lines != []
    requires Leaves(lines[1..], if NamesLength(lines[0]) then LengthOf(lines[0]) else before, length)
    ensures Leaves(lines, before, length)
  {
    hide NamesLength, LengthOf;
    var more := lines[1..];
    assert forall i :: 0 < i < |lines| ==> lines[i] == more[i - 1];
    forall j: nat | Decides(lines, j) ensures length == LengthOf(lines[j])
    {
      if j > 0 {
        assert Decides(more, j - 1);
      } else {
        assert NobodyNames(more);
      }
    }
  }

  // ---- whole blocks ---------------------------------------------------------

  /** What a length and the bytes after the blank line come to. */
  function Outcome(length: Option<nat>, tail: seq<byte>): ReadResult
  {
    match length
    case None => Protocol
    case Some(n) => if n <= |tail| then Message(tail[..n], tail[n..]) else Io
  }

  lemma ReadBlank(blank: seq<byte>, tail: seq<byte>, length: Option<nat>)
    requires BlankLine(blank)
    ensures Body(ReadHeaders(blank + tail, length)) == Outcome(length, tail)
  {
    FirstLine(blank, tail);
    BlankIff(DecodeUtf8(blank).value);
    hide DecodeUtf8, Trim, LineLength;
  }

  /** Any lines and a blank one: the last line that names a length decides, whatever lines stand before
      and after it; without one, or with one that is no number, the block is refused. */
  lemma BlockIsRead(lines: seq<seq<byte>>, blank: seq<byte>, tail: seq<byte>)
    requires HeaderLines(lines) && BlankLine(blank)
    ensures var r := ReadOne(Concat(lines) + blank + tail);
      && (forall j: nat :: Decides(lines, j) ==> r == Outcome(LengthOf(lines[j]), tail))
      && (NobodyNames(lines) ==> r == Protocol)
  {
    hide ReadHeaders, HeaderLines, BlankLine, LengthOf, NamesLength;
    assert Concat(lines) + blank + tail == Concat(lines) + (blank + tail);
    ReadLines(lines, blank + tail, None);
    var length :| Leaves(lines, None, length) && ReadHeaders(Concat(lines) + (blank + tail),
                         None) == ReadHeaders(blank + tail, length);
    ReadBlank(blank, tail, length);
  }

  /** Other header lines do no harm: with any that do not name a length before and after the length
      line, the message is the body, and what follows is left. */
  lemma OtherHeadersAreSkipped(before: seq<seq<byte>>, after: seq<seq<byte>>, body: seq<byte>, rest: seq<byte>)
    requires HeaderLines(before) && HeaderLines(after) && NobodyNames(after) && |body| <= USIZE_MAX
    ensures ReadOne(Concat(before + [LengthLine(|body|) + [CR, LF]] + after) + [CR, LF] + (body + rest)) == Message(body, rest)
  {
    var line := LengthLine(|body|) + [CR, LF];
    var lines := before + [line] + after;
    OwnLine(|body|);
    OwnBlank();
    hide LengthLine, HeaderLine, NamesLength, LengthOf, BlankLine;
    assert lines[|before|] == line;
    assert forall i :: |before| < i < |lines| ==> lines[i] == after[i - |before| - 1];
    assert Decides(lines, |before|);
    assert HeaderLines(lines);
    BlockIsRead(lines, [CR, LF], body + rest);
    assert (body + rest)[..|body|] == body && (body + rest)[|body|..] == rest;
  }

  /** The client's own length line is one, and says the length. */
  lemma OwnLine(length: nat)
    requires length <= USIZE_MAX
    ensures var l := LengthLine(length) + [CR, LF]; HeaderLine(l) && NamesLength(l) && LengthOf(l) == Some(length)
  {
    var own := LengthLine(length);
    var l := own + [CR, LF];
    LengthLineShape(length);
    assert forall i :: 0 <= i < |own| ==> l[i] == own[i];
    AsciiDecodesToItself(l);
    TrimLineEnd(own);
    assert own[..|PREFIX|] == PREFIX && own[|PREFIX|..] == Decimal(length);
    ParsePrint(length);
    assert !IsWhite(l[0]);
  }

  lemma OwnBlank()
    ensures BlankLine([CR, LF])
  {
    AsciiDecodesToItself([CR, LF]);
  }

  // ---- blocks that do not end, or are no text -------------------------------

  lemma LastPart(part: seq<byte>)
    requires forall i :: 0 <= i < |part| ==> part[i] != LF
    ensures LineLength(part) == |part| && part[..|part|] == part && part[|part|..] == []
  {
    LineWithoutEnd(part);
  }

  /** A stream that ends before the blank line, in the middle of a line or not, is a dead server. */
  lemma UnendedBlockIsDeath(lines: seq<seq<byte>>, part: seq<byte>)
    requires HeaderLines(lines) && (forall i :: 0 <= i < |part| ==> part[i] != LF) && (part == [] || Speaks(part))
    ensures ReadOne(Concat(lines) + part) == ServerDied
  {
    hide HeaderLines, Leaves;
    ReadLines(lines, part, None);
    var length :| Leaves(lines, None, length) && ReadHeaders(Concat(lines) + part, None) == ReadHeaders(part, length);
    if part != [] {
      LastPart(part);
      BlankIff(DecodeUtf8(part).value);
      hide DecodeUtf8, Trim, LineLength;
      assert ReadHeaders(part, length) == ReadHeaders([], After(part, length));
    }
  }

  /** White space at the very end of the stream counts as the blank line, its line feed missing. */
  lemma BlankPartIsBlankLine(lines: seq<seq<byte>>, part: seq<byte>)
    requires HeaderLines(lines) && (forall i :: 0 <= i < |part| ==> part[i] != LF)
    requires part != [] && Decodes(part) && !Speaks(part)
    ensures var r := ReadOne(Concat(lines) + part);
      && (forall j: nat :: Decides(lines, j) ==> r == Outcome(LengthOf(lines[j]), []))
      && (NobodyNames(lines) ==> r == Protocol)
  {
    hide HeaderLines, LengthOf, NamesLength;
    ReadLines(lines, part, None);
    var length :| Leaves(lines, None, length) && ReadHeaders(Concat(lines) + part, None) == ReadHeaders(part, length);
    LastPart(part);
    BlankIff(DecodeUtf8(part).value);
    hide DecodeUtf8, Trim, LineLength;
    assert ReadHeaders(part, length) == HeaderResult.BlankLine(length, []);
  }

  /** A line that is not UTF-8 is an input error, whatever was said before it. */
  lemma ForeignBytesAreAnError(lines: seq<seq<byte>>, bad: seq<byte>, tail: seq<byte>)
    requires HeaderLines(lines) && !Decodes(bad)
    requires IsLine(bad) || (tail == [] && forall i :: 0 <= i < |bad| ==> bad[i] != LF)
    ensures ReadOne(Concat(lines) + bad + tail) == Io
  {
    hide HeaderLines, Leaves;
    assert Concat(lines) + bad + tail == Concat(lines) + (bad + tail);
    ReadLines(lines, bad + tail, None);
    var length :| Leaves(lines, None, length) && ReadHeaders(Concat(lines) + (bad + tail),
                         None) == ReadHeaders(bad + tail, length);
    assert bad != [] by { assert DecodeUtf8([]) == Some([]); }
    if IsLine(bad) {
      FirstLine(bad, tail);
    } else {
      assert bad + tail == bad;
      LastPart(bad);
    }
    hide DecodeUtf8, LineLength;
    assert ReadHeaders(bad + tail, length) == HeaderInvalid;
  }
}
