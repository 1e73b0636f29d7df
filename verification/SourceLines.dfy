/** What `str::lines` makes of a text, by its line ends. */
module SourceLines {
  import opened Sweep

  /** A line and the line end it was written with. */
  datatype Written = Written(line: string, crlf: bool)

  function EndOf(w: Written): string { if w.crlf then "\r\n" else "\n" }

  /** The line holds no line feed, and a carriage return at its end would be taken for the line end's. */
  predicate Proper(w: Written)
  {
    '\n' !in w.line && (!w.crlf && w.line != [] ==> w.line[|w.line| - 1] != '\r')
  }

  function Text(ws: seq<Written>, tail: string): string
  {
    if ws == [] then tail else ws[0].line + EndOf(ws[0]) + Text(ws[1..], tail)
  }

  function LinesIn(ws: seq<Written>): seq<string> { seq(|ws|, i requires 0 <= i < |ws| => ws[i].line) }

  lemma {:induction false} EndsAt(line: string, rest: string)
    requires '\n' !in line
    ensures LineEnd(line + "\n" + rest) == |line|
  {
    var text := line + "\n" + rest;
    if line != [] {
      EndsAt(line[1..], rest);
      assert text[1..] == line[1..] + "\n" + rest && text[0] == line[0] && line[0] in line;
    }
  }

  /** One line with either line end is read as the line. */
  lemma OneLineRead(w: Written, rest: string)
    requires Proper(w)
    ensures Lines(w.line + EndOf(w) + rest) == [w.line] + Lines(rest)
  {
    var before := if w.crlf then w.line + "\r" else w.line;
    var text := w.line + EndOf(w) + rest;
    assert '\n' !in before;
    assert text == before + "\n" + rest;
    EndsAt(before, rest);
    assert text[..|before|] == before && text[|before| + 1..] == rest;
    assert w.crlf ==> before[..|before| - 1] == w.line;
    assert WithoutReturn(before) == w.line;
  }

  lemma LinesInCons(ws: seq<Written>, last: seq<string>)
    requires ws != []
    ensures LinesIn(ws) + last == [ws[0].line] + (LinesIn(ws[1..]) + last)
  {
    assert LinesIn(ws) == [ws[0].line] + LinesIn(ws[1..]);
  }

  /** A text is read as its lines, whichever of the two line ends each was written with, and a last piece
      without one as it stands, a carriage return at its end included. */
  lemma {:induction false} LinesAreRead(ws: seq<Written>, tail: string)
    requires (forall i :: 0 <= i < |ws| ==> Proper(ws[i])) && '\n' !in tail
    ensures Lines(Text(ws, tail)) == LinesIn(ws) + if tail == "" then [] else [tail]
    decreases |ws|
  {
    if ws == [] {
      assert LineEnd(tail) == |tail|;
      assert [] + Lines(tail) == Lines(tail);
    } else {
      hide Lines, Proper, EndOf, LinesIn;
      LinesAreRead(ws[1..], tail);
      OneLineRead(ws[0], Text(ws[1..], tail));
      LinesInCons(ws, if tail == "" then [] else [tail]);
    }
  }
}
