/** The token scanners of src/file_enrichment.rs and src/enrichment.rs. Columns are character
    indexes. Unicode classification stays abstract: the scanners see it through `Classes`. */
module Scanner {
  import opened Wrappers

  /** `char::is_alphabetic`, `is_alphanumeric` and `is_whitespace`. */
  datatype Classes = Classes(alphabetic: char -> bool, alphanumeric: char -> bool, white: char -> bool)

  /** What the proofs need of Unicode. */
  ghost predicate Sane(k: Classes)
  {
    && (forall c :: k.alphabetic(c) ==> k.alphanumeric(c))
    && !k.alphanumeric('"') && !k.alphanumeric('.') && !k.alphanumeric('\\')
  }

  predicate StartChar(k: Classes, c: char) { k.alphabetic(c) || c == '_' }

  predicate WordChar(k: Classes, c: char) { k.alphanumeric(c) || c == '_' }

  // ---- what is to be reported -----------------------------------------------

  function TrimStart(k: Classes, line: string): string
  {
    if line != [] && k.white(line[0]) then TrimStart(k, line[1..]) else line
  }

  predicate IsComment(k: Classes, line: string)
  {
    var t := TrimStart(k, line);
    "//" <= t || "/*" <= t || "*" <= t
  }

  predicate Toggles(line: string, i: nat)
    requires i < |line|
  {
    line[i] == '"' && (i == 0 || line[i - 1] != '\\')
  }

  /** Toggling quotes before column `i`. */
  function Quotes(line: string, i: nat): nat
    requires i <= |line|
  {
    if i == 0 then 0 else Quotes(line, i - 1) + if Toggles(line, i - 1) then 1 else 0
  }

  /** A letter or underscore that opens a word outside every string. */
  predicate Reported(k: Classes, line: string, i: nat)
  {
    && i < |line|
    && StartChar(k, line[i])
    && (i == 0 || !WordChar(k, line[i - 1]))
    && Quotes(line, i) % 2 == 0
  }

  /** The reported columns before `i`, in order. */
  function ReportedTo(k: Classes, line: string, i: nat): seq<nat>
    requires i <= |line|
  {
    if i == 0 then []
    else if Reported(k, line, i - 1) then ReportedTo(k, line, i - 1) + [i - 1]
    else ReportedTo(k, line, i - 1)
  }

  /** What the scanner returns for a line. */
  function Positions(k: Classes, line: string): seq<nat>
  {
    if IsComment(k, line) then [] else ReportedTo(k, line, |line|)
  }

  predicate Increasing(r: seq<nat>) { forall a, b :: 0 <= a < b < |r| ==> r[a] < r[b] }

  lemma {:induction false} ReportedInOrder(k: Classes, line: string, i: nat)
    requires i <= |line|
    ensures var r := ReportedTo(k, line, i); Increasing(r) && forall a :: 0 <= a < |r| ==> r[a] < i
  {
    hide Reported;
    if i > 0 { ReportedInOrder(k, line, i - 1); }
  }

  lemma {:induction false} ReportedMember(k: Classes, line: string, i: nat, p: nat)
    requires i <= |line|
    ensures p in ReportedTo(k, line, i) <==> p < i && Reported(k, line, p)
  {
    hide Reported;
    if i > 0 { ReportedMember(k, line, i - 1, p); }
  }

  /** Behind nothing but white space, a comment opens or goes on at column `i`. */
  ghost predicate CommentAt(k: Classes, line: string, i: nat)
  {
    && i < |line| && (forall c :: 0 <= c < i ==> k.white(line[c])) && !k.white(line[i])
    && (line[i] == '*' || (line[i] == '/' && i + 1 < |line| && (line[i + 1] == '/' || line[i + 1] == '*')))
  }

  ghost predicate Commented(k: Classes, line: string) { exists i: nat :: CommentAt(k, line, i) }

  /** `u` is the line from `i` on, behind white space only. */
  ghost predicate Skips(k: Classes, line: string, u: string, i: nat)
  {
    i <= |line| && u == line[i..] && (forall c :: 0 <= c < i ==> k.white(line[c])) && (i < |line| ==> !k.white(line[i]))
  }

  lemma SkipsMore(k: Classes, line: string, u: string, i: nat)
    requires line != [] && k.white(line[0]) && Skips(k, line[1..], u, i)
    ensures Skips(k, line, u, i + 1)
  {
    assert line[1..][i..] == line[i + 1..];
    assert forall c :: 0 < c < |line| ==> line[c] == line[1..][c - 1];
  }

  lemma SkipsNothing(k: Classes, line: string)
    requires line == [] || !k.white(line[0])
    ensures Skips(k, line, line, 0)
  {
  }

  lemma {:induction false} TrimStartMeaning(k: Classes, line: string)
    ensures exists i: nat :: Skips(k, line, TrimStart(k, line), i)
  {
    hide Skips;
    if line != [] && k.white(line[0]) {
      TrimStartMeaning(k, line[1..]);
      var i: nat :| Skips(k, line[1..], TrimStart(k, line[1..]), i);
      SkipsMore(k, line, TrimStart(k, line[1..]), i);
      assert Skips(k, line, TrimStart(k, line), i + 1);
    } else {
      SkipsNothing(k, line);
      assert Skips(k, line, TrimStart(k, line), 0);
    }
  }

  lemma CommentIff(k: Classes, line: string)
    ensures IsComment(k, line) <==> Commented(k, line)
  {
    TrimStartMeaning(k, line);
    hide TrimStart;
    var i: nat :| Skips(k, line, TrimStart(k, line), i);
    CommentOpens(line, i);
    assert forall j: nat :: CommentAt(k, line, j) ==> !(j < i) && !(i < j);
    assert CommentAt(k, line, i) <==> IsComment(k, line);
  }

  lemma CommentOpens(line: string, i: nat)
    requires i <= |line|
    ensures ("//" <= line[i..] || "/*" <= line[i..] || "*" <= line[i..]) <==>
      i < |line| && (line[i] == '*' || (line[i] == '/' && i + 1 < |line| && (line[i + 1] == '/' || line[i + 1] == '*')))
  {
    var t := line[i..];
    assert |t| >= 2 ==> t[..2] == [line[i], line[i + 1]];
    assert |t| >= 1 ==> t[..1] == [line[i]];
  }

  /** A quote that no backslash precedes. */
  ghost predicate FreeQuote(line: string, j: nat)
  {
    j < |line| && line[j] == '"' && (j > 0 ==> line[j - 1] != '\\')
  }

  ghost function TogglesBefore(line: string, i: nat): set<nat>
  {
    set j: nat | j < i && FreeQuote(line, j)
  }

  lemma {:induction false} QuotesAreToggles(line: string, i: nat)
    requires i <= |line|
    ensures Quotes(line, i) == |TogglesBefore(line, i)|
  {
    if i > 0 {
      QuotesAreToggles(line, i - 1);
      var before := TogglesBefore(line, i - 1);
      assert TogglesBefore(line, i) == if Toggles(line, i - 1) then before + {i - 1} else before;
    }
  }

  /** A letter or underscore, behind no letter, digit or underscore, and outside every string. */
  ghost predicate OpensWord(k: Classes, line: string, p: nat)
  {
    && p < |line|
    && (k.alphabetic(line[p]) || line[p] == '_')
    && (p > 0 ==> !k.alphanumeric(line[p - 1]) && line[p - 1] != '_')
    && |TogglesBefore(line, p)| % 2 == 0
  }

  lemma ReportedIff(k: Classes, line: string, p: nat)
    ensures Reported(k, line, p) <==> OpensWord(k, line, p)
  {
    hide Quotes, TogglesBefore;
    if p < |line| { QuotesAreToggles(line, p); }
  }

  /** The scanner reports, in increasing order, exactly the columns that open a word outside every
      string, unless a comment opens or goes on behind the line's white space; then, and where no such
      column is, nothing. */
  lemma ScannerIsExact(k: Classes, line: string)
    ensures var r := Positions(k, line);
      && (forall p: nat :: p in r <==> !Commented(k, line) && OpensWord(k, line, p))
      && Increasing(r)
      && (r == [] <==> Commented(k, line) || forall p: nat :: !OpensWord(k, line, p))
  {
    hide ReportedTo, IsComment, Commented, Reported, OpensWord;
    CommentIff(k, line);
    ReportedInOrder(k, line, |line|);
    forall p: nat ensures p in ReportedTo(k, line, |line|) <==> OpensWord(k, line, p)
    {
      ReportedMember(k, line, |line|, p);
      ReportedIff(k, line, p);
      ReportedOnLine(k, line, p);
    }
    var r := Positions(k, line);
    assert r != [] ==> r[0] in r;
  }

  lemma PositionsAreReported(k: Classes, line: string)
    ensures forall p: nat :: p in Positions(k, line) <==> !IsComment(k, line) && Reported(k, line, p)
  {
    hide Reported, OpensWord;
    ScannerIsExact(k, line);
    CommentIff(k, line);
    forall p: nat ensures Reported(k, line, p) <==> OpensWord(k, line, p) { ReportedIff(k, line, p); }
  }

  lemma ReportedOnLine(k: Classes, line: string, p: nat)
    ensures Reported(k, line, p) ==> p < |line|
  {
  }

  // ---- the scanner ----------------------------------------------------------

  /** The columns from `i` to `j` hold nothing to report. */
  lemma NothingBetween(k: Classes, line: string, i: nat, j: nat)
    requires i <= j <= |line|
    requires forall c :: i <= c < j ==> !Reported(k, line, c)
    ensures ReportedTo(k, line, i) == ReportedTo(k, line, j)
    decreases j - i
  {
    hide Reported;
    if i < j { NothingBetween(k, line, i, j - 1); }
  }

  method IdentifierPositionsInLine(k: Classes, line: string) returns (positions: seq<nat>)
    requires Sane(k)
    ensures positions == Positions(k, line)
  {
    positions := [];
    if IsComment(k, line) {
      return;
    }
    hide IsComment, Quotes, ReportedTo, WordChar, StartChar, Sane;
    var col, inString := 0, false;
    NothingYet(k, line);
    while col < |line|
      invariant col <= |line|
      invariant inString == (Quotes(line, col) % 2 == 1)
      invariant positions == ReportedTo(k, line, col)
      decreases |line| - col
    {
      var ch := line[col];
      if ch == '"' && (col == 0 || line[col - 1] != '\\') {
        QuoteColumn(k, line, col);
        inString := !inString;
        col := col + 1;
        continue;
      }
      if inString {
        PlainColumn(k, line, col);
        col := col + 1;
        continue;
      }
      if StartChar(k, ch) {
        var start := col;
        StartsWord(k, line, start);
        if start == 0 || !WordChar(k, line[start - 1]) {
          positions := positions + [start];
        }
        // The rest of the word is skipped: none of its characters opens another.
        while col < |line| && WordChar(k, line[col])
          invariant start <= col <= |line| && (col == start ==> WordChar(k, line[col]))
          invariant forall c :: start <= c < col ==> WordChar(k, line[c])
        {
          col := col + 1;
        }
        SkippedWord(k, line, start, col);
        continue;
      }
      PlainColumn(k, line, col);
      col := col + 1;
    }
  }

  lemma NothingYet(k: Classes, line: string)
    ensures Quotes(line, 0) == 0 && ReportedTo(k, line, 0) == []
  {
  }

  lemma StartsWord(k: Classes, line: string, i: nat)
    requires Sane(k) && i < |line| && StartChar(k, line[i])
    ensures WordChar(k, line[i])
  {
  }

  /** A toggling quote is not reported. */
  lemma QuoteColumn(k: Classes, line: string, i: nat)
    requires Sane(k) && i < |line| && Toggles(line, i)
    ensures Quotes(line, i + 1) == Quotes(line, i) + 1
    ensures ReportedTo(k, line, i + 1) == ReportedTo(k, line, i)
  {
    NothingBetween(k, line, i, i + 1);
  }

  /** Nor is a character inside a string, or one that cannot open a word. */
  lemma PlainColumn(k: Classes, line: string, i: nat)
    requires i < |line| && !Toggles(line, i)
    requires Quotes(line, i) % 2 == 1 || !StartChar(k, line[i])
    ensures Quotes(line, i + 1) == Quotes(line, i)
    ensures ReportedTo(k, line, i + 1) == ReportedTo(k, line, i)
  {
    NothingBetween(k, line, i, i + 1);
  }

  /** Skipping to the end of a word loses no column and crosses no quote. */
  lemma SkippedWord(k: Classes, line: string, start: nat, end: nat)
    requires Sane(k) && start < end <= |line| && StartChar(k, line[start]) && Quotes(line, start) % 2 == 0
    requires forall c :: start <= c < end ==> WordChar(k, line[c])
    ensures ReportedTo(k, line, end) == ReportedTo(k, line, start)
         + if start == 0 || !WordChar(k, line[start - 1]) then [start] else []
    ensures Quotes(line, end) == Quotes(line, start)
  {
    hide Quotes, StartChar, WordChar;
    NoQuotesInWord(k, line, start, end);
    NothingBetween(k, line, start + 1, end);
  }

  // ---- member expressions ---------------------------------------------------

  /** A receiver, its member's column and the member. */
  datatype Member = Member(receiver: string, column: nat, name: string)

  /** Where the run of word characters from `i` ends. */
  function WordEnd(k: Classes, line: string, i: nat): (e: nat)
    requires i <= |line|
    ensures i <= e <= |line|
    ensures forall c :: i <= c < e ==> WordChar(k, line[c])
    ensures e < |line| ==> !WordChar(k, line[e])
    decreases |line| - i
  {
    if i < |line| && WordChar(k, line[i]) then WordEnd(k, line, i + 1) else i
  }

  function MemberAt(k: Classes, line: string, col: nat): Option<Member>
  {
    if col >= |line| || !StartChar(k, line[col]) then None
    else
      var end := WordEnd(k, line, col);
      if end + 1 >= |line| || line[end] != '.' || !StartChar(k, line[end + 1]) then None
      else Some(Member(line[col..end], end + 1, line[end + 1..WordEnd(k, line, end + 1)]))
  }

  lemma WordEndUnique(k: Classes, line: string, i: nat, e: nat)
    requires i <= e <= |line|
    requires forall c :: i <= c < e ==> WordChar(k, line[c])
    requires e < |line| ==> !WordChar(k, line[e])
    ensures WordEnd(k, line, i) == e
  {
  }

  /** At `col` a word runs to `e`, there is a dot, and behind it a word that runs to `f`. */
  ghost predicate MemberSpans(k: Classes, line: string, col: nat, e: nat, f: nat)
  {
    && col < e < f <= |line| && e + 1 < f && StartChar(k, line[col]) && line[e] == '.' && StartChar(k, line[e + 1])
    && (forall c :: col <= c < e || e < c < f ==> WordChar(k, line[c]))
    && (f < |line| ==> !WordChar(k, line[f]))
  }

  lemma MemberIsSpanned(k: Classes, line: string, col: nat)
    requires Sane(k) && MemberAt(k, line, col).Some?
    ensures var e := WordEnd(k, line, col);
      MemberSpans(k, line, col, e, WordEnd(k, line, e + 1))
      && MemberAt(k, line, col).value == Member(line[col..e], e + 1, line[e + 1..WordEnd(k, line, e + 1)])
  {
  }

  lemma SpannedIsMember(k: Classes, line: string, col: nat, e: nat, f: nat)
    requires Sane(k) && MemberSpans(k, line, col, e, f)
    ensures MemberAt(k, line, col) == Some(Member(line[col..e], e + 1, line[e + 1..f]))
  {
    WordEndUnique(k, line, col, e);
    WordEndUnique(k, line, e + 1, f);
  }

  /** The reader succeeds exactly where a word, a dot and a word start meet, and returns the rest of the
      first word, and the column and whole of the second. */
  lemma MemberIff(k: Classes, line: string, col: nat, m: Member)
    requires Sane(k)
    ensures MemberAt(k, line, col) == Some(m) <==>
      exists e: nat, f: nat :: MemberSpans(k, line, col, e, f) && m == Member(line[col..e], e + 1, line[e + 1..f])
  {
    hide MemberAt, Sane;
    if MemberAt(k, line, col) == Some(m) { MemberIsSpanned(k, line, col); }
    if e: nat, f: nat :| MemberSpans(k, line, col, e, f) && m == Member(line[col..e], e + 1, line[e + 1..f]) {
      SpannedIsMember(k, line, col, e, f);
    }
  }

  method MemberExpressionAt(k: Classes, line: string, col: nat) returns (r: Option<Member>)
    ensures r == MemberAt(k, line, col)
  {
    if col >= |line| || !StartChar(k, line[col]) {
      return None;
    }
    var end := col;
    while end < |line| && WordChar(k, line[end])
      invariant col <= end <= |line|
      invariant forall c :: col <= c < end ==> WordChar(k, line[c])
    {
      end := end + 1;
    }
    WordEndUnique(k, line, col, end);
    if end >= |line| || line[end] != '.' {
      return None;
    }
    var memberStart := end + 1;
    if memberStart >= |line| || !StartChar(k, line[memberStart]) {
      return None;
    }
    var memberEnd := memberStart;
    while memberEnd < |line| && WordChar(k, line[memberEnd])
      invariant memberStart <= memberEnd <= |line|
      invariant forall c :: memberStart <= c < memberEnd ==> WordChar(k, line[c])
    {
      memberEnd := memberEnd + 1;
    }
    WordEndUnique(k, line, memberStart, memberEnd);
    r := Some(Member(line[col..end], memberStart, line[memberStart..memberEnd]));
  }

  lemma {:induction false} NoQuotesInWord(k: Classes, line: string, i: nat, j: nat)
    requires Sane(k) && i <= j <= |line|
    requires forall c :: i <= c < j ==> WordChar(k, line[c]) || line[c] == '.'
    ensures Quotes(line, j) == Quotes(line, i)
    decreases j - i
  {
    if i < j { NoQuotesInWord(k, line, i, j - 1); }
  }

  /** `line[i..j]` is a maximal run of word characters. */
  ghost predicate MaximalWord(k: Classes, line: string, i: nat, j: nat)
  {
    && i < j <= |line|
    && (forall c :: i <= c < j ==> WordChar(k, line[c]))
    && (i > 0 ==> !WordChar(k, line[i - 1]))
    && (j < |line| ==> !WordChar(k, line[j]))
  }

  /** At a reported column the member reader returns the whole words on both sides of the dot,
      and the member is the very next column the scanner reports. */
  lemma ScannerAndReaderAgree(k: Classes, line: string, col: nat)
    requires Sane(k) && col in Positions(k, line) && MemberAt(k, line, col).Some?
    ensures var m := MemberAt(k, line, col).value;
      && MaximalWord(k, line, col, col + |m.receiver|) && m.receiver == line[col..col + |m.receiver|]
      && MaximalWord(k, line, m.column, m.column + |m.name|) && m.name == line[m.column..m.column + |m.name|]
      && m.column == col + |m.receiver| + 1 && line[m.column - 1] == '.'
      && m.column in Positions(k, line)
      && forall p :: p in Positions(k, line) ==> p <= col || p >= m.column
  {
    hide IsComment, Quotes, WordChar, StartChar, Positions, MemberAt;
    PositionsAreReported(k, line);
    var end := WordEnd(k, line, col);
    ReaderFindsWords(k, line, col);
    NextReported(k, line, col, end);
  }

  lemma ReaderFindsWords(k: Classes, line: string, col: nat)
    requires Sane(k) && Reported(k, line, col) && MemberAt(k, line, col).Some?
    ensures var m := MemberAt(k, line, col).value;
      var end := WordEnd(k, line, col);
      && end == col + |m.receiver| && m.receiver == line[col..end] && MaximalWord(k, line, col, end)
      && m.column == end + 1 && line[end] == '.' && StartChar(k, line[end + 1])
      && m.name == line[m.column..m.column + |m.name|] && MaximalWord(k, line, m.column, m.column + |m.name|)
  {
    hide Quotes;
  }

  /** Past a reported word and a dot, the next word is reported, and nothing between. */
  lemma NextReported(k: Classes, line: string, col: nat, end: nat)
    requires Sane(k) && Reported(k, line, col) && MaximalWord(k, line, col, end)
    requires end + 1 < |line| && line[end] == '.' && StartChar(k, line[end + 1])
    ensures Reported(k, line, end + 1)
    ensures forall p :: col < p < end + 1 ==> !Reported(k, line, p)
  {
    hide Quotes;
    NoQuotesInWord(k, line, col, end + 1);
  }
}
