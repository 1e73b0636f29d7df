/** Where the sweep's promises end: the passes on which some server makes the gate show, or has the
    enriched file opened. Each failing pass is built: a file whose lines are blank but for one or two
    member expressions, before a server that says yes. */
module SweepExactness {
  import opened Wrappers
  import opened EntityIndex
  import opened Scanner
  import opened Join
  import opened JoinTheorems
  import opened JoinExactness
  import opened Sweep
  import opened SweepTheorems
  import opened SweepMeaning

  /** More of Unicode: words hold no white space, line ends or comment openers. */
  ghost predicate Ordinary(k: Classes)
  {
    && Sane(k) && !k.white('_')
    && (forall c :: k.white(c) ==> !k.alphanumeric(c))
    && !k.alphanumeric('\n') && !k.alphanumeric('\r') && !k.alphanumeric('/') && !k.alphanumeric('*')
  }

  // ---- a member expression --------------------------------------------------

  ghost predicate IsWord(k: Classes, name: string)
  {
    name != [] && StartChar(k, name[0]) && forall i :: 0 <= i < |name| ==> WordChar(k, name[i])
  }

  lemma ReadableIsWord(k: Classes, name: string)
    requires Sane(k) && Readable(k, name)
    ensures IsWord(k, name)
  {
  }

  /** The name as a member of itself. */
  function Expression(name: string): string { name + "." + name }

  lemma ExpressionChars(k: Classes, name: string)
    requires Ordinary(k) && IsWord(k, name)
    ensures var x, n := Expression(name), |name|;
      && |x| == 2 * n + 1 && x[..n] == name && x[n] == '.' && x[n + 1..] == name
      && StartChar(k, x[0]) && StartChar(k, x[n + 1]) && !StartChar(k, x[n])
      && (forall i :: 0 <= i < |x| && i != n ==> WordChar(k, x[i])) && !WordChar(k, x[n])
  {
  }

  lemma ExpressionIsCode(k: Classes, name: string)
    requires Ordinary(k) && IsWord(k, name)
    ensures !IsComment(k, Expression(name))
  {
    var x := Expression(name);
    ExpressionChars(k, name);
    assert !k.white(x[0]) && x[0] != '/' && x[0] != '*';
    assert TrimStart(k, x) == x;
  }

  /** The scanner reports both words of the expression, and the reader reads it at the first. */
  lemma ExpressionIsRead(k: Classes, name: string)
    requires Ordinary(k) && IsWord(k, name)
    ensures Positions(k, Expression(name)) == [0, |name| + 1]
    ensures MemberAt(k, Expression(name), 0) == Some(Member(name, |name| + 1, name))
    ensures MemberAt(k, Expression(name), |name| + 1) == None
  {
    var x, n := Expression(name), |name|;
    ExpressionChars(k, name);
    ExpressionIsCode(k, name);
    hide IsComment, StartChar, WordChar, Ordinary, IsWord, Expression;
    WordEndUnique(k, x, 0, n);
    WordEndUnique(k, x, n + 1, |x|);
    assert x[0..n] == name && x[n + 1..|x|] == name;
    ExpressionReports(k, x, n);
  }

  lemma ExpressionReports(k: Classes, x: string, n: nat)
    requires Sane(k) && 0 < n && |x| == 2 * n + 1 && x[n] == '.' && !IsComment(k, x)
    requires StartChar(k, x[0]) && StartChar(k, x[n + 1]) && !StartChar(k, x[n]) && !WordChar(k, x[n])
    requires forall i :: 0 <= i < |x| && i != n ==> WordChar(k, x[i])
    ensures Positions(k, x) == [0, n + 1]
  {
    hide IsComment, StartChar, WordChar;
    forall i | 0 <= i <= |x| ensures Quotes(x, i) == 0
    {
      NoQuotesInWord(k, x, 0, i);
    }
    hide Quotes;
    NothingBetween(k, x, 1, n + 1);
    NothingBetween(k, x, n + 2, |x|);
    assert Reported(k, x, 0) && Reported(k, x, n + 1);
    assert ReportedTo(k, x, 0) == [] && ReportedTo(k, x, 1) == [] + [0];
    assert ReportedTo(k, x, n + 2) == [0] + [n + 1];
  }

  // ---- a text of given lines ------------------------------------------------

  predicate Plain(line: string) { '\n' !in line && (line != [] ==> line[|line| - 1] != '\r') }

  function Joined(lines: seq<string>): string
  {
    if |lines| == 0 then "" else if |lines| == 1 then lines[0] else lines[0] + "\n" + Joined(lines[1..])
  }

  lemma {:induction false} LineEndsAt(line: string, rest: string)
    requires '\n' !in line
    ensures LineEnd(line + "\n" + rest) == |line|
  {
    var text := line + "\n" + rest;
    if line != [] {
      LineEndsAt(line[1..], rest);
      assert text[1..] == line[1..] + "\n" + rest && text[0] == line[0] && line[0] in line;
    }
  }

  lemma LineWithoutEnd(line: string)
    requires '\n' !in line
    ensures LineEnd(line) == |line|
  {
  }

  lemma {:induction false} LinesOfJoined(lines: seq<string>)
    requires lines != [] && lines[|lines| - 1] != ""
    requires forall i :: 0 <= i < |lines| ==> Plain(lines[i])
    ensures Lines(Joined(lines)) == lines
  {
    var first := lines[0];
    assert Plain(first);
    if |lines| == 1 {
      LineWithoutEnd(first);
      assert lines == [first];
    } else {
      var rest := Joined(lines[1..]);
      var text := first + "\n" + rest;
      LineEndsAt(first, rest);
      LinesOfJoined(lines[1..]);
      assert text[..|first|] == first && text[|first| + 1..] == rest;
      assert lines == [first] + lines[1..];
    }
  }

  function Blank(n: nat): seq<string> { seq(n, _ => "") }

  lemma WordIsPlain(k: Classes, name: string)
    requires Ordinary(k) && IsWord(k, name)
    ensures Plain(Expression(name)) && Expression(name) != ""
  {
    var x := Expression(name);
    ExpressionChars(k, name);
    forall i | 0 <= i < |x| ensures x[i] != '\n' && x[i] != '\r'
    {
      assert i != |name| ==> WordChar(k, x[i]);
    }
  }

  // ---- blank lines ----------------------------------------------------------

  lemma BlankLine(p: Pass, gated: bool, d: Docs, t: Tally, line: u32)
    requires Ordered(p.env.index)
    ensures AtLine(p, gated, d, t, "", line) == Step(Ok(t), d)
  {
    hide FindAt;
    assert Positions(p.classes, "") == [];
    assert t.(queried := t.queried + 0) == t;
  }

  lemma {:induction false} BlankLines(p: Pass, gated: bool, d: Docs, t: Tally, lines: seq<string>, i: nat, j: nat)
    requires Ordered(p.env.index) && i <= j <= |lines| && forall k :: i <= k < j ==> lines[k] == ""
    ensures AtLines(p, gated, d, t, lines, i) == AtLines(p, gated, d, t, lines, j)
    decreases j - i
  {
    hide AtLine;
    if i < j {
      BlankLine(p, gated, d, t, LineNumber(i));
      BlankLines(p, gated, d, t, lines, i + 1, j);
    }
  }

  // ---- a line with an expression --------------------------------------------

  /** A place in no file that answers for the enriched path. */
  function Foreign(path: string): Location
    requires path != ""
  {
    Location(PathToUri(if path[|path| - 1] == 'a' then "b" else "a"), 0)
  }

  lemma ForeignIsModule(path: string)
    requires path != ""
    ensures ReceiverNamesModule([Foreign(path)], path)
  {
    var at := Foreign(path);
    var other := if path[|path| - 1] == 'a' then "b" else "a";
    assert UriToPath(at.uri) == Some(other);
    SuffixEnds(path, other);
    SuffixEnds(other, path);
    hide EndsWith;
    assert [at][0] == at;
  }

  lemma SuffixEnds(s: string, t: string)
    requires s != "" && t != ""
    ensures EndsWith(s, t) ==> s[|s| - 1] == t[|t| - 1]
  {
  }

  /** The pass with the helpful server. */
  function With(p: Pass, pick: u32 -> string): Pass
    requires p.path != ""
  {
    p.(env := Helpful(p.env, pick, Foreign(p.path)))
  }

  function AfterReceiver(p: Pass, d: Docs, line: u32): (docs: Docs)
    ensures docs.open == d.open && d.log <= docs.log
  {
    Ask(p.env, d, Definition, p.uri, line, 0).docs
  }

  /** The tally after a join's entities and then the definitions of the member itself. */
  function Pushed(p: Pass, t: Tally, source: Option<EntityRef>, cs: seq<EntityRef>, line: u32, col: nat): Tally
    requires Ordered(p.env.index) && p.path != ""
  {
    PushDefinitions(p, PushMembers(t, source, cs, line, col), source, [Foreign(p.path)], line, col)
  }

  /** On an expression's line the pass joins its member, and then asks about the member. */
  lemma ExpressionLine(p: Pass, pick: u32 -> string, d: Docs, t: Tally, source: Option<EntityRef>, name: string, line: u32)
    requires Ordered(p.env.index) && p.env.hasDefinition && p.path != "" && Ordinary(p.classes) && IsWord(p.classes, name)
    ensures var q, n := With(p, pick), |name|;
      var b := Bindings(q.env, AfterReceiver(q, d, line), q.path, q.uri, line, 0, n + 1, name);
      var s := AtColumns(q, d, t, source, Expression(name), line, [0, n + 1]);
      && b.docs.log <= s.docs.log
      && (b.result.Ok? ==>
            s == Step(Ok(Pushed(q, t, source, b.result.value, line, n + 1)), s.docs) && s.docs.open == b.docs.open)
  {
    var q, n, x := With(p, pick), |name|, Expression(name);
    ExpressionIsRead(p.classes, name);
    ForeignIsModule(p.path);
    hide Bindings, PushMembers, PushDefinitions, ReceiverNamesModule, MemberAt, Foreign, Ordinary, IsWord, Expression;
    var cols := [0, n + 1];
    assert cols[1..] == [n + 1] && [n + 1][1..] == [];
    var s := AtColumn(q, d, t, source, x, line, 0);
    assert s == AtModule(q, AfterReceiver(q, d, line), t, source, Member(name, n + 1, name), line, 0);
    if s.result.Ok? {
      var u := AtColumn(q, s.docs, s.result.value, source, x, line, n + 1);
      assert u == AtIdentifier(q, s.docs, s.result.value, source, line, n + 1);
      assert AtColumns(q, u.docs, u.result.value, source, x, line, []) == Step(Ok(u.result.value), u.docs);
    }
  }

  function Questioned(p: Pass, d: Docs, line: u32, memberCol: nat): (docs: Docs)
    ensures docs.open == d.open && d.log <= docs.log
  {
    AfterQuestions(p.env, AfterReceiver(p, d, line), p.uri, line, 0, memberCol)
  }

  /** What the helpful server makes of the line: the join over the entities of that name in the file
      picked, and what it returns pushed. */
  lemma HelpfulLine(p: Pass, gated: bool, pick: u32 -> string, d: Docs, t: Tally, name: string, line: u32)
    requires Ordered(p.env.index) && pick(line) in p.env.index.byFile && p.env.hasDefinition && p.env.hasTypeDefinition
    requires p.path != "" && Ordinary(p.classes) && IsWord(p.classes, name)
    requires gated ==> FindAt(p.env.index, p.uri, line).Some?
    ensures var q, n, source := With(p, pick), |name|, FindAt(p.env.index, p.uri, line);
      var b := JoinAll(q.env, Questioned(q, d, line, n + 1), q.path, [Foreign(p.path)], OfName(p.env, pick(line), name), []);
      var s := AtLine(q, gated, d, t, Expression(name), line);
      && b.docs.log <= s.docs.log
      && (b.result.Ok? ==>
            s == Step(Ok(Pushed(q, t.(queried := t.queried + 2), source, b.result.value, line, n + 1)), s.docs)
            && s.docs.open == b.docs.open)
  {
    hide FindAt, AtColumns, Positions, JoinAll, Bindings, OfName, Expression, Ordinary, IsWord, Foreign, MemberAt, Pushed;
    var q, n, source := With(p, pick), |name|, FindAt(p.env.index, p.uri, line);
    ExpressionIsRead(p.classes, name);
    ExpressionLine(p, pick, d, t.(queried := t.queried + 2), source, name, line);
    HelpfulBindings(p.env, pick, Foreign(p.path), AfterReceiver(q, d, line), p.path, p.uri, line, 0, n + 1, name);
  }

  // ---- relations of members -------------------------------------------------

  ghost predicate HasMember(t: Tally) { exists i :: 0 <= i < |t.relations| && t.relations[i].rule == LspMemberOnModule }

  lemma {:induction false} DefinitionsKeepMembers(p: Pass, t: Tally, source: Option<EntityRef>, ls: seq<Location>,
                                                  line: u32, col: nat)
    requires Ordered(p.env.index)
    ensures HasMember(PushDefinitions(p, t, source, ls, line, col)) <==> HasMember(t)
    decreases |ls|
  {
    hide FindAt, Within;
    if ls != [] {
      var more := PushDefinition(p, t, source, ls[0], line, col);
      assert t.relations <= more.relations;
      assert forall i :: |t.relations| <= i < |more.relations| ==> more.relations[i].rule == LspDefinition;
      if i :| 0 <= i < |t.relations| && t.relations[i].rule == LspMemberOnModule {
        assert more.relations[i] == t.relations[i];
      }
      DefinitionsKeepMembers(p, more, source, ls[1..], line, col);
    }
  }

  lemma {:induction false} MembersStay(t: Tally, source: Option<EntityRef>, cs: seq<EntityRef>, line: u32, col: nat)
    requires HasMember(t)
    ensures HasMember(PushMembers(t, source, cs, line, col))
    decreases |cs|
  {
    if cs != [] {
      var more := PushMember(t, source, cs[0], line, col);
      var i :| 0 <= i < |t.relations| && t.relations[i].rule == LspMemberOnModule;
      assert more.relations[i] == t.relations[i];
      MembersStay(more, source, cs[1..], line, col);
    }
  }

  /** An entity other than the source, and not seen before, is pushed. */
  lemma {:induction false} MemberIsPushed(t: Tally, source: EntityRef, cs: seq<EntityRef>, line: u32, col: nat, id: nat)
    requires HasId(cs, id) && id != source.id && (t.seen == {} || HasMember(t))
    ensures HasMember(PushMembers(t, Some(source), cs, line, col))
    decreases |cs|
  {
    if HasMember(t) {
      MembersStay(t, Some(source), cs, line, col);
    } else {
      var more := PushMember(t, Some(source), cs[0], line, col);
      if cs[0].id != source.id {
        assert more.relations[|t.relations|].rule == LspMemberOnModule;
        MembersStay(more, Some(source), cs[1..], line, col);
      } else {
        var i :| 0 <= i < |cs| && cs[i].id == id;
        assert cs[1..][i - 1].id == id;
        MemberIsPushed(more, source, cs[1..], line, col, id);
      }
    }
  }

  // ---- the gate shows -------------------------------------------------------

  lemma SameReach(p: Pass, q: Pass)
    requires q == p.(env := q.env) && SameButServer(p.env, q.env)
    ensures forall e :: Reachable(p, e) == Reachable(q, e)
  {
  }

  lemma SameGate(p: Pass, q: Pass)
    requires q == p.(env := q.env) && SameButServer(p.env, q.env) && Ordered(p.env.index)
    ensures GateCanShow(p) == GateCanShow(q)
    ensures forall gated :: HomeCanOpen(p, gated) == HomeCanOpen(q, gated)
  {
    SameReach(p, q);
    SameFiles(p.env, q.env);
    hide FileUri, Openable, Opens, FindAt, Reachable;
    forall e, f, b ensures Betrays(p, e, f, b) == Betrays(q, e, f, b) {}
  }

  function Picks(a: u32, e: string, f: string): u32 -> string { (line: u32) => if line == a then e else f }

  /** A later line with this number. */
  function Later(b: u32): nat { b + 0x1_0000_0000 }

  /** Blank lines but for two expressions, the second on a line numbered `b`. */
  function TwoLines(a: u32, e: string, b: u32, f: string): seq<string>
  {
    Blank(a) + [Expression(e)] + Blank(Later(b) - a - 1) + [Expression(f)]
  }

  lemma TwoLinesShape(k: Classes, a: u32, e: string, b: u32, f: string)
    requires Ordinary(k) && IsWord(k, e) && IsWord(k, f)
    ensures var lines := TwoLines(a, e, b, f);
      && a < Later(b) && |lines| == Later(b) + 1 && lines[a] == Expression(e) && lines[Later(b)] == Expression(f)
      && (forall i :: 0 <= i < |lines| && i != a && i != Later(b) ==> lines[i] == "")
      && Lines(Joined(lines)) == lines
      && LineNumber(a) == a && LineNumber(Later(b)) == b
  {
    var lines := TwoLines(a, e, b, f);
    WordIsPlain(k, e);
    WordIsPlain(k, f);
    hide Expression, Ordinary, IsWord;
    LinesOfJoined(lines);
  }

  /** A pass on which everything needed for the failing runs is there. */
  ghost predicate Equipped(p: Pass)
  {
    && Filed(p.env.index) && Ordered(p.env.index) && Ordinary(p.classes) && Sane(p.classes)
    && p.env.hasDefinition && p.env.hasTypeDefinition && p.path != ""
  }

  /** The entity lies elsewhere, and a member can name it. */
  ghost predicate Nameable(p: Pass, e: EntityRef) { Elsewhere(p.env, p.path, e) && IsWord(p.classes, e.name) }

  /** The ungated pass opens the file of `e` on a line without a source, and pushes nothing. */
  lemma UngatedOpens(p: Pass, e: EntityRef, pick: u32 -> string, d: Docs, t: Tally, line: u32)
    requires Equipped(p) && Nameable(p, e) && pick(line) == e.filePath
    requires FindAt(p.env.index, p.uri, line).None? && Opens(p.env, e.filePath, FileUri(p.env, e.filePath))
    ensures var s := AtLine(With(p, pick), false, d, t, Expression(e.name), line);
      && s.result == Ok(t.(queried := t.queried + 2))
      && s.docs.open == d.open + {FileUri(p.env, e.filePath)}
  {
    hide AtLine, JoinAll, FindAt, Opens, FileUri, OfName, Questioned, Foreign, IsWord, Ordinary, Expression;
    var q, n, at := With(p, pick), |e.name|, Foreign(p.path);
    var candidates := OfName(p.env, e.filePath, e.name);
    HelpfulLine(p, false, pick, d, t, e.name, line);
    NamedOfFile(p.env, e.filePath, e.name, e);
    AdmitsAll(p.env, pick, at, Questioned(q, d, line, n + 1), p.path, e.filePath, candidates, []);
    var cs := JoinAll(q.env, Questioned(q, d, line, n + 1), p.path, [at], candidates, []).result.value;
    NothingPushedMembers(t.(queried := t.queried + 2), cs, line, n + 1);
    NothingPushedDefinitions(q, t.(queried := t.queried + 2), [at], line, n + 1);
  }

  /** With the uri open, the entity `f` becomes a member relation of a source that is not it. */
  lemma OpenIsBelieved(p: Pass, gated: bool, f: EntityRef, pick: u32 -> string, d: Docs, t: Tally, line: u32)
    requires Equipped(p) && Nameable(p, f) && pick(line) == f.filePath
    requires FindAt(p.env.index, p.uri, line).Some? && FindAt(p.env.index, p.uri, line).value.id != f.id
    requires FileUri(p.env, f.filePath) in d.open && t.seen == {}
    ensures var s := AtLine(With(p, pick), gated, d, t, Expression(f.name), line);
      s.result.Ok? && HasMember(s.result.value)
  {
    hide AtLine, JoinAll, FindAt, FileUri, OfName, Questioned, Foreign, IsWord, Ordinary, Expression, HasMember,
         PushDefinitions,
         PushMembers;
    var q, n, at := With(p, pick), |f.name|, Foreign(p.path);
    var candidates := OfName(p.env, f.filePath, f.name);
    var source := FindAt(p.env.index, p.uri, line).value;
    var counted := t.(queried := t.queried + 2);
    HelpfulLine(p, gated, pick, d, t, f.name, line);
    NamedOfFile(p.env, f.filePath, f.name, f);
    AdmitsAll(p.env, pick, at, Questioned(q, d, line, n + 1), p.path, f.filePath, candidates, []);
    var cs := JoinAll(q.env, Questioned(q, d, line, n + 1), p.path, [at], candidates, []).result.value;
    MemberIsPushed(counted, source, cs, line, n + 1, f.id);
    DefinitionsKeepMembers(q, PushMembers(counted, Some(source), cs, line, n + 1), Some(source), [at], line, n + 1);
  }

  /** With nothing open, a file that cannot be opened yields no member relation. */
  lemma ClosedIsRefused(p: Pass, gated: bool, f: EntityRef, pick: u32 -> string, d: Docs, t: Tally, line: u32)
    requires Equipped(p) && Nameable(p, f) && pick(line) == f.filePath
    requires FindAt(p.env.index, p.uri, line).Some?
    requires FileUri(p.env, f.filePath) !in d.open && !Openable(p.env, f.filePath) && !HasMember(t)
    ensures var s := AtLine(With(p, pick), gated, d, t, Expression(f.name), line);
      s.result.Ok? && !HasMember(s.result.value)
  {
    hide AtLine, JoinAll, FindAt, FileUri, Openable, OfName, Questioned, Foreign, IsWord, Ordinary, Expression, PushDefinitions;
    var q, n, at := With(p, pick), |f.name|, Foreign(p.path);
    var candidates := OfName(p.env, f.filePath, f.name);
    var source := FindAt(p.env.index, p.uri, line).value;
    var counted := t.(queried := t.queried + 2);
    SameFiles(p.env, q.env);
    HelpfulLine(p, gated, pick, d, t, f.name, line);
    NamedOfFile(p.env, f.filePath, f.name, f);
    RefusesAll(q.env, Questioned(q, d, line, n + 1), p.path, f.filePath, [at], candidates, []);
    assert PushMembers(counted, Some(source), [], line, n + 1) == counted;
    DefinitionsKeepMembers(q, counted, Some(source), [at], line, n + 1);
  }

  lemma ReachableIsElsewhere(p: Pass, e: EntityRef)
    requires Filed(p.env.index) && Sane(p.classes) && Reachable(p, e)
    ensures Nameable(p, e)
  {
    ReadableIsWord(p.classes, e.name);
  }

  /** The ungated pass over the two lines relates the source to `f`. */
  lemma UngatedRelates(p: Pass, e: EntityRef, f: EntityRef, a: u32, b: u32)
    requires Equipped(p) && FindAt(p.env.index, p.uri, a).None? && Betrays(p, e, f, b)
    requires Nameable(p, e) && Nameable(p, f)
    ensures var r := SweepFile(With(p, Picks(a, e.filePath, f.filePath)), false, Joined(TwoLines(a, e.name, b, f.name))).result;
      r.Ok? && HasMember(r.value)
  {
    hide FindAt, FileUri, Openable, AtLine, Expression, Ordinary, IsWord, Filed, Elsewhere, Reachable, TwoLines,
         Later, HasMember;
    var pick := Picks(a, e.filePath, f.filePath);
    var q, lines, j, none := With(p, pick), TwoLines(a, e.name, b, f.name), Later(b), Docs({}, []);
    TwoLinesShape(p.classes, a, e.name, b, f.name);
    BlankLines(q, false, none, NOTHING, lines, 0, a);
    UngatedOpens(p, e, pick, none, NOTHING, a);
    var s := AtLine(q, false, none, NOTHING, lines[a], a);
    LineBetween(q, false, none, NOTHING, lines, a);
    BlankLines(q, false, s.docs, s.result.value, lines, a + 1, j);
    OpenIsBelieved(p, false, f, pick, s.docs, s.result.value, b);
    LastLine(q, false, s.docs, s.result.value, lines, j);
  }

  /** The gated one does not. */
  lemma GatedDoesNot(p: Pass, e: EntityRef, f: EntityRef, a: u32, b: u32)
    requires Equipped(p) && FindAt(p.env.index, p.uri, a).None? && Betrays(p, e, f, b)
    requires Nameable(p, e) && Nameable(p, f)
    ensures var r := SweepFile(With(p, Picks(a, e.filePath, f.filePath)), true, Joined(TwoLines(a, e.name, b, f.name))).result;
      r.Ok? && !HasMember(r.value)
  {
    hide FindAt, FileUri, Openable, AtLine, Expression, Ordinary, IsWord, Filed, Elsewhere, Reachable, TwoLines,
         Later, HasMember;
    var pick := Picks(a, e.filePath, f.filePath);
    var q, lines, j, none := With(p, pick), TwoLines(a, e.name, b, f.name), Later(b), Docs({}, []);
    TwoLinesShape(p.classes, a, e.name, b, f.name);
    BlankLines(q, true, none, NOTHING, lines, 0, a);
    GatedSkips(q, none, NOTHING, lines[a], a);
    var s := AtLine(q, true, none, NOTHING, lines[a], a);
    LineBetween(q, true, none, NOTHING, lines, a);
    BlankLines(q, true, none, s.result.value, lines, a + 1, j);
    NoMembersYet(s.result.value);
    ClosedIsRefused(p, true, f, pick, none, s.result.value, b);
    LastLine(q, true, none, s.result.value, lines, j);
  }

  lemma LineBetween(p: Pass, gated: bool, d: Docs, t: Tally, lines: seq<string>, i: nat)
    requires Ordered(p.env.index) && i < |lines|
    ensures var s := AtLine(p, gated, d, t, lines[i], LineNumber(i));
      s.result.Ok? ==> AtLines(p, gated, d, t, lines, i) == AtLines(p, gated, s.docs, s.result.value, lines, i + 1)
  {
    hide AtLine;
  }

  /** The failing run: `e` names on a line without a source an entity of a file that can be opened,
      `f` later, on a line with one, an entity of another file under that uri that cannot. Asking
      about every identifier relates the source to `f`; the gated pass does not. */
  lemma GateShows(p: Pass, e: EntityRef, f: EntityRef, a: u32, b: u32)
    requires Equipped(p) && FindAt(p.env.index, p.uri, a).None? && Betrays(p, e, f, b)
    ensures !Invisible(With(p, Picks(a, e.filePath, f.filePath)), Joined(TwoLines(a, e.name, b, f.name)))
  {
    ReachableIsElsewhere(p, e);
    ReachableIsElsewhere(p, f);
    hide Betrays, Nameable, Equipped, FindAt, SweepFile, HasMember;
    UngatedRelates(p, e, f, a, b);
    GatedDoesNot(p, e, f, a, b);
  }

  lemma NoMembersYet(t: Tally)
    requires t.relations == []
    ensures !HasMember(t)
  {
  }

  /** What the gate leaves of a line without a source: its count. */
  lemma GatedSkips(p: Pass, d: Docs, t: Tally, text: string, line: u32)
    requires Ordered(p.env.index) && FindAt(p.env.index, p.uri, line).None?
    ensures var s := AtLine(p, true, d, t, text, line);
      s.docs == d && s.result.Ok? && s.result.value.relations == t.relations
  {
    hide Positions, FindAt;
  }

  lemma LastLine(p: Pass, gated: bool, d: Docs, t: Tally, lines: seq<string>, j: nat)
    requires Ordered(p.env.index) && |lines| == j + 1
    ensures var s := AtLine(p, gated, d, t, lines[j], LineNumber(j));
      AtLines(p, gated, d, t, lines, j) == s
  {
    hide AtLine;
    var s := AtLine(p, gated, d, t, lines[j], LineNumber(j));
    if s.result.Ok? { assert AtLines(p, gated, s.docs, s.result.value, lines, j + 1) == Step(Ok(s.result.value), s.docs); }
  }

  /** For an index, a root, capabilities, a provider, a client and an enriched file: the gate cannot be
      told from the outcome, whatever the server and the text, if and only if it cannot show. */
  ghost predicate AlwaysInvisible(p: Pass)
    requires Ordered(p.env.index)
  {
    forall q: Pass, content: string :: q == p.(env := q.env) && SameButServer(p.env, q.env) ==> Invisible(q, content)
  }

  lemma GateIsInvisibleIff(p: Pass)
    requires Filed(p.env.index) && Ordinary(p.classes)
    ensures AlwaysInvisible(p) <==> !GateCanShow(p)
  {
    hide Invisible, FindAt, Betrays;
    if GateCanShow(p) {
      var e, f, b :| Betrays(p, e, f, b);
      var a: u32 :| FindAt(p.env.index, p.uri, a).None?;
      GateShows(p, e, f, a, b);
      var q := With(p, Picks(a, e.filePath, f.filePath));
      assert q == p.(env := q.env) && SameButServer(p.env, q.env);
    } else {
      forall q: Pass, content: string | q == p.(env := q.env) && SameButServer(p.env, q.env)
        ensures Invisible(q, content)
      {
        SameGate(p, q);
        GateIsInvisible(q, content);
      }
    }
  }

  // ---- such a pass ----------------------------------------------------------

  const LOWER := Classes(c => 'a' <= c <= 'z', c => 'a' <= c <= 'z', c => c == ' ')

  function Entity(id: nat, file: string, line: u32): EntityRef { EntityRef(id, "x", file, line, 0, line, line, 0) }

  /** One file indexed as `a.rs` and as `/w/a.rs`, with text for the first; the enriched file has one
      entity, on its second line. */
  const MIXED := Index(
    map["m.rs" := [Entity(3, "m.rs", 1)], "a.rs" := [Entity(1, "a.rs", 0)], "/w/a.rs" := [Entity(2, "/w/a.rs", 0)]],
    ["m.rs", "a.rs", "/w/a.rs"])

  function MixedPass(): Pass
  {
    var env := Env(MIXED, "/w", true, true, (m, uri, line, col) => Ok([]),
                   Some(file => if file == "a.rs" then Some("") else None), uri => true);
    Pass(env, LOWER, "file:///w/m.rs", "m.rs")
  }

  lemma RustHasLanguage()
    ensures HasLanguage("a.rs")
  {
    var path := "a.rs";
    assert path[..3] == "a.r" && "a.r"[..2] == "a.";
    assert "" + ['r'] == "r" && "r" + ['s'] == "rs";
    assert Extension("a.") == Some("") && Extension("a.r") == Some("r");
    assert Extension(path) == Some("rs");
  }

  lemma MixedSources()
    ensures Filed(MIXED)
    ensures FindAt(MIXED, "file:///w/m.rs", 0) == None
    ensures FindAt(MIXED, "file:///w/m.rs", 1) == Some(Entity(3, "m.rs", 1))
  {
    var uri, path := "file:///w/m.rs", "/w/m.rs";
    assert uri[|SCHEME|..] == path && path[3..] == "m.rs";
    assert UriToPath(uri) == Some(path) && Matches(path, "m.rs");
    assert MIXED.order[0] == "m.rs" && path !in MIXED.byFile;
    assert KeyFor(MIXED, path) == Some("m.rs");
    var e := Entity(3, "m.rs", 1);
    assert [e][1..] == [];
    assert Innermost([e], 0) == None && Innermost([e], 1) == Some(e);
  }

  lemma MixedJoins()
    ensures JoinPath("/w", "a.rs") == "/w/a.rs" && JoinPath("/w", "/w/a.rs") == "/w/a.rs"
    ensures JoinPath("/w", "m.rs") == "/w/m.rs"
  {
    var root, a, b, m := "/w", "a.rs", "/w/a.rs", "m.rs";
    assert a[0] != '/' && m[0] != '/' && root[1] == 'w' && b[..1] == "/";
    assert root + "/" + a == b && root + "/" + m == "/w/m.rs";
  }

  lemma MixedOpens()
    ensures var env := MixedPass().env;
      && Opens(env, "a.rs", FileUri(env, "/w/a.rs")) && !Openable(env, "/w/a.rs")
  {
    var env := MixedPass().env;
    RustHasLanguage();
    MixedJoins();
    assert FileUri(env, "a.rs") == FileUri(env, "/w/a.rs");
    hide HasLanguage, FileUri;
  }

  /** The gate can be seen on such a pass. */
  lemma GateShowsOnMixedPaths()
    ensures var p := MixedPass();
      && Filed(p.env.index) && Ordinary(p.classes) && p.uri == FileUri(p.env, p.path)
      && GateCanShow(p) && !AlwaysInvisible(p)
  {
    hide FindAt, Openable, Opens, JoinPath, Betrays, AlwaysInvisible, Filed;
    var p := MixedPass();
    MixedSources();
    MixedJoins();
    MixedBetrays();
    var a: u32 := 0;
    assert FindAt(p.env.index, p.uri, a).None?;
    assert GateCanShow(p);
    GateIsInvisibleIff(p);
  }

  lemma MixedBetrays()
    ensures Ordered(MIXED) && Betrays(MixedPass(), Entity(1, "a.rs", 0), Entity(2, "/w/a.rs", 0), 1)
  {
    hide FindAt, FileUri, Openable, Opens;
    var p, e, f := MixedPass(), Entity(1, "a.rs", 0), Entity(2, "/w/a.rs", 0);
    MixedSources();
    MixedOpens();
    assert MIXED.byFile["a.rs"][0] == e && MIXED.byFile["/w/a.rs"][0] == f;
    assert e in MIXED.byFile["a.rs"] && f in MIXED.byFile["/w/a.rs"];
    assert e.filePath != p.path && f.filePath != p.path;
  }

  // ---- the enriched file is opened ------------------------------------------

  function OneLine(b: u32, name: string): seq<string> { Blank(b) + [Expression(name)] }

  lemma OneLineShape(k: Classes, b: u32, name: string)
    requires Ordinary(k) && IsWord(k, name)
    ensures var lines := OneLine(b, name);
      && |lines| == b + 1 && lines[b] == Expression(name) && (forall i :: 0 <= i < b ==> lines[i] == "")
      && Lines(Joined(lines)) == lines && LineNumber(b) == b
  {
    WordIsPlain(k, name);
    hide Expression, Ordinary, IsWord;
    LinesOfJoined(OneLine(b, name));
  }

  /** The failing run: a line that is not skipped names an entity of another file under the enriched
      file's uri, and the pass opens it. */
  lemma HomeIsOpened(p: Pass, gated: bool, e: EntityRef, b: u32)
    requires Equipped(p) && Reachable(p, e) && Opens(p.env, e.filePath, p.uri)
    requires gated ==> FindAt(p.env.index, p.uri, b).Some?
    ensures !Disciplined(SweepFile(With(p, (line: u32) => e.filePath), gated, Joined(OneLine(b, e.name))).docs.log, p.uri)
  {
    hide FindAt, Openable, FileUri, JoinAll, Expression, Ordinary, IsWord, OneLine, OfName, Reachable, AtLine,
         Foreign, Questioned;
    var pick := (line: u32) => e.filePath;
    var q, n, at, lines, none := With(p, pick), |e.name|, Foreign(p.path), OneLine(b, e.name), Docs({}, []);
    SameFiles(p.env, q.env);
    ReachableIsElsewhere(p, e);
    OneLineShape(p.classes, b, e.name);
    NamedOfFile(p.env, e.filePath, e.name, e);
    var candidates := OfName(p.env, e.filePath, e.name);
    assert candidates[0] in candidates;
    BlankLines(q, gated, none, NOTHING, lines, 0, b);
    LastLine(q, gated, none, NOTHING, lines, b);
    HelpfulLine(p, gated, pick, none, NOTHING, e.name, b);
    FirstOpens(q.env, Questioned(q, none, b, n + 1), p.path, e.filePath, [at], candidates);
    OpenedBreaks(JoinAll(q.env, Questioned(q, none, b, n + 1), p.path, [at], candidates, []).docs.log,
                 AtLine(q, gated, none, NOTHING, lines[b], b).docs.log, p.uri);
  }

  lemma OpenedBreaks(heard: seq<Event>, log: seq<Event>, home: string)
    requires heard <= log && Opened(home) in heard
    ensures !Disciplined(log, home)
  {
    var i :| 0 <= i < |heard| && heard[i] == Opened(home);
    assert log[i].Opened? && log[i].uri == home;
  }

  ghost predicate SweepsInOrder(p: Pass, gated: bool, content: string)
    requires Ordered(p.env.index)
  {
    Disciplined(SweepFile(p, gated, content).docs.log, p.uri)
  }

  /** Whatever the server and the text, the pass's traffic is disciplined. */
  ghost predicate AlwaysInOrder(p: Pass, gated: bool)
    requires Ordered(p.env.index)
  {
    forall q: Pass, content: string :: q == p.(env := q.env) && SameButServer(p.env, q.env) ==> SweepsInOrder(q, gated, content)
  }

  /** That is so if and only if nothing a member can name lies in a file that can be opened under the
      enriched file's uri, or the pass never gets to look for it. */
  lemma SweepIsDisciplinedIff(p: Pass, gated: bool)
    requires Filed(p.env.index) && Ordinary(p.classes) && AtHome(p)
    ensures AlwaysInOrder(p, gated) <==> !HomeCanOpen(p, gated)
  {
    hide FindAt, Reachable, Opens, FileUri, SweepFile, Disciplined;
    if HomeCanOpen(p, gated) {
      var e :| Reachable(p, e) && Opens(p.env, e.filePath, p.uri);
      var b: u32 := 0;
      if gated { b :| FindAt(p.env.index, p.uri, b).Some?; }
      HomeIsOpened(p, gated, e, b);
      var q := With(p, (line: u32) => e.filePath);
      assert q == p.(env := q.env) && SameButServer(p.env, q.env);
      assert !SweepsInOrder(q, gated, Joined(OneLine(b, e.name)));
    } else {
      forall q: Pass, content: string | q == p.(env := q.env) && SameButServer(p.env, q.env)
        ensures SweepsInOrder(q, gated, content)
      {
        SameGate(p, q);
        SameFiles(p.env, q.env);
        SweepIsDisciplined(q, gated, content);
      }
    }
  }

  // ---- what is counted and what is asked ------------------------------------

  /** A request of the pass about this column. */
  predicate AskedAt(p: Pass, log: seq<Event>, line: u32, col: nat) { Asked(Definition, p.uri, line, col) in log }

  lemma AskExtends(env: Env, d: Docs, m: Method, uri: string, line: u32, col: nat)
    ensures d.log <= Ask(env, d, m, uri, line, col).docs.log
    ensures Supported(env, m) ==> Asked(m, uri, line, col) in Ask(env, d, m, uri, line, col).docs.log
  {
  }

  lemma BindingsExtend(env: Env, d: Docs, enriched: string, uri: string, line: u32, receiverCol: nat,
                       memberCol: nat, name: string)
    requires Ordered(env.index)
    ensures d.log <= Bindings(env, d, enriched, uri, line, receiverCol, memberCol, name).docs.log
  {
    hide JoinAll, Candidates;
    var modules := Ask(env, d, TypeDefinition, uri, line, receiverCol);
    var member := Ask(env, modules.docs, Definition, uri, line, memberCol);
    if modules.result.Ok? && member.result.Ok? {
      JoinAllExtends(env, member.docs, enriched, member.result.value, Candidates(env, modules.result.value, name), []);
    }
  }

  /** Each column of a line that is not skipped is asked about. */
  lemma ColumnIsAsked(p: Pass, d: Docs, t: Tally, source: Option<EntityRef>, text: string, line: u32, col: nat)
    requires Ordered(p.env.index) && p.env.hasDefinition
    ensures var s := AtColumn(p, d, t, source, text, line, col);
      d.log <= s.docs.log && AskedAt(p, s.docs.log, line, col)
  {
    hide Ask, Bindings, PushMembers, PushDefinitions, ReceiverNamesModule, MemberAt;
    AskExtends(p.env, d, Definition, p.uri, line, col);
    var receiver := Ask(p.env, d, Definition, p.uri, line, col);
    AskExtends(p.env, receiver.docs, Definition, p.uri, line, col);
    match MemberAt(p.classes, text, col) {
      case None =>
      case Some(m) => BindingsExtend(p.env, receiver.docs, p.path, p.uri, line, col, m.column, m.name);
    }
    StillIn(receiver.docs.log, AtColumn(p, d, t, source, text, line, col).docs.log, Asked(Definition, p.uri, line, col));
  }

  lemma StillIn(a: seq<Event>, b: seq<Event>, e: Event)
    requires a <= b && e in a
    ensures e in b
  {
    var i :| 0 <= i < |a| && a[i] == e;
    assert b[i] == e;
  }

  lemma {:induction false} ColumnsAreAsked(p: Pass, d: Docs, t: Tally, source: Option<EntityRef>, text: string,
                                           line: u32, cols: seq<nat>)
    requires Ordered(p.env.index) && p.env.hasDefinition
    ensures var s := AtColumns(p, d, t, source, text, line, cols);
      && d.log <= s.docs.log
      && (s.result.Ok? ==> forall a :: 0 <= a < |cols| ==> AskedAt(p, s.docs.log, line, cols[a]))
    decreases |cols|
  {
    hide AtColumn;
    if cols != [] {
      ColumnIsAsked(p, d, t, source, text, line, cols[0]);
      var b := AtColumn(p, d, t, source, text, line, cols[0]);
      if b.result.Ok? {
        ColumnsAreAsked(p, b.docs, b.result.value, source, text, line, cols[1..]);
        var s := AtColumns(p, d, t, source, text, line, cols);
        StillIn(b.docs.log, s.docs.log, Asked(Definition, p.uri, line, cols[0]));
        assert forall a :: 0 < a < |cols| ==> cols[a] == cols[1..][a - 1];
      }
    }
  }

  /** Every reported column of every line with a source, from line `i` on, was asked about. */
  ghost predicate AllAsked(p: Pass, lines: seq<string>, i: nat, log: seq<Event>)
    requires Ordered(p.env.index)
  {
    forall j, a ::
      i <= j < |lines| && FindAt(p.env.index, p.uri, LineNumber(j)).Some? && 0 <= a < |Positions(p.classes, lines[j])| ==>
        AskedAt(p, log, LineNumber(j), Positions(p.classes, lines[j])[a])
  }

  lemma LineIsAsked(p: Pass, d: Docs, t: Tally, text: string, line: u32)
    requires Ordered(p.env.index) && p.env.hasDefinition
    ensures var s := AtLine(p, true, d, t, text, line);
      && d.log <= s.docs.log
      && (s.result.Ok? && FindAt(p.env.index, p.uri, line).Some? ==>
            forall a :: 0 <= a < |Positions(p.classes, text)| ==> AskedAt(p, s.docs.log, line, Positions(p.classes, text)[a]))
  {
    hide AtColumns, Positions, FindAt, AskedAt;
    var cols := Positions(p.classes, text);
    ColumnsAreAsked(p, d, t.(queried := t.queried + |cols|), FindAt(p.env.index, p.uri, line), text, line, cols);
  }

  lemma {:induction false} LinesAreAsked(p: Pass, d: Docs, t: Tally, lines: seq<string>, i: nat)
    requires Ordered(p.env.index) && p.env.hasDefinition && i <= |lines|
    ensures var s := AtLines(p, true, d, t, lines, i);
      d.log <= s.docs.log && (s.result.Ok? ==> AllAsked(p, lines, i, s.docs.log))
    decreases |lines| - i
  {
    hide AtLine, FindAt, Positions;
    if i < |lines| {
      LineIsAsked(p, d, t, lines[i], LineNumber(i));
      var b := AtLine(p, true, d, t, lines[i], LineNumber(i));
      if b.result.Ok? {
        LinesAreAsked(p, b.docs, b.result.value, lines, i + 1);
        var s := AtLines(p, true, d, t, lines, i);
        forall a | FindAt(p.env.index, p.uri, LineNumber(i)).Some? && 0 <= a < |Positions(p.classes, lines[i])|
          ensures AskedAt(p, s.docs.log, LineNumber(i), Positions(p.classes, lines[i])[a])
        {
          StillIn(b.docs.log, s.docs.log, Asked(Definition, p.uri, LineNumber(i), Positions(p.classes, lines[i])[a]));
        }
      }
    }
  }

  /** Identifiers on lines with a source, from line `i` on: the positions the pass asks about. */
  function SourcedIdentifiers(p: Pass, lines: seq<string>, i: nat): nat
    requires Ordered(p.env.index) && i <= |lines|
    decreases |lines| - i
  {
    if i == |lines| then 0
    else (if FindAt(p.env.index, p.uri, LineNumber(i)).Some? then |Positions(p.classes, lines[i])| else 0)
         + SourcedIdentifiers(p, lines, i + 1)
  }

  /** Some line the gate skips has an identifier. */
  ghost predicate SkipsIdentifiers(p: Pass, lines: seq<string>, i: nat)
    requires Ordered(p.env.index)
  {
    exists j :: i <= j < |lines| && FindAt(p.env.index, p.uri, LineNumber(j)).None? && Positions(p.classes, lines[j]) != []
  }

  lemma {:induction false} CountsDiffer(p: Pass, lines: seq<string>, i: nat)
    requires Ordered(p.env.index) && i <= |lines|
    ensures SourcedIdentifiers(p, lines, i) <= Identifiers(p.classes, lines, i)
    ensures SourcedIdentifiers(p, lines, i) < Identifiers(p.classes, lines, i) <==> SkipsIdentifiers(p, lines, i)
    decreases |lines| - i
  {
    hide FindAt, Positions;
    if i < |lines| { CountsDiffer(p, lines, i + 1); }
  }

  /** A successful pass asks about every identifier of a line with a source. `positions_queried` is at
      least their number, and is that number if and only if no line without a source has one. */
  lemma QueriedIsAskedIff(p: Pass, content: string)
    requires Ordered(p.env.index) && p.env.hasDefinition && SweepFile(p, true, content).result.Ok?
    ensures var s, lines := SweepFile(p, true, content), Lines(content);
      && AllAsked(p, lines, 0, s.docs.log)
      && s.result.value.queried >= SourcedIdentifiers(p, lines, 0)
      && (s.result.value.queried == SourcedIdentifiers(p, lines, 0) <==> !SkipsIdentifiers(p, lines, 0))
  {
    hide AtLines, AllAsked, SkipsIdentifiers;
    LinesAreAsked(p, Docs({}, []), NOTHING, Lines(content), 0);
    QueriedCountsIdentifiers(p, true, content);
    CountsDiffer(p, Lines(content), 0);
  }

  /** It can be more: two words on a line without a source are counted, and nothing is asked. */
  lemma CountedButNotAsked(p: Pass, name: string)
    requires Ordered(p.env.index) && p.env.hasDefinition && Ordinary(p.classes) && IsWord(p.classes, name)
    requires forall line: u32 :: FindAt(p.env.index, p.uri, line).None?
    ensures var s := SweepFile(p, true, Joined(OneLine(0, name)));
      s.result.Ok? && s.result.value.queried == 2 && s.docs.log == []
  {
    hide AtLines, FindAt, Ordinary, IsWord, Expression, Positions, OneLine;
    var lines := OneLine(0, name);
    OneLineShape(p.classes, 0, name);
    ExpressionIsRead(p.classes, name);
    UnownedFileIsSilent(p, Joined(lines));
    QueriedCountsIdentifiers(p, true, Joined(lines));
    assert Identifiers(p.classes, lines, 1) == 0;
  }
}
