/** What a pass counts and what its relations carry: the counter of resolutions said by the answers, each
    relation's evidence said by the server's answer at the position it records, and their order. */
module SweepEvidence {
  import opened Wrappers
  import opened StableSort
  import opened EntityIndex
  import opened Scanner
  import opened Join
  import opened JoinTheorems
  import opened Sweep
  import opened SweepTheorems
  import opened SweepMeaning

  // ---- the counter of resolutions -------------------------------------------

  function IsMember(): Relation -> bool { (r: Relation) => r.rule == LspMemberOnModule }

  /** The relations of members on modules. */
  function MemberCount(rs: seq<Relation>): nat { |Filter(rs, IsMember())| }

  /** A definition lands on an entity other than the source. */
  predicate Lands(p: Pass, source: EntityRef, at: Location)
    requires Ordered(p.env.index)
  {
    var target := FindAt(p.env.index, at.uri, at.line);
    target.Some? && target.value.id != source.id
  }

  /** How many of the locations do, each as often as it was answered. */
  function Landings(p: Pass, source: EntityRef, ls: seq<Location>): nat
    requires Ordered(p.env.index)
  {
    if ls == [] then 0 else (if Lands(p, source, ls[0]) then 1 else 0) + Landings(p, source, ls[1..])
  }

  /** The landings at a column asked about as a plain identifier. */
  ghost function ColumnLandings(p: Pass, text: string, line: u32, source: EntityRef, col: nat): nat
    requires Ordered(p.env.index)
  {
    var answer := Locations(p.env, Definition, p.uri, line, col);
    if OnModule(p, text, line, col) || answer.Err? then 0 else Landings(p, source, answer.value)
  }

  ghost function ColumnsLandings(p: Pass, text: string, line: u32, source: EntityRef, cols: seq<nat>): nat
    requires Ordered(p.env.index)
    decreases |cols|
  {
    if cols == [] then 0
    else ColumnLandings(p, text, line, source, cols[0]) + ColumnsLandings(p, text, line, source, cols[1..])
  }

  /** Over the lines with a source, from line `i` on. */
  ghost function LinesLandings(p: Pass, lines: seq<string>, i: nat): nat
    requires Ordered(p.env.index) && i <= |lines|
    decreases |lines| - i
  {
    if i == |lines| then 0
    else
      (match FindAt(p.env.index, p.uri, LineNumber(i))
       case None => 0
       case Some(source) => ColumnsLandings(p, lines[i], LineNumber(i), source, Positions(p.classes, lines[i])))
      + LinesLandings(p, lines, i + 1)
  }

  /** Resolutions that are not member relations. */
  function Plain(t: Tally): int { t.resolved - MemberCount(t.relations) }

  lemma MemberCountSnoc(rs: seq<Relation>, r: Relation)
    ensures MemberCount(rs + [r]) == MemberCount(rs) + if r.rule == LspMemberOnModule then 1 else 0
  {
    hide Filter;
    FilterSnoc(rs, r, IsMember());
  }

  lemma {:induction false} MembersPlain(t: Tally, source: EntityRef, cs: seq<EntityRef>, line: u32, col: nat)
    ensures Plain(PushMembers(t, Some(source), cs, line, col)) == Plain(t)
    decreases |cs|
  {
    hide MemberCount;
    if cs != [] {
      MemberCountSnoc(t.relations, Relation(source.id, cs[0].id, LspMemberOnModule, line, col));
      MembersPlain(PushMember(t, Some(source), cs[0], line, col), source, cs[1..], line, col);
    }
  }

  lemma {:induction false} DefinitionsPlain(p: Pass, t: Tally, source: EntityRef, ls: seq<Location>, line: u32, col: nat)
    requires Ordered(p.env.index)
    ensures Plain(PushDefinitions(p, t, Some(source), ls, line, col)) == Plain(t) + Landings(p, source, ls)
    decreases |ls|
  {
    hide MemberCount, FindAt, Within;
    if ls != [] {
      var target := FindAt(p.env.index, ls[0].uri, ls[0].line);
      if target.Some? { MemberCountSnoc(t.relations, Relation(source.id, target.value.id, LspDefinition, line, col)); }
      DefinitionsPlain(p, PushDefinition(p, t, Some(source), ls[0], line, col), source, ls[1..], line, col);
    }
  }

  lemma ColumnPlain(p: Pass, d: Docs, t: Tally, source: EntityRef, text: string, line: u32, col: nat)
    requires Ordered(p.env.index)
    ensures var s := AtColumn(p, d, t, Some(source), text, line, col);
      s.result.Ok? ==> Plain(s.result.value) == Plain(t) + ColumnLandings(p, text, line, source, col)
  {
    hide Ask, Locations, Bindings, PushMembers, PushDefinitions, ReceiverNamesModule, InAnotherFile, MemberAt, Plain, Landings;
    AskAnswers(p.env, d, Definition, p.uri, line, col);
    var receiver := Ask(p.env, d, Definition, p.uri, line, col);
    AskAnswers(p.env, receiver.docs, Definition, p.uri, line, col);
    if receiver.result.Ok? {
      NamesModuleIff(receiver.result.value, p.path);
      DefinitionsPlain(p, t, source, receiver.result.value, line, col);
    }
    match MemberAt(p.classes, text, col) {
      case None =>
      case Some(m) =>
        forall cs ensures Plain(PushMembers(t, Some(source), cs, line, m.column)) == Plain(t)
        {
          MembersPlain(t, source, cs, line, m.column);
        }
    }
  }

  lemma {:induction false} ColumnsPlain(p: Pass, d: Docs, t: Tally, source: EntityRef, text: string, line: u32, cols: seq<nat>)
    requires Ordered(p.env.index)
    ensures var s := AtColumns(p, d, t, Some(source), text, line, cols);
      s.result.Ok? ==> Plain(s.result.value) == Plain(t) + ColumnsLandings(p, text, line, source, cols)
    decreases |cols|
  {
    hide AtColumn, ColumnLandings, Plain;
    if cols != [] {
      ColumnPlain(p, d, t, source, text, line, cols[0]);
      var b := AtColumn(p, d, t, Some(source), text, line, cols[0]);
      if b.result.Ok? { ColumnsPlain(p, b.docs, b.result.value, source, text, line, cols[1..]); }
    }
  }

  lemma {:induction false} LinesPlain(p: Pass, d: Docs, t: Tally, lines: seq<string>, i: nat)
    requires Ordered(p.env.index) && i <= |lines|
    ensures var s := AtLines(p, true, d, t, lines, i);
      s.result.Ok? ==> Plain(s.result.value) == Plain(t) + LinesLandings(p, lines, i)
    decreases |lines| - i
  {
    hide AtColumns, ColumnsLandings, FindAt, Positions, MemberCount;
    if i < |lines| {
      var cols := Positions(p.classes, lines[i]);
      var counted := t.(queried := t.queried + |cols|);
      match FindAt(p.env.index, p.uri, LineNumber(i)) {
        case None =>
        case Some(source) => ColumnsPlain(p, d, counted, source, lines[i], LineNumber(i), cols);
      }
      var b := AtLine(p, true, d, t, lines[i], LineNumber(i));
      if b.result.Ok? { LinesPlain(p, b.docs, b.result.value, lines, i + 1); }
    }
  }

  /** `definitions_resolved` of a successful pass: the relations of members on modules, and every
      location answered for a plain identifier on a line with a source that lands on another entity,
      repeats included. */
  lemma ResolvedIsCounted(p: Pass, content: string)
    requires Ordered(p.env.index) && p.env.hasDefinition && SweepFile(p, true, content).result.Ok?
    ensures var t := SweepFile(p, true, content).result.value;
      t.resolved == MemberCount(t.relations) + LinesLandings(p, Lines(content), 0)
  {
    hide AtLines, LinesLandings;
    LinesPlain(p, Docs({}, []), NOTHING, Lines(content), 0);
  }

  // ---- evidence -------------------------------------------------------------

  /** The answer for the position names the target. */
  ghost predicate Answers(p: Pass, line: u32, col: nat, dst: nat)
    requires Ordered(p.env.index)
  {
    var answer := Locations(p.env, Definition, p.uri, line, col);
    answer.Ok? && LandsOn(p, answer.value, dst)
  }

  ghost predicate LandsOn(p: Pass, ls: seq<Location>, dst: nat)
    requires Ordered(p.env.index)
  {
    exists i :: 0 <= i < |ls| && FindAt(p.env.index, ls[i].uri, ls[i].line).Some?
      && FindAt(p.env.index, ls[i].uri, ls[i].line).value.id == dst
  }

  /** The target is an export of the member at this column; where aliases agree, a proven one. */
  ghost predicate IsExported(p: Pass, line: u32, col: nat, m: Member, dst: nat)
    requires Ordered(p.env.index)
  {
    && (exists c :: IsCandidate(p, line, col, m, c) && c.id == dst)
    && (Agreed(p) ==> ExportsId(p, line, col, m, dst))
  }

  ghost predicate IsCandidate(p: Pass, line: u32, col: nat, m: Member, c: EntityRef)
    requires Ordered(p.env.index)
  {
    var modules := Locations(p.env, TypeDefinition, p.uri, line, col);
    modules.Ok? && c in Candidates(p.env, modules.value, m.name)
  }

  /** The relation was asked for at reported column `col`: its own for a definition, the receiver's for a
      member, whose column it then records. */
  ghost predicate Evident(p: Pass, text: string, line: u32, col: nat, r: Relation)
    requires Ordered(p.env.index)
  {
    match r.rule
    case LspDefinition => !OnModule(p, text, line, col) && r.col == col && Answers(p, line, col, r.dst)
    case LspMemberOnModule =>
      OnModule(p, text, line, col) &&
      var m := MemberAt(p.classes, text, col).value;
      r.col == m.column && IsExported(p, line, col, m, r.dst)
  }

  ghost predicate EvidentOnLine(p: Pass, text: string, line: u32, r: Relation)
    requires Ordered(p.env.index)
  {
    && r.line == line
    && FindAt(p.env.index, p.uri, line).Some? && FindAt(p.env.index, p.uri, line).value.id == r.src && r.src != r.dst
    && exists col :: col in Positions(p.classes, text) && Evident(p, text, line, col, r)
  }

  ghost predicate EvidentIn(p: Pass, lines: seq<string>, r: Relation)
    requires Ordered(p.env.index)
  {
    exists i :: 0 <= i < |lines| && EvidentOnLine(p, lines[i], LineNumber(i), r)
  }

  /** New relations of a push: from the source, at the position, by the rule. */
  ghost predicate FromHere(source: EntityRef, line: u32, col: nat, rule: Rule, r: Relation)
  {
    r == Relation(source.id, r.dst, rule, line, col) && r.dst != source.id
  }

  lemma {:induction false} MembersCome(t: Tally, source: EntityRef, cs: seq<EntityRef>, line: u32, col: nat, r: Relation)
    requires r in PushMembers(t, Some(source), cs, line, col).relations
    ensures r in t.relations || (FromHere(source, line, col, LspMemberOnModule, r) && HasId(cs, r.dst))
    decreases |cs|
  {
    if cs != [] {
      var more := PushMember(t, Some(source), cs[0], line, col);
      MembersCome(more, source, cs[1..], line, col, r);
      if r !in t.relations && r in more.relations {
        assert cs[0].id == r.dst;
      } else if r !in t.relations {
        var i :| 0 <= i < |cs[1..]| && cs[1..][i].id == r.dst;
        assert cs[i + 1].id == r.dst;
      }
    }
  }

  lemma {:induction false} DefinitionsCome(p: Pass, t: Tally, source: EntityRef, ls: seq<Location>, line: u32,
                                           col: nat, r: Relation)
    requires Ordered(p.env.index) && r in PushDefinitions(p, t, Some(source), ls, line, col).relations
    ensures r in t.relations || (FromHere(source, line, col, LspDefinition, r) && LandsOn(p, ls, r.dst))
    decreases |ls|
  {
    hide FindAt, Within;
    if ls != [] {
      var more := PushDefinition(p, t, Some(source), ls[0], line, col);
      DefinitionsCome(p, more, source, ls[1..], line, col, r);
      if r !in t.relations && r !in more.relations {
        var rest := ls[1..];
        var i :| 0 <= i < |rest| && FindAt(p.env.index, rest[i].uri, rest[i].line).Some?
          && FindAt(p.env.index, rest[i].uri, rest[i].line).value.id == r.dst;
        assert ls[i + 1] == rest[i];
      }
    }
  }

  lemma BoundIsExported(p: Pass, d: Docs, line: u32, col: nat, m: Member)
    requires Ordered(p.env.index) && FoundedFor(p, d) && Readable(p.classes, m.name)
    ensures var s := Bindings(p.env, d, p.path, p.uri, line, col, m.column, m.name);
      s.result.Ok? ==> forall id :: HasId(s.result.value, id) ==> IsExported(p, line, col, m, id)
  {
    hide Bindings, Candidates, Locations, FoundedFor, Agreed, Exports, Readable, Qualifies, Founded, AliasesAgree;
    var s := Bindings(p.env, d, p.path, p.uri, line, col, m.column, m.name);
    BindingsMeaning(p, d, line, col, m);
    if s.result.Ok? {
      JoinIsSoundAndComplete(p.env, d, p.path, p.uri, line, col, m.column, m.name);
      forall id | HasId(s.result.value, id) ensures IsExported(p, line, col, m, id)
      {
        var i :| 0 <= i < |s.result.value| && s.result.value[i].id == id;
        assert s.result.value[i] in s.result.value;
        assert IsCandidate(p, line, col, m, s.result.value[i]);
      }
    }
  }

  /** A column's new relations are evident at it. */
  lemma ColumnEvident(p: Pass, d: Docs, t: Tally, source: EntityRef, text: string, line: u32, col: nat, r: Relation)
    requires Ordered(p.env.index) && FoundedFor(p, d) && AtColumn(p, d, t, Some(source), text, line, col).result.Ok?
    requires r in AtColumn(p, d, t, Some(source), text, line, col).result.value.relations
    ensures r in t.relations || (r.src == source.id && r.dst != r.src && r.line == line && Evident(p, text, line, col, r))
  {
    hide Ask, Locations, Bindings, PushMembers, PushDefinitions, ReceiverNamesModule, InAnotherFile, MemberAt, IsExported,
         LandsOn, FoundedFor, Readable;
    AskAnswers(p.env, d, Definition, p.uri, line, col);
    var receiver := Ask(p.env, d, Definition, p.uri, line, col);
    AskAnswers(p.env, receiver.docs, Definition, p.uri, line, col);
    SameFounded(p, d, receiver.docs);
    var definitions := receiver.result.value;
    NamesModuleIff(definitions, p.path);
    var m := MemberAt(p.classes, text, col);
    if m.Some? && ReceiverNamesModule(definitions, p.path) {
      MemberIsReadable(p.classes, text, col);
      BoundIsExported(p, receiver.docs, line, col, m.value);
      var cs := Bindings(p.env, receiver.docs, p.path, p.uri, line, col, m.value.column, m.value.name).result.value;
      MembersCome(t, source, cs, line, m.value.column, r);
    } else {
      DefinitionsCome(p, t, source, definitions, line, col, r);
    }
  }

  lemma SameFounded(p: Pass, d: Docs, e: Docs)
    requires d.open == e.open
    ensures FoundedFor(p, d) == FoundedFor(p, e)
  {
  }

  lemma {:induction false} ColumnsEvident(p: Pass, d: Docs, t: Tally, source: EntityRef, text: string, line: u32,
                                          cols: seq<nat>, r: Relation)
    requires Ordered(p.env.index) && FoundedFor(p, d) && AtColumns(p, d, t, Some(source), text, line, cols).result.Ok?
    requires r in AtColumns(p, d, t, Some(source), text, line, cols).result.value.relations
    ensures r in t.relations
      || (r.src == source.id && r.dst != r.src && r.line == line
          && exists a :: 0 <= a < |cols| && Evident(p, text, line, cols[a], r))
    decreases |cols|
  {
    hide AtColumn, Evident, FoundedFor, LeavesFor, OwedAt, Agreed;
    if cols != [] {
      var b := AtColumn(p, d, t, Some(source), text, line, cols[0]);
      ColumnAdds(p, d, t, source, text, line, cols[0]);
      ColumnsEvident(p, b.docs, b.result.value, source, text, line, cols[1..], r);
      if r in b.result.value.relations {
        ColumnEvident(p, d, t, source, text, line, cols[0], r);
      } else {
        var a :| 0 <= a < |cols[1..]| && Evident(p, text, line, cols[1..][a], r);
        assert cols[a + 1] == cols[1..][a];
      }
    }
  }

  lemma LineEvident(p: Pass, d: Docs, t: Tally, text: string, line: u32, r: Relation)
    requires Ordered(p.env.index) && FoundedFor(p, d) && AtLine(p, true, d, t, text, line).result.Ok?
    requires r in AtLine(p, true, d, t, text, line).result.value.relations
    ensures r in t.relations || EvidentOnLine(p, text, line, r)
  {
    hide AtColumns, FindAt, Positions, Evident, FoundedFor;
    var cols := Positions(p.classes, text);
    match FindAt(p.env.index, p.uri, line) {
      case None =>
      case Some(source) =>
        ColumnsEvident(p, d, t.(queried := t.queried + |cols|), source, text, line, cols, r);
        if a :| 0 <= a < |cols| && Evident(p, text, line, cols[a], r) { assert cols[a] in cols; }
    }
  }

  lemma {:induction false} LinesEvident(p: Pass, d: Docs, t: Tally, lines: seq<string>, i: nat, r: Relation)
    requires Ordered(p.env.index) && FoundedFor(p, d) && i <= |lines| && AtLines(p, true, d, t, lines, i).result.Ok?
    requires r in AtLines(p, true, d, t, lines, i).result.value.relations
    ensures r in t.relations || EvidentIn(p, lines, r)
    decreases |lines| - i
  {
    hide AtLine, EvidentOnLine, FoundedFor, OwedOnLine, Agreed;
    if i < |lines| {
      var b := AtLine(p, true, d, t, lines[i], LineNumber(i));
      LineAdds(p, d, t, lines[i], LineNumber(i));
      LinesEvident(p, b.docs, b.result.value, lines, i + 1, r);
      if r in b.result.value.relations { LineEvident(p, d, t, lines[i], LineNumber(i), r); }
    }
  }

  /** Every relation of a successful pass carries its evidence: it leaves the innermost entity of the line
      it records; as a definition, the server's answer at that very column names its target; as a member,
      it records the member's column, the receiver names a module, and the target is an export of the
      member's name there - a proven one where files under one uri can be opened together or not at all. */
  lemma RelationsAreEvident(p: Pass, content: string)
    requires Ordered(p.env.index) && p.env.hasDefinition && SweepFile(p, true, content).result.Ok?
    ensures forall r :: r in SweepFile(p, true, content).result.value.relations ==> EvidentIn(p, Lines(content), r)
  {
    hide AtLines, EvidentIn;
    forall r | r in SweepFile(p, true, content).result.value.relations ensures EvidentIn(p, Lines(content), r)
    {
      LinesEvident(p, Docs({}, []), NOTHING, Lines(content), 0, r);
    }
  }

  // ---- requests -------------------------------------------------------------

  /** What a column costs where no module is joined: one request for an identifier, and for the receiver
      of a member expression the same request twice. */
  lemma ColumnIsAskedOnceOrTwice(p: Pass, d: Docs, t: Tally, source: Option<EntityRef>, text: string, line: u32, col: nat)
    requires Ordered(p.env.index) && p.env.hasDefinition && !OnModule(p, text, line, col)
    requires AtColumn(p, d, t, source, text, line, col).result.Ok?
    ensures var question := Asked(Definition, p.uri, line, col);
      AtColumn(p, d, t, source, text, line, col).docs
      == d.(log := d.log + if MemberAt(p.classes, text, col).Some? then [question, question] else [question])
  {
    hide PushDefinitions, ReceiverNamesModule, InAnotherFile, MemberAt;
    var receiver := Ask(p.env, d, Definition, p.uri, line, col);
    AskAnswers(p.env, d, Definition, p.uri, line, col);
    NamesModuleIff(receiver.result.value, p.path);
    var question := Asked(Definition, p.uri, line, col);
    assert d.log + [question] + [question] == d.log + [question, question];
  }

  // ---- order ----------------------------------------------------------------

  predicate NotAfter(a: Relation, b: Relation) { a.line < b.line || (a.line == b.line && a.col <= b.col) }

  /** Relations stand in the order of the positions they record. */
  ghost predicate InOrder(rs: seq<Relation>) { forall i, j :: 0 <= i < j < |rs| ==> NotAfter(rs[i], rs[j]) }

  ghost predicate Upto(rs: seq<Relation>, line: u32, col: nat)
  {
    forall i :: 0 <= i < |rs| ==> rs[i].line < line || (rs[i].line == line && rs[i].col <= col)
  }

  ghost predicate OnLines(rs: seq<Relation>, line: u32) { forall i :: 0 <= i < |rs| ==> rs[i].line <= line }

  ghost predicate Fits(t: Tally, line: u32, col: nat) { InOrder(t.relations) && Upto(t.relations, line, col) }

  lemma {:induction false} MembersFit(t: Tally, source: EntityRef, cs: seq<EntityRef>, line: u32, col: nat)
    requires Fits(t, line, col)
    ensures Fits(PushMembers(t, Some(source), cs, line, col), line, col)
    decreases |cs|
  {
    if cs != [] { MembersFit(PushMember(t, Some(source), cs[0], line, col), source, cs[1..], line, col); }
  }

  lemma {:induction false} DefinitionsFit(p: Pass, t: Tally, source: EntityRef, ls: seq<Location>, line: u32, col: nat)
    requires Ordered(p.env.index) && Fits(t, line, col)
    ensures Fits(PushDefinitions(p, t, Some(source), ls, line, col), line, col)
    decreases |ls|
  {
    hide FindAt, Within;
    if ls != [] { DefinitionsFit(p, PushDefinition(p, t, Some(source), ls[0], line, col), source, ls[1..], line, col); }
  }

  /** A column pushes at itself, or at its member's column. */
  lemma ColumnFits(p: Pass, d: Docs, t: Tally, source: EntityRef, text: string, line: u32, col: nat)
    requires Ordered(p.env.index) && Fits(t, line, col)
    ensures var s := AtColumn(p, d, t, Some(source), text, line, col);
      s.result.Ok? ==> Fits(s.result.value, line,
                            if MemberAt(p.classes, text, col).Some? then MemberAt(p.classes, text, col).value.column else col)
  {
    hide Ask, Bindings, PushMembers, PushDefinitions, ReceiverNamesModule, WordEnd, StartChar;
    forall ls ensures Fits(PushDefinitions(p, t, Some(source), ls, line, col), line, col)
    {
      DefinitionsFit(p, t, source, ls, line, col);
    }
    match MemberAt(p.classes, text, col) {
      case None =>
      case Some(m) =>
        forall cs ensures Fits(PushMembers(t, Some(source), cs, line, m.column), line, m.column)
        {
          MembersFit(t, source, cs, line, m.column);
        }
    }
  }

  lemma FitsLater(t: Tally, line: u32, col: nat, later: nat)
    requires Fits(t, line, col) && col <= later
    ensures Fits(t, line, later)
  {
  }

  lemma {:induction false} ColumnsFit(p: Pass, d: Docs, t: Tally, source: EntityRef, text: string, line: u32, a: nat)
    requires Ordered(p.env.index) && Sane(p.classes) && a <= |Positions(p.classes, text)|
    requires InOrder(t.relations) && OnLines(t.relations, line)
    requires a < |Positions(p.classes, text)| ==> Fits(t, line, Positions(p.classes, text)[a])
    ensures var s := AtColumns(p, d, t, Some(source), text, line, Positions(p.classes, text)[a..]);
      s.result.Ok? ==> InOrder(s.result.value.relations) && OnLines(s.result.value.relations, line)
    decreases |Positions(p.classes, text)| - a
  {
    hide AtColumn, Positions, MemberAt, InOrder;
    var all := Positions(p.classes, text);
    if a < |all| {
      var col := all[a];
      assert all[a..][0] == col && all[a..][1..] == all[a + 1..];
      ColumnFits(p, d, t, source, text, line, col);
      var b := AtColumn(p, d, t, Some(source), text, line, col);
      if b.result.Ok? {
        if a + 1 < |all| {
          NextIsNotBefore(p.classes, text, a);
          FitsLater(b.result.value, line, if MemberAt(p.classes, text, col).Some? then MemberAt(p.classes, text,
                    col).value.column else col,
                    all[a + 1]);
        }
        ColumnsFit(p, b.docs, b.result.value, source, text, line, a + 1);
      }
    }
  }

  /** The next reported column is at or behind this one's member. */
  lemma NextIsNotBefore(k: Classes, text: string, a: nat)
    requires Sane(k) && a + 1 < |Positions(k, text)|
    ensures var all := Positions(k, text);
      && all[a] < all[a + 1]
      && (MemberAt(k, text, all[a]).Some? ==> MemberAt(k, text, all[a]).value.column <= all[a + 1])
  {
    hide Positions, MemberAt, Reported, Commented, MaximalWord;
    var all := Positions(k, text);
    ScannerIsExact(k, text);
    assert all[a] in all && all[a + 1] in all;
    if MemberAt(k, text, all[a]).Some? { ScannerAndReaderAgree(k, text, all[a]); }
  }

  lemma {:induction false} LinesFit(p: Pass, d: Docs, t: Tally, lines: seq<string>, i: nat)
    requires Ordered(p.env.index) && Sane(p.classes) && i <= |lines| <= 0x1_0000_0000
    requires InOrder(t.relations) && (i < |lines| ==> forall k :: 0 <= k < |t.relations| ==> t.relations[k].line < i)
    ensures var s := AtLines(p, true, d, t, lines, i); s.result.Ok? ==> InOrder(s.result.value.relations)
    decreases |lines| - i
  {
    hide AtColumns, FindAt, Positions, InOrder;
    if i < |lines| {
      var cols := Positions(p.classes, lines[i]);
      var counted := t.(queried := t.queried + |cols|);
      assert LineNumber(i) == i && cols[0..] == cols;
      match FindAt(p.env.index, p.uri, LineNumber(i)) {
        case None =>
        case Some(source) => ColumnsFit(p, d, counted, source, lines[i], LineNumber(i), 0);
      }
      var b := AtLine(p, true, d, t, lines[i], LineNumber(i));
      if b.result.Ok? { LinesFit(p, b.docs, b.result.value, lines, i + 1); }
    }
  }

  /** The relations of a successful pass stand in the order of the lines and columns they record, as long
      as line numbers do not wrap around. */
  lemma RelationsAreInOrder(p: Pass, content: string)
    requires Ordered(p.env.index) && Sane(p.classes) && |Lines(content)| <= 0x1_0000_0000
    requires SweepFile(p, true, content).result.Ok?
    ensures InOrder(SweepFile(p, true, content).result.value.relations)
  {
    hide AtLines;
    LinesFit(p, Docs({}, []), NOTHING, Lines(content), 0);
  }
}
