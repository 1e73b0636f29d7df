/** What a pass finds, said without its loops: the edges that the server's answers owe the file. */
module SweepMeaning {
  import opened Wrappers
  import opened EntityIndex
  import opened Scanner
  import opened Join
  import opened JoinTheorems
  import opened Sweep
  import opened SweepTheorems

  // ---- what is owed ---------------------------------------------------------

  /** The path occurs in the uri. */
  ghost predicate Occurs(path: string, uri: string) { exists a, b :: uri == a + path + b }

  lemma WithinIff(uri: string, path: string)
    ensures Within(uri, path) <==> Occurs(path, uri)
  {
    if i :| 0 <= i <= |uri| && path <= uri[i..] {
      assert uri == uri[..i] + path + uri[i..][|path|..];
    }
    if a, b :| uri == a + path + b {
      assert uri[|a|..] == path + b;
      assert 0 <= |a| <= |uri| && path <= uri[|a|..];
    }
  }

  ghost function DefinitionTag(p: Pass, at: Location): Tag { if Occurs(p.path, at.uri) then SameFile else CrossFile }

  /** This location, as a definition of something in the source's span, is the edge. */
  ghost predicate Meets(p: Pass, at: Location, e: Edge)
    requires Ordered(p.env.index)
  {
    var target := FindAt(p.env.index, at.uri, at.line);
    target.Some? && target.value.id == e.dst && DefinitionTag(p, at) == e.tag
  }

  ghost predicate AnyMeets(p: Pass, ls: seq<Location>, e: Edge)
    requires Ordered(p.env.index)
  {
    exists i :: 0 <= i < |ls| && Meets(p, ls[i], e)
  }

  ghost predicate OwedDefinition(p: Pass, line: u32, col: nat, e: Edge)
    requires Ordered(p.env.index)
  {
    var ls := Locations(p.env, Definition, p.uri, line, col);
    ls.Ok? && AnyMeets(p, ls.value, e)
  }

  /** The export is one the join proves for this member. */
  ghost predicate Exports(p: Pass, line: u32, col: nat, m: Member, c: EntityRef)
    requires Ordered(p.env.index)
  {
    var modules := Locations(p.env, TypeDefinition, p.uri, line, col);
    var member := Locations(p.env, Definition, p.uri, line, m.column);
    && modules.Ok? && member.Ok?
    && c in Candidates(p.env, modules.value, m.name) && Qualifies(p.env, p.path, member.value, c)
  }

  ghost predicate OwedMember(p: Pass, line: u32, col: nat, m: Member, e: Edge)
    requires Ordered(p.env.index)
  {
    e.tag == MemberOnModule && exists c :: Exports(p, line, col, m, c) && c.id == e.dst
  }

  /** The uri is that of a path which is no suffix of the enriched one, nor the other way round. */
  ghost predicate LiesApart(uri: string, path: string, enriched: string)
  {
    uri == "file://" + path && (forall a :: path != a + enriched) && (forall a :: enriched != a + path)
  }

  /** Some definition lies in another file. */
  ghost predicate InAnotherFile(definitions: seq<Location>, enriched: string)
  {
    exists i, path :: 0 <= i < |definitions| && LiesApart(definitions[i].uri, path, enriched)
  }

  lemma SuffixIff(s: string, t: string)
    ensures EndsWith(s, t) <==> exists a :: s == a + t
  {
    if EndsWith(s, t) { assert s == s[..|s| - |t|] + t; }
    if a :| s == a + t { assert s[|a|..] == t; }
  }

  lemma NamesModuleIff(definitions: seq<Location>, enriched: string)
    ensures ReceiverNamesModule(definitions, enriched) <==> InAnotherFile(definitions, enriched)
  {
    hide EndsWith;
    if i :| 0 <= i < |definitions| && UriToPath(definitions[i].uri).Some? && !Matches(UriToPath(definitions[i].uri).value, enriched) {
      var path := UriToPath(definitions[i].uri).value;
      SuffixIff(path, enriched);
      SuffixIff(enriched, path);
      assert LiesApart(definitions[i].uri, path, enriched);
    }
    if i, path :| 0 <= i < |definitions| && LiesApart(definitions[i].uri, path, enriched) {
      SuffixIff(path, enriched);
      SuffixIff(enriched, path);
      assert ("file://" + path)[|SCHEME|..] == path;
      assert UriToPath(definitions[i].uri) == Some(path);
    }
  }

  /** The receiver of the member expression at this column names a module. */
  ghost predicate OnModule(p: Pass, text: string, line: u32, col: nat)
  {
    var receiver := Locations(p.env, Definition, p.uri, line, col);
    MemberAt(p.classes, text, col).Some? && receiver.Ok? && InAnotherFile(receiver.value, p.path)
  }

  ghost predicate OwedAt(p: Pass, text: string, line: u32, col: nat, e: Edge)
    requires Ordered(p.env.index)
  {
    if OnModule(p, text, line, col) then OwedMember(p, line, col, MemberAt(p.classes, text, col).value, e)
    else OwedDefinition(p, line, col, e)
  }

  /** The edge leaves the entity that holds the line, for something else that a reported column of
      the line names. */
  ghost predicate OwedOnLine(p: Pass, text: string, line: u32, e: Edge)
    requires Ordered(p.env.index)
  {
    var source := FindAt(p.env.index, p.uri, line);
    source.Some? && LeavesFor(source.value, e) && OwedInColumns(p, text, line, Positions(p.classes, text), e)
  }

  predicate LeavesFor(source: EntityRef, e: Edge) { e.src == source.id && e.dst != e.src }

  ghost predicate OwedInColumns(p: Pass, text: string, line: u32, cols: seq<nat>, e: Edge)
    requires Ordered(p.env.index)
  {
    exists a :: 0 <= a < |cols| && OwedAt(p, text, line, cols[a], e)
  }

  ghost predicate OwedFrom(p: Pass, lines: seq<string>, i: nat, e: Edge)
    requires Ordered(p.env.index)
  {
    exists j :: i <= j < |lines| && OwedOnLine(p, lines[j], LineNumber(j), e)
  }

  // ---- what is pushed -------------------------------------------------------

  lemma {:induction false} MembersSeen(t: Tally, source: EntityRef, cs: seq<EntityRef>, line: u32, col: nat, e: Edge)
    ensures e in PushMembers(t, Some(source), cs, line, col).seen <==>
      e in t.seen || (e.tag == MemberOnModule && LeavesFor(source, e) && HasId(cs, e.dst))
    decreases |cs|
  {
    if cs != [] {
      MembersSeen(PushMember(t, Some(source), cs[0], line, col), source, cs[1..], line, col, e);
      var rest := cs[1..];
      if i :| 0 <= i < |cs| && cs[i].id == e.dst {
        assert i > 0 ==> rest[i - 1].id == e.dst;
      }
      if i :| 0 <= i < |rest| && rest[i].id == e.dst {
        assert cs[i + 1].id == e.dst;
      }
    }
  }

  lemma AnyMeetsCons(p: Pass, ls: seq<Location>, e: Edge)
    requires Ordered(p.env.index) && ls != []
    ensures AnyMeets(p, ls, e) <==> Meets(p, ls[0], e) || AnyMeets(p, ls[1..], e)
  {
    hide Meets;
    var rest := ls[1..];
    if i :| 0 <= i < |ls| && Meets(p, ls[i], e) {
      assert i > 0 ==> Meets(p, rest[i - 1], e);
    }
    if i :| 0 <= i < |rest| && Meets(p, rest[i], e) {
      assert Meets(p, ls[i + 1], e);
    }
  }

  lemma {:induction false} DefinitionsSeen(p: Pass, t: Tally, source: EntityRef, ls: seq<Location>, line: u32,
                                           col: nat, e: Edge)
    requires Ordered(p.env.index)
    ensures e in PushDefinitions(p, t, Some(source), ls, line, col).seen <==>
      e in t.seen || (LeavesFor(source, e) && AnyMeets(p, ls, e))
    decreases |ls|
  {
    hide AnyMeets, FindAt, Within, Occurs;
    if ls == [] {
      NoneMeets(p, e);
    } else {
      WithinIff(ls[0].uri, p.path);
      AnyMeetsCons(p, ls, e);
      DefinitionsSeen(p, PushDefinition(p, t, Some(source), ls[0], line, col), source, ls[1..], line, col, e);
    }
  }

  lemma NoneMeets(p: Pass, e: Edge)
    requires Ordered(p.env.index)
    ensures !AnyMeets(p, [], e)
  {
  }

  lemma AskAnswers(env: Env, d: Docs, m: Method, uri: string, line: u32, col: nat)
    ensures var s := Ask(env, d, m, uri, line, col);
      s.result == Locations(env, m, uri, line, col) && s.docs.open == d.open
  {
    hide FileUri;
  }

  /** Of the files within reach under one uri, all can be opened or none. */
  ghost predicate Agreed(p: Pass) { AliasesAgree(p.env, Reach(p)) }

  ghost predicate FoundedFor(p: Pass, d: Docs) { Founded(p.env, Reach(p), d.open) }

  ghost predicate ExportsId(p: Pass, line: u32, col: nat, m: Member, id: nat)
    requires Ordered(p.env.index)
  {
    exists c :: Exports(p, line, col, m, c) && c.id == id
  }

  /** The join's answer carries the id of every export it can prove; and where aliases agree, no
      other. */
  lemma BindingsMeaning(p: Pass, d: Docs, line: u32, col: nat, m: Member)
    requires Ordered(p.env.index) && FoundedFor(p, d) && Readable(p.classes, m.name)
    ensures var s := Bindings(p.env, d, p.path, p.uri, line, col, m.column, m.name);
      s.result.Ok? ==>
        && FoundedFor(p, s.docs)
        && (forall id :: ExportsId(p, line, col, m, id) ==> HasId(s.result.value, id))
        && (Agreed(p) ==> forall id :: HasId(s.result.value, id) ==> ExportsId(p, line, col, m, id))
  {
    hide Candidates, Qualifies, JoinAll, Reachable, Readable, Founded, AliasesAgree;
    var env := p.env;
    var modules := Ask(env, d, TypeDefinition, p.uri, line, col);
    var member := Ask(env, modules.docs, Definition, p.uri, line, m.column);
    AskAnswers(env, d, TypeDefinition, p.uri, line, col);
    AskAnswers(env, modules.docs, Definition, p.uri, line, m.column);
    var s := Bindings(env, d, p.path, p.uri, line, col, m.column, m.name);
    if s.result.Ok? {
      var candidates := Candidates(env, modules.result.value, m.name);
      CandidatesReachable(p, modules.result.value, m.name);
      forall c | Reachable(p, c) ensures c.filePath in Reach(p) {}
      JoinAllComplete(env, member.docs, p.path, member.result.value, candidates, []);
      JoinAllSound(env, Reach(p), member.docs, p.path, member.result.value, candidates, []);
      hide Ask, Locations;
      BoundIds(p, line, col, m, s.result.value);
    }
  }

  lemma BoundIds(p: Pass, line: u32, col: nat, m: Member, r: seq<EntityRef>)
    requires Ordered(p.env.index)
    requires forall c :: Exports(p, line, col, m, c) ==> HasId(r, c.id)
    ensures forall id :: ExportsId(p, line, col, m, id) ==> HasId(r, id)
    ensures (forall c :: c in r ==> Exports(p, line, col, m, c)) ==>
      forall id :: HasId(r, id) ==> ExportsId(p, line, col, m, id)
  {
    hide Exports;
    if forall c :: c in r ==> Exports(p, line, col, m, c) {
      forall id | HasId(r, id) ensures ExportsId(p, line, col, m, id)
      {
        var i :| 0 <= i < |r| && r[i].id == id;
        assert r[i] in r;
      }
    }
  }

  lemma IdentifierAdds(p: Pass, d: Docs, t: Tally, source: EntityRef, line: u32, col: nat)
    requires Ordered(p.env.index) && FoundedFor(p, d)
    ensures var s := AtIdentifier(p, d, t, Some(source), line, col); s.result.Ok? ==>
      && FoundedFor(p, s.docs)
      && forall e :: e in s.result.value.seen <==> e in t.seen || (LeavesFor(source, e) && OwedDefinition(p, line, col, e))
  {
    hide Ask, Locations, Founded, AnyMeets, LeavesFor, PushDefinitions;
    AskAnswers(p.env, d, Definition, p.uri, line, col);
    var ls := Locations(p.env, Definition, p.uri, line, col);
    if ls.Ok? {
      forall e
        ensures e in PushDefinitions(p, t, Some(source), ls.value, line, col).seen <==>
          e in t.seen || (LeavesFor(source, e) && AnyMeets(p, ls.value, e))
      {
        DefinitionsSeen(p, t, source, ls.value, line, col, e);
      }
    }
  }

  lemma ModuleAdds(p: Pass, d: Docs, t: Tally, source: EntityRef, m: Member, line: u32, col: nat)
    requires Ordered(p.env.index) && FoundedFor(p, d) && Readable(p.classes, m.name)
    ensures var s := AtModule(p, d, t, Some(source), m, line, col); s.result.Ok? ==>
      && FoundedFor(p, s.docs)
      && (forall e :: e in t.seen || (LeavesFor(source, e) && OwedMember(p, line, col, m, e)) ==> e in s.result.value.seen)
      && (Agreed(p) ==> forall e :: e in s.result.value.seen ==>
            e in t.seen || (LeavesFor(source, e) && OwedMember(p, line, col, m, e)))
  {
    hide Bindings, FoundedFor, Agreed, Exports, LeavesFor, PushMembers, HasId, Readable;
    BindingsMeaning(p, d, line, col, m);
    var b := Bindings(p.env, d, p.path, p.uri, line, col, m.column, m.name);
    if b.result.Ok? {
      forall e
        ensures e in PushMembers(t, Some(source), b.result.value, line, m.column).seen <==>
          e in t.seen || (e.tag == MemberOnModule && LeavesFor(source, e) && HasId(b.result.value, e.dst))
        ensures OwedMember(p, line, col, m, e) <==> e.tag == MemberOnModule && ExportsId(p, line, col, m, e.dst)
      {
        MembersSeen(t, source, b.result.value, line, m.column, e);
      }
    }
  }

  lemma ColumnAdds(p: Pass, d: Docs, t: Tally, source: EntityRef, text: string, line: u32, col: nat)
    requires Ordered(p.env.index) && FoundedFor(p, d)
    ensures var s := AtColumn(p, d, t, Some(source), text, line, col); s.result.Ok? ==>
      && FoundedFor(p, s.docs)
      && (forall e :: e in t.seen || (LeavesFor(source, e) && OwedAt(p, text, line, col, e)) ==> e in s.result.value.seen)
      && (Agreed(p) ==> forall e :: e in s.result.value.seen ==>
            e in t.seen || (LeavesFor(source, e) && OwedAt(p, text, line, col, e)))
  {
    hide Ask, Locations, Founded, Agreed, OwedDefinition, OwedMember, LeavesFor, AtIdentifier, AtModule, MemberAt,
         ReceiverNamesModule, InAnotherFile, Readable;
    AskAnswers(p.env, d, Definition, p.uri, line, col);
    forall definitions ensures ReceiverNamesModule(definitions, p.path) <==> InAnotherFile(definitions, p.path)
    {
      NamesModuleIff(definitions, p.path);
    }
    var receiver := Ask(p.env, d, Definition, p.uri, line, col);
    match MemberAt(p.classes, text, col) {
      case None => IdentifierAdds(p, d, t, source, line, col);
      case Some(m) =>
        MemberIsReadable(p.classes, text, col);
        IdentifierAdds(p, receiver.docs, t, source, line, col);
        ModuleAdds(p, receiver.docs, t, source, m, line, col);
    }
  }

  lemma OwedCons(p: Pass, text: string, line: u32, cols: seq<nat>, e: Edge)
    requires Ordered(p.env.index) && cols != []
    ensures OwedInColumns(p, text, line, cols, e) <==>
      OwedAt(p, text, line, cols[0], e) || OwedInColumns(p, text, line, cols[1..], e)
  {
    hide OwedAt;
    var rest := cols[1..];
    if a :| 0 <= a < |cols| && OwedAt(p, text, line, cols[a], e) {
      assert a > 0 ==> OwedAt(p, text, line, rest[a - 1], e);
    }
    if a :| 0 <= a < |rest| && OwedAt(p, text, line, rest[a], e) {
      assert OwedAt(p, text, line, cols[a + 1], e);
    }
  }

  lemma {:induction false} ColumnsAdd(p: Pass, d: Docs, t: Tally, source: EntityRef, text: string, line: u32, cols: seq<nat>)
    requires Ordered(p.env.index) && FoundedFor(p, d)
    ensures var s := AtColumns(p, d, t, Some(source), text, line, cols); s.result.Ok? ==>
      && FoundedFor(p, s.docs)
      && (forall e :: e in t.seen || (LeavesFor(source, e) && OwedInColumns(p, text, line, cols, e)) ==>
            e in s.result.value.seen)
      && (Agreed(p) ==> forall e :: e in s.result.value.seen ==>
            e in t.seen || (LeavesFor(source, e) && OwedInColumns(p, text, line, cols, e)))
    decreases |cols|
  {
    hide FoundedFor, Agreed, OwedAt, LeavesFor, AtColumn, OwedInColumns;
    if cols == [] {
      NoneOwed(p, text, line);
    } else {
      forall e
        ensures OwedInColumns(p, text, line, cols, e) <==>
          OwedAt(p, text, line, cols[0], e) || OwedInColumns(p, text, line, cols[1..], e)
      {
        OwedCons(p, text, line, cols, e);
      }
      ColumnAdds(p, d, t, source, text, line, cols[0]);
      var s := AtColumn(p, d, t, Some(source), text, line, cols[0]);
      if s.result.Ok? { ColumnsAdd(p, s.docs, s.result.value, source, text, line, cols[1..]); }
    }
  }

  lemma NoneOwed(p: Pass, text: string, line: u32)
    requires Ordered(p.env.index)
    ensures forall e :: !OwedInColumns(p, text, line, [], e)
  {
  }

  lemma LineAdds(p: Pass, d: Docs, t: Tally, text: string, line: u32)
    requires Ordered(p.env.index) && FoundedFor(p, d)
    ensures var s := AtLine(p, true, d, t, text, line); s.result.Ok? ==>
      && FoundedFor(p, s.docs)
      && (forall e :: e in t.seen || OwedOnLine(p, text, line, e) ==> e in s.result.value.seen)
      && (Agreed(p) ==> forall e :: e in s.result.value.seen ==> e in t.seen || OwedOnLine(p, text, line, e))
  {
    hide FoundedFor, Agreed, LeavesFor, AtColumns, OwedInColumns, Positions, FindAt;
    var cols := Positions(p.classes, text);
    var counted := t.(queried := t.queried + |cols|);
    match FindAt(p.env.index, p.uri, line) {
      case None =>
      case Some(source) => ColumnsAdd(p, d, counted, source, text, line, cols);
    }
  }

  lemma OwedFromCons(p: Pass, lines: seq<string>, i: nat, e: Edge)
    requires Ordered(p.env.index) && i < |lines|
    ensures OwedFrom(p, lines, i, e) <==> OwedOnLine(p, lines[i], LineNumber(i), e) || OwedFrom(p, lines, i + 1, e)
  {
  }

  lemma {:induction false} LinesAdd(p: Pass, d: Docs, t: Tally, lines: seq<string>, i: nat)
    requires Ordered(p.env.index) && FoundedFor(p, d) && i <= |lines|
    ensures var s := AtLines(p, true, d, t, lines, i); s.result.Ok? ==>
      && (forall e :: e in t.seen || OwedFrom(p, lines, i, e) ==> e in s.result.value.seen)
      && (Agreed(p) ==> forall e :: e in s.result.value.seen ==> e in t.seen || OwedFrom(p, lines, i, e))
    decreases |lines| - i
  {
    hide FoundedFor, Agreed, OwedOnLine, AtLine;
    if i < |lines| {
      forall e
        ensures OwedFrom(p, lines, i, e) <==> OwedOnLine(p, lines[i], LineNumber(i), e) || OwedFrom(p, lines, i + 1, e)
      {
        OwedFromCons(p, lines, i, e);
      }
      hide OwedFrom;
      LineAdds(p, d, t, lines[i], LineNumber(i));
      var s := AtLine(p, true, d, t, lines[i], LineNumber(i));
      if s.result.Ok? { LinesAdd(p, s.docs, s.result.value, lines, i + 1); }
    }
  }

  /** A successful pass has seen every edge that the server's answers owe the file, whatever was
      opened on the way and in whatever order; and where aliases agree, no other. */
  lemma SeenIsWhatIsOwed(p: Pass, content: string)
    requires Ordered(p.env.index) && p.env.hasDefinition && SweepFile(p, true, content).result.Ok?
    ensures var seen := SweepFile(p, true, content).result.value.seen;
      && (forall e :: OwedFrom(p, Lines(content), 0, e) ==> e in seen)
      && (Agreed(p) ==> forall e :: e in seen ==> OwedFrom(p, Lines(content), 0, e))
  {
    hide AtLines, OwedFrom, Agreed;
    LinesAdd(p, Docs({}, []), NOTHING, Lines(content), 0);
  }

  // ---- the counter ----------------------------------------------------------

  lemma {:induction false} MembersUncounted(t: Tally, source: Option<EntityRef>, cs: seq<EntityRef>, line: u32, col: nat)
    ensures PushMembers(t, source, cs, line, col).queried == t.queried
    decreases |cs|
  {
    if cs != [] { MembersUncounted(PushMember(t, source, cs[0], line, col), source, cs[1..], line, col); }
  }

  lemma {:induction false} DefinitionsUncounted(p: Pass, t: Tally, source: Option<EntityRef>,
                                                ls: seq<Location>, line: u32, col: nat)
    requires Ordered(p.env.index)
    ensures PushDefinitions(p, t, source, ls, line, col).queried == t.queried
    decreases |ls|
  {
    hide FindAt, Within;
    if ls != [] { DefinitionsUncounted(p, PushDefinition(p, t, source, ls[0], line, col), source, ls[1..], line, col); }
  }

  lemma ColumnUncounted(p: Pass, d: Docs, t: Tally, source: Option<EntityRef>, text: string, line: u32, col: nat)
    requires Ordered(p.env.index)
    ensures var s := AtColumn(p, d, t, source, text, line, col); s.result.Ok? ==> s.result.value.queried == t.queried
  {
    hide Ask, Bindings, PushMembers, PushDefinitions, MemberAt, ReceiverNamesModule;
    forall ls ensures PushDefinitions(p, t, source, ls, line, col).queried == t.queried
    {
      DefinitionsUncounted(p, t, source, ls, line, col);
    }
    forall cs, at ensures PushMembers(t, source, cs, line, at).queried == t.queried
    {
      MembersUncounted(t, source, cs, line, at);
    }
  }

  lemma {:induction false} ColumnsUncounted(p: Pass, d: Docs, t: Tally, source: Option<EntityRef>,
                                            text: string, line: u32, cols: seq<nat>)
    requires Ordered(p.env.index)
    ensures var s := AtColumns(p, d, t, source, text, line, cols); s.result.Ok? ==> s.result.value.queried == t.queried
    decreases |cols|
  {
    hide AtColumn;
    if cols != [] {
      ColumnUncounted(p, d, t, source, text, line, cols[0]);
      var s := AtColumn(p, d, t, source, text, line, cols[0]);
      if s.result.Ok? { ColumnsUncounted(p, s.docs, s.result.value, source, text, line, cols[1..]); }
    }
  }

  /** Identifiers on the lines from `i` on. */
  function Identifiers(k: Classes, lines: seq<string>, i: nat): nat
    requires i <= |lines|
    decreases |lines| - i
  {
    if i == |lines| then 0 else |Positions(k, lines[i])| + Identifiers(k, lines, i + 1)
  }

  lemma {:induction false} LinesCount(p: Pass, gated: bool, d: Docs, t: Tally, lines: seq<string>, i: nat)
    requires Ordered(p.env.index) && i <= |lines|
    ensures var s := AtLines(p, gated, d, t, lines, i);
      s.result.Ok? ==> s.result.value.queried == t.queried + Identifiers(p.classes, lines, i)
    decreases |lines| - i
  {
    hide AtColumns, FindAt, Positions;
    if i < |lines| {
      var cols := Positions(p.classes, lines[i]);
      var source := FindAt(p.env.index, p.uri, LineNumber(i));
      ColumnsUncounted(p, d, t.(queried := t.queried + |cols|), source, lines[i], LineNumber(i), cols);
      var s := AtLine(p, gated, d, t, lines[i], LineNumber(i));
      if s.result.Ok? { LinesCount(p, gated, s.docs, s.result.value, lines, i + 1); }
    }
  }

  /** `positions_queried` counts every identifier of the file, those on gated lines, which are never
      queried, included. */
  lemma QueriedCountsIdentifiers(p: Pass, gated: bool, content: string)
    requires Ordered(p.env.index) && p.env.hasDefinition && SweepFile(p, gated, content).result.Ok?
    ensures SweepFile(p, gated, content).result.value.queried == Identifiers(p.classes, Lines(content), 0)
  {
    hide AtLines;
    LinesCount(p, gated, Docs({}, []), NOTHING, Lines(content), 0);
  }

  lemma {:induction false} NoSourceNoTraffic(p: Pass, d: Docs, t: Tally, lines: seq<string>, i: nat)
    requires Ordered(p.env.index) && i <= |lines|
    requires forall line :: FindAt(p.env.index, p.uri, line).None?
    ensures var s := AtLines(p, true, d, t, lines, i);
      s.result.Ok? && s.docs == d && s.result.value.relations == t.relations
    decreases |lines| - i
  {
    hide AtColumns, FindAt, Positions;
    if i < |lines| {
      NoSourceNoTraffic(p, d, t.(queried := t.queried + |Positions(p.classes, lines[i])|), lines, i + 1);
    }
  }

  /** A file none of whose lines lies in an entity is passed over in silence, even if every request
      would fail: the gate can succeed where the ungated form does not. */
  lemma UnownedFileIsSilent(p: Pass, content: string)
    requires Ordered(p.env.index) && forall line :: FindAt(p.env.index, p.uri, line).None?
    ensures var s := SweepFile(p, true, content); s.result.Ok? && s.docs.log == [] && s.result.value.relations == []
  {
    hide AtLines, FindAt;
    NoSourceNoTraffic(p, Docs({}, []), NOTHING, Lines(content), 0);
  }
}
