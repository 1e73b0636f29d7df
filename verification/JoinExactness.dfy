/** Where the join's promises end: the files and providers for which some server breaks them, over
    calls that a scope really makes on an index's own entities. */
module JoinExactness {
  import opened Wrappers
  import opened StableSort
  import opened EntityIndex
  import opened Join
  import opened JoinTheorems

  /** Every bucket holds entities of its own file, as a built index's do. */
  ghost predicate Filed(ix: Index)
  {
    && Ordered(ix)
    && forall k, e :: k in ix.byFile && e in ix.byFile[k] ==> e.filePath == k
  }

  lemma BuiltIsFiled(ix: Index, entities: seq<EntityRef>)
    requires Built(ix, entities)
    ensures Filed(ix)
  {
    forall k, e | k in ix.byFile && e in ix.byFile[k] ensures e.filePath == k
    {
      SortKeeps(Bucket(entities, k), ByStart());
    }
  }

  /** The same index, root, capabilities, provider and client, with perhaps another server. */
  ghost predicate SameButServer(env: Env, other: Env) { other == env.(answer := other.answer) }

  lemma SameFiles(env: Env, other: Env)
    requires SameButServer(env, other)
    ensures forall f :: Indexed(env, f) == Indexed(other, f) && FileUri(env, f) == FileUri(other, f)
    ensures forall f :: Openable(env, f) == Openable(other, f)
    ensures forall f, u :: Opens(env, f, u) == Opens(other, f, u)
    ensures forall files :: AliasesAgree(env, files) == AliasesAgree(other, files)
    ensures forall f :: Others(env, f) == Others(other, f)
  {
    hide HasLanguage;
    forall files ensures AliasesAgree(env, files) == AliasesAgree(other, files)
    {
    }
  }

  // ---- a server that says yes -----------------------------------------------

  const PLACE := Location("", 0)

  /** Every definition is `at` one place; the module of a receiver on a line is the file `pick` names. */
  function Helpful(env: Env, pick: u32 -> string, at: Location): Env
  {
    env.(answer := (m: Method, uri: string, line: u32, col: nat) =>
           if m == TypeDefinition then Ok([Location(PathToUri(pick(line)), 0)]) else Ok([at]))
  }

  function OfName(env: Env, file: string, name: string): seq<EntityRef>
    requires file in env.index.byFile
  {
    Filter(env.index.byFile[file], Named(name))
  }

  lemma HelpfulCandidates(env: Env, file: string, name: string)
    requires Ordered(env.index) && file in env.index.byFile
    ensures Candidates(env, [Location(PathToUri(file), 0)], name) == OfName(env, file, name)
  {
    var module' := Location(PathToUri(file), 0);
    assert UriToPath(module'.uri) == Some(file);
    assert ModuleEntities(env, module') == env.index.byFile[file];
    assert [module'][1..] == [];
    assert Candidates(env, [], name) == [];
  }

  /** The scope after a call's two questions. */
  function AfterQuestions(env: Env, d: Docs, uri: string, line: u32, receiverCol: nat, memberCol: nat): (docs: Docs)
    ensures docs.open == d.open && d.log <= docs.log
  {
    Ask(env, Ask(env, d, TypeDefinition, uri, line, receiverCol).docs, Definition, uri, line, memberCol).docs
  }

  /** Under this server the join examines the entities of that name in the file picked. */
  lemma HelpfulBindings(env: Env, pick: u32 -> string, at: Location, d: Docs, enriched: string, uri: string, line: u32,
                        receiverCol: nat, memberCol: nat, name: string)
    requires Ordered(env.index) && pick(line) in env.index.byFile && env.hasTypeDefinition
    ensures var other := Helpful(env, pick, at);
      Bindings(other, d, enriched, uri, line, receiverCol, memberCol, name)
      == JoinAll(other, AfterQuestions(other, d, uri, line, receiverCol, memberCol), enriched,
                 if env.hasDefinition then [at] else [], OfName(env, pick(line), name), [])
  {
    hide Candidates, JoinAll;
    var other := Helpful(env, pick, at);
    HelpfulCandidates(other, pick(line), name);
    assert Ask(other, d, TypeDefinition, uri, line, receiverCol).result == Ok([Location(PathToUri(pick(line)), 0)]);
  }

  /** Candidates of one file that is open, or can be opened, all pass. */
  lemma {:induction false} AdmitsAll(env: Env, pick: u32 -> string, at: Location, d: Docs, enriched: string, file: string,
                                     candidates: seq<EntityRef>, bound: seq<EntityRef>)
    requires env.hasDefinition && file != enriched && forall c :: c in candidates ==> c.filePath == file
    requires FileUri(env, file) in d.open || Opens(env, file, FileUri(env, file))
    ensures var s := JoinAll(Helpful(env, pick, at), d, enriched, [at], candidates, bound);
      && s.result.Ok? && bound <= s.result.value
      && s.docs.open == d.open + (if candidates == [] then {} else {FileUri(env, file)})
      && (forall c :: c in candidates ==> HasId(s.result.value, c.id))
      && (forall c :: c in s.result.value ==> c in bound || c in candidates)
    decreases |candidates|
  {
    hide Openable, FileUri;
    var other := Helpful(env, pick, at);
    if candidates != [] {
      var c := candidates[0];
      AdmitsOne(env, pick, at, d, enriched, file, c);
      var s := Examine(other, d, enriched, [at], c);
      hide Examine, Opens;
      var more := if HasId(bound, c.id) then bound else bound + [c];
      assert candidates == [c] + candidates[1..];
      AdmitsAll(env, pick, at, s.docs, enriched, file, candidates[1..], more);
      assert HasId(more, c.id) by {
        assert more == bound + [c] ==> more[|bound|].id == c.id;
      }
      HasIdPrefix(more, JoinAll(other, d, enriched, [at], candidates, bound).result.value, c.id);
    }
  }

  lemma AdmitsOne(env: Env, pick: u32 -> string, at: Location, d: Docs, enriched: string, file: string, c: EntityRef)
    requires env.hasDefinition && file != enriched && c.filePath == file
    requires FileUri(env, file) in d.open || Opens(env, file, FileUri(env, file))
    ensures var s := Examine(Helpful(env, pick, at), d, enriched, [at], c);
      s.result == Ok(true) && s.docs.open == d.open + {FileUri(env, file)}
  {
    var other := Helpful(env, pick, at);
    assert SameLocation([at][0], [at][0]);
    assert Proven([at], [at]);
    SameFiles(env, other);
    hide Openable, FileUri, Proven;
  }

  /** Candidates of one file that is neither open nor can be are all refused. */
  lemma {:induction false} RefusesAll(env: Env, d: Docs, enriched: string, file: string, member: seq<Location>,
                                      candidates: seq<EntityRef>, bound: seq<EntityRef>)
    requires file != enriched && forall c :: c in candidates ==> c.filePath == file
    requires FileUri(env, file) !in d.open && !Openable(env, file)
    ensures JoinAll(env, d, enriched, member, candidates, bound) == Step(Ok(bound), d)
    decreases |candidates|
  {
    hide Openable, FileUri;
    if candidates != [] { RefusesAll(env, d, enriched, file, member, candidates[1..], bound); }
  }

  lemma NamedOfFile(env: Env, file: string, name: string, e: EntityRef)
    requires Filed(env.index) && file in env.index.byFile
    requires e in env.index.byFile[file] && e.name == name
    ensures e in OfName(env, file, name)
    ensures forall c :: c in OfName(env, file, name) ==> c.filePath == file
  {
  }

  /** A file of a filed index has an entity in its own bucket. */
  lemma IndexedHasEntity(env: Env, file: string)
    requires Filed(env.index) && Indexed(env, file)
    ensures file in env.index.byFile && env.index.byFile[file] != []
  {
    var k, i :| k in env.index.byFile && 0 <= i < |env.index.byFile[k]| && env.index.byFile[k][i].filePath == file;
    assert env.index.byFile[k][i] in env.index.byFile[k];
  }

  // ---- soundness ------------------------------------------------------------

  /** One call of the join. */
  datatype Call = Call(uri: string, line: u32, receiverCol: nat, memberCol: nat, name: string)

  /** The calls of one scope, in turn, and what the last returned. */
  function Joining(env: Env, enriched: string, calls: seq<Call>): Step<seq<EntityRef>>
    requires Ordered(env.index)
  {
    if calls == [] then Step(Ok([]), Docs({}, []))
    else
      var n := |calls| - 1;
      var before := Joining(env, enriched, calls[..n]);
      match before.result
      case Err(_) => before
      case Ok(_) =>
        var c := calls[n];
        Bindings(env, before.docs, enriched, c.uri, c.line, c.receiverCol, c.memberCol, c.name)
  }

  /** The server's own answers prove the entity for the call, opened or not. */
  ghost predicate Proves(env: Env, enriched: string, call: Call, e: EntityRef)
    requires Ordered(env.index)
  {
    var modules := Locations(env, TypeDefinition, call.uri, call.line, call.receiverCol);
    var member := Locations(env, Definition, call.uri, call.line, call.memberCol);
    && modules.Ok? && member.Ok?
    && e in Candidates(env, modules.value, call.name) && Qualifies(env, enriched, member.value, e)
  }

  ghost predicate LastIsSound(env: Env, enriched: string, calls: seq<Call>)
    requires Ordered(env.index) && calls != []
  {
    var r := Joining(env, enriched, calls).result;
    r.Ok? ==> forall e :: e in r.value ==> Proves(env, enriched, calls[|calls| - 1], e)
  }

  /** Whatever the server, whatever was joined before in the scope, all that a call returns is proven. */
  ghost predicate AlwaysSound(env: Env, enriched: string)
    requires Ordered(env.index)
  {
    forall other: Env, calls: seq<Call> :: SameButServer(env, other) && calls != [] ==> LastIsSound(other, enriched, calls)
  }

  lemma {:induction false} JoiningFounded(env: Env, enriched: string, calls: seq<Call>)
    requires Ordered(env.index) && Joining(env, enriched, calls).result.Ok?
    ensures Founded(env, Others(env, enriched), Joining(env, enriched, calls).docs.open)
  {
    hide Bindings;
    if calls != [] {
      var n := |calls| - 1;
      JoiningFounded(env, enriched, calls[..n]);
      var c := calls[n];
      JoinIsSoundAndComplete(env, Joining(env, enriched, calls[..n]).docs, enriched, c.uri, c.line,
                             c.receiverCol, c.memberCol, c.name);
    }
  }

  lemma {:induction false} NothingProven(env: Env, d: Docs, enriched: string, candidates: seq<EntityRef>)
    requires JoinAll(env, d, enriched, [], candidates, []).result.Ok?
    ensures JoinAll(env, d, enriched, [], candidates, []).result.value == []
    decreases |candidates|
  {
    if candidates != [] {
      var s := Examine(env, d, enriched, [], candidates[0]);
      assert s.result == Ok(false);
      NothingProven(env, s.docs, enriched, candidates[1..]);
    }
  }

  /** Without either capability the join returns nothing. */
  lemma NothingJoined(env: Env, d: Docs, enriched: string, c: Call)
    requires Ordered(env.index) && !(env.hasDefinition && env.hasTypeDefinition)
    ensures var r := Bindings(env, d, enriched, c.uri, c.line, c.receiverCol, c.memberCol, c.name).result;
      r.Ok? ==> r.value == []
  {
    hide Examine, Candidates;
    AskedOfNobody(env, d, c.uri, c.line, c.receiverCol, c.name);
    var modules := Ask(env, d, TypeDefinition, c.uri, c.line, c.receiverCol);
    var member := Ask(env, modules.docs, Definition, c.uri, c.line, c.memberCol);
    if modules.result.Ok? && member.result.Ok? {
      var s := JoinAll(env, member.docs, enriched, member.result.value, Candidates(env, modules.result.value, c.name), []);
      if env.hasTypeDefinition && s.result.Ok? {
        NothingProven(env, member.docs, enriched, Candidates(env, modules.result.value, c.name));
      }
    }
  }

  lemma AgreementIsSound(env: Env, enriched: string, calls: seq<Call>)
    requires Ordered(env.index) && calls != []
    requires env.hasDefinition && env.hasTypeDefinition ==> AliasesAgree(env, Others(env, enriched))
    ensures LastIsSound(env, enriched, calls)
  {
    hide Bindings, Candidates, Qualifies, AliasesAgree, Founded;
    var n := |calls| - 1;
    var before := Joining(env, enriched, calls[..n]);
    if Joining(env, enriched, calls).result.Ok? {
      var c := calls[n];
      JoiningFounded(env, enriched, calls[..n]);
      JoinIsSoundAndComplete(env, before.docs, enriched, c.uri, c.line, c.receiverCol, c.memberCol, c.name);
      if !(env.hasDefinition && env.hasTypeDefinition) { NothingJoined(env, before.docs, enriched, c); }
    }
  }

  /** A call on an entity of a file that can be opened, and then one on an entity of another file
      under the same uri that cannot. */
  function TwoCalls(e: EntityRef, f: EntityRef): seq<Call>
  {
    [Call("", 0, 0, 0, e.name), Call("", 1, 0, 0, f.name)]
  }

  function First(f: string, g: string): u32 -> string { (line: u32) => if line == 0 then f else g }

  /** The entity lies in its own file's bucket, another than the enriched file's. */
  predicate Elsewhere(env: Env, enriched: string, e: EntityRef)
  {
    e.filePath != enriched && e.filePath in env.index.byFile && e in env.index.byFile[e.filePath]
  }

  /** The file of `e` can be opened, and that of `f`, under the same uri, cannot. */
  ghost predicate Telltale(env: Env, enriched: string, e: EntityRef, f: EntityRef)
  {
    && Elsewhere(env, enriched, e) && Elsewhere(env, enriched, f)
    && Opens(env, e.filePath, FileUri(env, f.filePath)) && !Openable(env, f.filePath)
  }

  /** A call on an entity whose file is open, or can be opened, returns it, and its file is open. */
  lemma CallAdmits(env: Env, pick: u32 -> string, d: Docs, enriched: string, e: EntityRef, line: u32)
    requires Filed(env.index) && env.hasDefinition && env.hasTypeDefinition && Elsewhere(env, enriched, e)
    requires pick(line) == e.filePath
    requires FileUri(env, e.filePath) in d.open || Opens(env, e.filePath, FileUri(env, e.filePath))
    ensures var s := Bindings(Helpful(env, pick, PLACE), d, enriched, "", line, 0, 0, e.name);
      && s.result.Ok? && s.docs.open == d.open + {FileUri(env, e.filePath)}
      && HasId(s.result.value, e.id) && forall c :: c in s.result.value ==> c.filePath == e.filePath
  {
    hide Bindings, JoinAll, Openable, FileUri, Opens, OfName, AfterQuestions;
    NamedOfFile(env, e.filePath, e.name, e);
    HelpfulBindings(env, pick, PLACE, d, enriched, "", line, 0, 0, e.name);
    AdmitsAll(env, pick, PLACE, AfterQuestions(Helpful(env, pick, PLACE), d, "", line, 0, 0), enriched, e.filePath,
              OfName(env, e.filePath, e.name), []);
  }

  lemma JoiningTwo(env: Env, enriched: string, a: Call, b: Call)
    requires Ordered(env.index)
    ensures var first := Bindings(env, Docs({}, []), enriched, a.uri, a.line, a.receiverCol, a.memberCol, a.name);
      first.result.Ok? ==>
        Joining(env, enriched, [a, b]) == Bindings(env, first.docs, enriched, b.uri, b.line, b.receiverCol, b.memberCol, b.name)
  {
    hide Bindings;
    assert [a, b][..1] == [a] && [a][..0] == [];
    assert Joining(env, enriched, [a][..0]) == Step(Ok([]), Docs({}, []));
    assert Joining(env, enriched, [a]) == Bindings(env, Docs({}, []), enriched, a.uri, a.line, a.receiverCol,
        a.memberCol, a.name);
  }

  /** Opening one of two files that share a uri makes the other pass for opened: the second call
      returns an entity of a file that could not be opened. */
  lemma AliasesBreakTheJoin(env: Env, enriched: string, e: EntityRef, f: EntityRef)
    requires Filed(env.index) && env.hasDefinition && env.hasTypeDefinition && Telltale(env, enriched, e, f)
    ensures !LastIsSound(Helpful(env, First(e.filePath, f.filePath), PLACE), enriched, TwoCalls(e, f))
  {
    hide Bindings, Openable, FileUri, Joining, Candidates;
    var pick := First(e.filePath, f.filePath);
    var other := Helpful(env, pick, PLACE);
    var calls := TwoCalls(e, f);
    SameFiles(env, other);
    CallAdmits(env, pick, Docs({}, []), enriched, e, 0);
    var first := Bindings(other, Docs({}, []), enriched, "", 0, 0, 0, e.name);
    CallAdmits(env, pick, first.docs, enriched, f, 1);
    JoiningTwo(other, enriched, calls[0], calls[1]);
    var r := Joining(other, enriched, calls).result;
    var i :| 0 <= i < |r.value| && r.value[i].id == f.id;
    assert r.value[i] in r.value;
    assert !Qualifies(other, enriched, [PLACE], r.value[i]);
  }

  /** For an index, a root, a provider, a client and an enriched file, the join returns only what is
      proven, for every server and all calls of a scope, if and only if, with both capabilities,
      files of the index under one uri can be opened together or not at all. */
  lemma JoinIsSoundIff(env: Env, enriched: string)
    requires Filed(env.index)
    ensures AlwaysSound(env, enriched) <==>
      (env.hasDefinition && env.hasTypeDefinition ==> AliasesAgree(env, Others(env, enriched)))
  {
    hide LastIsSound, AliasesAgree, Others, Opens, Openable, FileUri;
    if env.hasDefinition && env.hasTypeDefinition ==> AliasesAgree(env, Others(env, enriched)) {
      forall other: Env, calls: seq<Call> | SameButServer(env, other) && calls != []
        ensures LastIsSound(other, enriched, calls)
      {
        SameFiles(env, other);
        AgreementIsSound(other, enriched, calls);
      }
    } else {
      Disagreement(env, enriched);
      var e, f :| Telltale(env, enriched, e, f);
      AliasesBreakTheJoin(env, enriched, e, f);
      assert SameButServer(env, Helpful(env, First(e.filePath, f.filePath), PLACE));
    }
  }

  lemma Disagreement(env: Env, enriched: string)
    requires Filed(env.index) && !AliasesAgree(env, Others(env, enriched))
    ensures exists e, f :: Telltale(env, enriched, e, f)
  {
    hide Opens, Openable, FileUri, Indexed;
    var a, b :| a in Others(env, enriched) && b in Others(env, enriched) && Opens(env, a, FileUri(env, b)) && !Openable(env, b);
    IndexedHasEntity(env, a);
    IndexedHasEntity(env, b);
    var e, f := env.index.byFile[a][0], env.index.byFile[b][0];
    assert e in env.index.byFile[a] && f in env.index.byFile[b];
    assert Telltale(env, enriched, e, f);
  }

  // ---- discipline -----------------------------------------------------------

  lemma ExamineExtends(env: Env, d: Docs, enriched: string, member: seq<Location>, c: EntityRef)
    ensures d.log <= Examine(env, d, enriched, member, c).docs.log
  {
  }

  lemma {:induction false} JoinAllExtends(env: Env, d: Docs, enriched: string, member: seq<Location>,
                                          candidates: seq<EntityRef>, bound: seq<EntityRef>)
    ensures d.log <= JoinAll(env, d, enriched, member, candidates, bound).docs.log
    decreases |candidates|
  {
    hide Examine;
    if candidates != [] {
      var c := candidates[0];
      ExamineExtends(env, d, enriched, member, c);
      var s := Examine(env, d, enriched, member, c);
      if s.result.Ok? {
        JoinAllExtends(env, s.docs, enriched, member, candidates[1..],
                       if s.result.value && !HasId(bound, c.id) then bound + [c] else bound);
      }
    }
  }

  /** Examining a candidate of a file that is not open yet and can be opens it. */
  lemma FirstOpens(env: Env, d: Docs, enriched: string, file: string, member: seq<Location>, candidates: seq<EntityRef>)
    requires file != enriched && candidates != [] && candidates[0].filePath == file
    requires FileUri(env, file) !in d.open && Opens(env, file, FileUri(env, file))
    ensures Opened(FileUri(env, file)) in JoinAll(env, d, enriched, member, candidates, []).docs.log
  {
    hide FileUri, Openable, Proven;
    var c := candidates[0];
    var s := Examine(env, d, enriched, member, c);
    var opened' := OpenStep(env, d, file, FileUri(env, file));
    assert opened'.docs.log[|d.log|] == Opened(FileUri(env, file));
    assert opened'.docs.log <= s.docs.log;
    hide Examine, OpenStep;
    if s.result.Ok? {
      JoinAllExtends(env, s.docs, enriched, member, candidates[1..], if s.result.value then [c] else []);
      assert !HasId([], c.id) && [] + [c] == [c];
    }
    var log := JoinAll(env, d, enriched, member, candidates, []).docs.log;
    assert opened'.docs.log <= log;
    assert log[|d.log|] == Opened(FileUri(env, file));
  }

  /** Whatever the server and the call, a fresh scope's traffic about the enriched file is disciplined. */
  ghost predicate AlwaysDisciplined(env: Env, enriched: string)
    requires Ordered(env.index)
  {
    forall other: Env, line: u32, receiverCol: nat, memberCol: nat, name: string :: SameButServer(env, other) ==>
      Behaves(other, enriched, line, receiverCol, memberCol, name)
  }

  ghost predicate Behaves(env: Env, enriched: string, line: u32, receiverCol: nat, memberCol: nat, name: string)
    requires Ordered(env.index)
  {
    var home := FileUri(env, enriched);
    Disciplined(Bindings(env, Docs({}, []), enriched, home, line, receiverCol, memberCol, name).docs.log, home)
  }

  /** An entity of another file under the enriched file's uri makes the join open the enriched file. */
  lemma AliasOfHomeIsOpened(env: Env, enriched: string, e: EntityRef)
    requires Filed(env.index) && env.hasTypeDefinition
    requires Elsewhere(env, enriched, e) && Opens(env, e.filePath, FileUri(env, enriched))
    ensures !Behaves(Helpful(env, (line: u32) => e.filePath, PLACE), enriched, 0, 0, 0, e.name)
  {
    var pick := (line: u32) => e.filePath;
    var other := Helpful(env, pick, PLACE);
    var home := FileUri(env, enriched);
    var candidates := OfName(env, e.filePath, e.name);
    SameFiles(env, other);
    NamedOfFile(env, e.filePath, e.name, e);
    assert candidates[0] in candidates;
    HelpfulBindings(env, pick, PLACE, Docs({}, []), enriched, home, 0, 0, 0, e.name);
    hide Bindings, JoinAll, Openable, FileUri, Candidates, Filed, OfName;
    var member := if env.hasDefinition then [PLACE] else [];
    var docs := AfterQuestions(other, Docs({}, []), home, 0, 0, 0);
    FirstOpens(other, docs, enriched, e.filePath, member, candidates);
    var log := Bindings(other, Docs({}, []), enriched, home, 0, 0, 0, e.name).docs.log;
    var i :| 0 <= i < |log| && log[i] == Opened(home);
    assert log[i].Opened? && log[i].uri == home;
  }

  /** For an index, a root, a provider, a client and an enriched file, the join is disciplined for
      every server and every call if and only if, with the capability to name modules, no other file
      of the index can be opened under the enriched file's uri. */
  lemma JoinIsDisciplinedIff(env: Env, enriched: string)
    requires Filed(env.index)
    ensures AlwaysDisciplined(env, enriched) <==>
      (env.hasTypeDefinition ==> LeaveHome(env, Others(env, enriched), enriched))
  {
    hide Behaves, Opens, FileUri;
    if env.hasTypeDefinition ==> LeaveHome(env, Others(env, enriched), enriched) {
      forall other: Env, line: u32, receiverCol: nat, memberCol: nat, name: string | SameButServer(env, other)
        ensures Behaves(other, enriched, line, receiverCol, memberCol, name)
      {
        SameFiles(env, other);
        StaysDisciplined(other, enriched, line, receiverCol, memberCol, name);
      }
    } else {
      var f :| f in Others(env, enriched) && Opens(env, f, FileUri(env, enriched));
      IndexedHasEntity(env, f);
      var e := env.index.byFile[f][0];
      assert e in env.index.byFile[f];
      AliasOfHomeIsOpened(env, enriched, e);
      assert SameButServer(env, Helpful(env, (line: u32) => e.filePath, PLACE));
    }
  }

  lemma StaysDisciplined(env: Env, enriched: string, line: u32, receiverCol: nat, memberCol: nat, name: string)
    requires Filed(env.index) && (env.hasTypeDefinition ==> LeaveHome(env, Others(env, enriched), enriched))
    ensures Behaves(env, enriched, line, receiverCol, memberCol, name)
  {
    hide Bindings, Opens, FileUri, Disciplined;
    if env.hasTypeDefinition {
      forall k, e | k in env.index.byFile && e in env.index.byFile[k] && e.name == name && e.filePath != enriched
        ensures !Opens(env, e.filePath, FileUri(env, enriched))
      {
        var i :| 0 <= i < |env.index.byFile[k]| && env.index.byFile[k][i] == e;
        assert Indexed(env, e.filePath);
      }
    }
    NothingHeard(FileUri(env, enriched));
    JoinIsDisciplined(env, Docs({}, []), enriched, line, receiverCol, memberCol, name);
  }

  lemma NothingHeard(home: string)
    ensures Heard(Docs({}, []), home)
  {
  }
}
