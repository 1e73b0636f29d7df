/** What the equivalence join is willing to believe, and what it says to the server. */
module JoinTheorems {
  import opened Wrappers
  import opened EntityIndex
  import opened Join

  /** A path's extension is what follows its last dot. */
  lemma {:induction false} ExtensionIff(path: string, e: string)
    ensures Extension(path) == Some(e) <==> '.' !in e && exists prefix :: path == prefix + "." + e
  {
    var n := |path| - 1;
    if path != [] && path[n] != '.' {
      var init := path[..n];
      if e != [] && e[|e| - 1] == path[n] {
        var shorter := e[..|e| - 1];
        ExtensionIff(init, shorter);
        assert e == shorter + [path[n]];
        if prefix :| path == prefix + "." + e { assert init == prefix + "." + shorter; }
        if prefix :| init == prefix + "." + shorter { assert path == prefix + "." + e; }
      } else {
        assert Extension(path).Some? ==> Extension(path).value[|Extension(path).value| - 1] == path[n];
        forall prefix ensures path != prefix + "." + e
        {
          assert (prefix + "." + e)[|prefix + "." + e| - 1] == if e == [] then '.' else e[|e| - 1];
        }
      }
    } else if path != [] {
      assert path == path[..n] + "." + "";
      forall prefix | path == prefix + "." + e && e != [] ensures path[n] in e
      {
        assert path[n] == e[|e| - 1];
      }
    }
  }

  /** What follows the last dot names a known language. */
  ghost predicate EndsInLanguage(file: string)
  {
    exists prefix, e :: file == prefix + "." + e && '.' !in e && e in LANGUAGES
  }

  lemma LanguageIff(file: string)
    ensures HasLanguage(file) <==> EndsInLanguage(file)
  {
    hide Extension;
    if HasLanguage(file) { ExtensionIff(file, Extension(file).value); }
    if prefix, e :| file == prefix + "." + e && '.' !in e && e in LANGUAGES { ExtensionIff(file, e); }
  }

  /** A file can be opened exactly when there is a provider with text for it, and what follows the last
      dot of its path names a known language. */
  lemma OpenableIff(env: Env, file: string)
    ensures Openable(env, file) <==> env.text.Some? && env.text.value(file).Some? && EndsInLanguage(file)
  {
    hide HasLanguage, EndsInLanguage;
    LanguageIff(file);
  }

  /** Some entity of the index lies in this file. */
  ghost predicate Indexed(env: Env, file: string)
  {
    exists k, i :: k in env.index.byFile && 0 <= i < |env.index.byFile[k]| && env.index.byFile[k][i].filePath == file
  }

  /** The files of the index that the join may have to open. */
  ghost function Others(env: Env, enriched: string): iset<string>
  {
    iset f | Indexed(env, f) && f != enriched
  }

  /** Opening this file, under this uri, succeeds. */
  ghost predicate Opens(env: Env, file: string, uri: string)
  {
    FileUri(env, file) == uri && Openable(env, file) && env.accepts(uri)
  }

  /** Of two of these files under one uri, both can be opened or neither. */
  ghost predicate AliasesAgree(env: Env, files: iset<string>)
  {
    forall f, g :: f in files && g in files && Opens(env, f, FileUri(env, g)) ==> Openable(env, g)
  }

  /** None of these files can be opened under the enriched file's uri. */
  ghost predicate LeaveHome(env: Env, files: iset<string>, enriched: string)
  {
    forall f :: f in files ==> !Opens(env, f, FileUri(env, enriched))
  }

  predicate Absolute(file: string) { "/" <= file }

  lemma FileUriInjective(env: Env, a: string, b: string)
    requires FileUri(env, a) == FileUri(env, b) && (Absolute(a) <==> Absolute(b))
    ensures a == b
  {
    var p, q := JoinPath(env.root, a), JoinPath(env.root, b);
    assert FileUri(env, a)[|SCHEME|..] == p && FileUri(env, b)[|SCHEME|..] == q;
    if !Absolute(a) {
      assert p[|p| - |a|..] == a;
      assert q[|q| - |b|..] == b;
    }
  }

  /** Paths relative to the repository, as the graph's are, have uris of their own; so do absolute
      ones. Only a mixture can alias. */
  lemma UniformPathsAgree(env: Env, enriched: string)
    requires (forall f :: Indexed(env, f) ==> !Absolute(f)) || (forall f :: Indexed(env, f) ==> Absolute(f))
    ensures AliasesAgree(env, Others(env, enriched))
    ensures (forall f :: Indexed(env, f) ==> (Absolute(f) <==> Absolute(enriched))) ==>
      LeaveHome(env, Others(env, enriched), enriched)
  {
    hide Indexed, FileUri, Openable;
    forall f, g | (Absolute(f) <==> Absolute(g)) && FileUri(env, f) == FileUri(env, g) ensures f == g
    {
      FileUriInjective(env, f, g);
    }
  }

  /** Whatever the scope holds open, it opened for one of these files. */
  ghost predicate Founded(env: Env, files: iset<string>, open: set<string>)
  {
    forall u :: u in open ==> exists f :: f in files && Opens(env, f, u)
  }

  lemma OpenStepFounded(env: Env, files: iset<string>, d: Docs, file: string)
    requires Founded(env, files, d.open) && file in files
    ensures var s := OpenStep(env, d, file, FileUri(env, file));
      s.result.Ok? ==> Founded(env, files, s.docs.open) && (AliasesAgree(env, files) ==> s.result.value == Openable(env, file))
  {
    hide FileUri, Openable;
    var uri := FileUri(env, file);
    if uri in d.open {
      var f :| f in files && Opens(env, f, uri);
    } else if Openable(env, file) && env.accepts(uri) {
      assert Opens(env, file, uri);
    }
  }

  // ---- soundness and completeness -------------------------------------------

  /** Some location of each names the same line of the same document. */
  predicate SharePlace(a: seq<Location>, b: seq<Location>)
  {
    exists i, j :: 0 <= i < |a| && 0 <= j < |b| && a[i].uri == b[j].uri && a[i].line == b[j].line
  }

  lemma ProvenIff(a: seq<Location>, b: seq<Location>)
    ensures Proven(a, b) <==> SharePlace(a, b)
  {
    if i, j :| 0 <= i < |a| && 0 <= j < |b| && a[i].uri == b[j].uri && a[i].line == b[j].line {
      assert SameLocation(a[i], b[j]);
    }
  }

  /** The candidate lies in the enriched file or one that can be opened, and its own definitions
      share a place with the member's. */
  predicate Qualifies(env: Env, enriched: string, member: seq<Location>, c: EntityRef)
  {
    && (c.filePath == enriched || Openable(env, c.filePath))
    && var own := Locations(env, Definition, FileUri(env, c.filePath), c.nameLine, c.nameCol);
       own.Ok? && SharePlace(own.value, member)
  }

  /** Whoever qualifies is admitted and proven, whatever is open; and where aliases agree, nobody
      else is. */
  lemma ExamineMeaning(env: Env, files: iset<string>, d: Docs, enriched: string, member: seq<Location>, c: EntityRef)
    ensures var s := Examine(env, d, enriched, member, c); s.result.Ok? ==>
      && (Qualifies(env, enriched, member, c) ==> s.result.value)
      && (Founded(env, files, d.open) && (c.filePath == enriched || c.filePath in files) ==>
            && Founded(env, files, s.docs.open)
            && (AliasesAgree(env, files) ==> s.result.value == Qualifies(env, enriched, member, c)))
  {
    hide Openable, FileUri, Founded, AliasesAgree, Proven, SharePlace;
    forall a, b ensures Proven(a, b) <==> SharePlace(a, b) { ProvenIff(a, b); }
    if Founded(env, files, d.open) && c.filePath in files {
      OpenStepFounded(env, files, d, c.filePath);
    }
  }

  ghost predicate DistinctIds(es: seq<EntityRef>) { forall i, j :: 0 <= i < j < |es| ==> es[i].id != es[j].id }

  /** What the join keeps of its candidates: no id twice, and an entity for every id that has a
      qualifying candidate. */
  lemma {:induction false} JoinAllComplete(env: Env, d: Docs, enriched: string, member: seq<Location>,
                                           candidates: seq<EntityRef>, bound: seq<EntityRef>)
    requires DistinctIds(bound)
    requires JoinAll(env, d, enriched, member, candidates, bound).result.Ok?
    ensures var r := JoinAll(env, d, enriched, member, candidates, bound).result.value;
      && bound <= r && DistinctIds(r)
      && (forall e :: e in r ==> e in bound || e in candidates)
      && (forall c :: c in candidates && Qualifies(env, enriched, member, c) ==> HasId(r, c.id))
    decreases |candidates|
  {
    hide Examine, Qualifies;
    if candidates != [] {
      var c := candidates[0];
      var s := Examine(env, d, enriched, member, c);
      ExamineMeaning(env, iset{}, d, enriched, member, c);
      var more := if s.result.value && !HasId(bound, c.id) then bound + [c] else bound;
      assert candidates == [c] + candidates[1..];
      JoinAllComplete(env, s.docs, enriched, member, candidates[1..], more);
      var r := JoinAll(env, d, enriched, member, candidates, bound).result.value;
      if s.result.value {
        assert HasId(more, c.id) by {
          assert more == bound + [c] ==> more[|bound|].id == c.id;
        }
        HasIdPrefix(more, r, c.id);
      }
    }
  }

  lemma {:induction false} JoinAllSound(env: Env, files: iset<string>, d: Docs, enriched: string, member: seq<Location>,
                                        candidates: seq<EntityRef>, bound: seq<EntityRef>)
    requires Founded(env, files, d.open)
    requires forall c :: c in candidates ==> c.filePath == enriched || c.filePath in files
    requires JoinAll(env, d, enriched, member, candidates, bound).result.Ok?
    ensures var s := JoinAll(env, d, enriched, member, candidates, bound);
      && Founded(env, files, s.docs.open)
      && (AliasesAgree(env, files) ==>
            forall e :: e in s.result.value ==> e in bound || Qualifies(env, enriched, member, e))
    decreases |candidates|
  {
    hide Examine, Qualifies, Founded, AliasesAgree;
    if candidates != [] {
      var c := candidates[0];
      var s := Examine(env, d, enriched, member, c);
      ExamineMeaning(env, files, d, enriched, member, c);
      var more := if s.result.value && !HasId(bound, c.id) then bound + [c] else bound;
      assert forall e :: e in more ==> e in bound || e == c;
      JoinAllSound(env, files, s.docs, enriched, member, candidates[1..], more);
    }
  }

  lemma HasIdPrefix(a: seq<EntityRef>, b: seq<EntityRef>, id: nat)
    requires a <= b && HasId(a, id)
    ensures HasId(b, id)
  {
    var i :| 0 <= i < |a| && a[i].id == id;
    assert b[i].id == id;
  }

  /** Candidates are exactly the entities of the module files that carry the member's name. */
  lemma {:induction false} CandidatesMeaning(env: Env, modules: seq<Location>, name: string, e: EntityRef)
    requires Ordered(env.index)
    ensures e in Candidates(env, modules, name) <==>
      e.name == name && exists i :: 0 <= i < |modules| && e in ModuleEntities(env, modules[i])
  {
    hide ModuleEntities;
    if modules != [] {
      CandidatesMeaning(env, modules[1..], name, e);
      var rest := modules[1..];
      if i :| 0 <= i < |rest| && e in ModuleEntities(env, rest[i]) {
        assert e in ModuleEntities(env, modules[i + 1]);
      }
      if i :| 0 <= i < |modules| && e in ModuleEntities(env, modules[i]) {
        assert i > 0 ==> e in ModuleEntities(env, rest[i - 1]);
      }
    }
  }

  lemma CandidatesIndexed(env: Env, modules: seq<Location>, name: string)
    requires Ordered(env.index)
    ensures forall c :: c in Candidates(env, modules, name) ==> Indexed(env, c.filePath)
  {
    forall c | c in Candidates(env, modules, name) ensures Indexed(env, c.filePath)
    {
      CandidatesMeaning(env, modules, name, c);
      var i :| 0 <= i < |modules| && c in ModuleEntities(env, modules[i]);
      var path := UriToPath(modules[i].uri).value;
      KeyIndexed(env.index, path);
      var k := KeyFor(env.index, path).value;
      var j :| 0 <= j < |env.index.byFile[k]| && env.index.byFile[k][j] == c;
    }
  }

  /** When no query fails, the join returns candidates, an entity for every id that has a qualifying
      one and no id twice, whatever is open; and where aliases agree, all it returns qualify. */
  lemma JoinIsSoundAndComplete(env: Env, d: Docs, enriched: string, uri: string, line: u32,
                               receiverCol: nat, memberCol: nat, name: string)
    requires Ordered(env.index)
    requires Bindings(env, d, enriched, uri, line, receiverCol, memberCol, name).result.Ok?
    ensures var s := Bindings(env, d, enriched, uri, line, receiverCol, memberCol, name);
      var modules := Locations(env, TypeDefinition, uri, line, receiverCol);
      var member := Locations(env, Definition, uri, line, memberCol);
      var files := Others(env, enriched);
      && modules.Ok? && member.Ok?
      && DistinctIds(s.result.value)
      && (forall e :: e in s.result.value ==> e in Candidates(env, modules.value, name))
      && (forall c :: c in Candidates(env, modules.value, name) && Qualifies(env, enriched, member.value, c) ==>
            HasId(s.result.value, c.id))
      && (Founded(env, files, d.open) ==> Founded(env, files, s.docs.open))
      && (Founded(env, files, d.open) && AliasesAgree(env, files) ==>
            forall e :: e in s.result.value ==> Qualifies(env, enriched, member.value, e))
  {
    hide Candidates, Qualifies, JoinAll, Founded, AliasesAgree, Indexed;
    var modules := Locations(env, TypeDefinition, uri, line, receiverCol).value;
    var member := Locations(env, Definition, uri, line, memberCol).value;
    var candidates := Candidates(env, modules, name);
    CandidatesIndexed(env, modules, name);
    var docs := Ask(env, Ask(env, d, TypeDefinition, uri, line, receiverCol).docs, Definition, uri, line, memberCol).docs;
    assert docs.open == d.open;
    JoinAllComplete(env, docs, enriched, member, candidates, []);
    if Founded(env, Others(env, enriched), d.open) {
      JoinAllSound(env, Others(env, enriched), docs, enriched, member, candidates, []);
    }
  }

  // ---- what the server hears ------------------------------------------------

  /** A request about another file follows its acknowledged open in this scope; the enriched file
      is never opened, and no file twice. */
  ghost predicate Disciplined(log: seq<Event>, home: string)
  {
    && (forall i :: 0 <= i < |log| && log[i].Asked? && log[i].uri != home ==>
          exists j :: 0 <= j < i && log[j] == Opened(log[i].uri))
    && (forall i :: 0 <= i < |log| && log[i].Opened? ==> log[i].uri != home)
    && (forall i, j :: 0 <= i < j < |log| && log[i].Opened? ==> log[j] != log[i])
  }

  ghost predicate Heard(d: Docs, home: string)
  {
    Disciplined(d.log, home) && forall u :: u in d.open <==> Opened(u) in d.log
  }

  lemma AskHeard(env: Env, d: Docs, m: Method, uri: string, line: u32, col: nat, home: string)
    requires Heard(d, home) && (uri == home || uri in d.open)
    ensures Heard(Ask(env, d, m, uri, line, col).docs, home)
  {
    var s := Ask(env, d, m, uri, line, col);
    if uri != home {
      var j :| 0 <= j < |d.log| && d.log[j] == Opened(uri);
      assert s.docs.log[j] == Opened(uri);
    }
    forall i | 0 <= i < |d.log| && d.log[i].Asked? && d.log[i].uri != home
      ensures exists j :: 0 <= j < i && s.docs.log[j] == Opened(d.log[i].uri)
    {
      var j :| 0 <= j < i && d.log[j] == Opened(d.log[i].uri);
      assert s.docs.log[j] == d.log[j];
    }
  }

  lemma OpenHeard(env: Env, d: Docs, file: string, uri: string, home: string)
    requires Heard(d, home) && uri != home
    ensures var s := OpenStep(env, d, file, uri);
      Disciplined(s.docs.log, home) && (s.result.Ok? ==> Heard(s.docs, home))
      && (s.result.Ok? && s.result.value ==> uri in s.docs.open)
  {
    var s := OpenStep(env, d, file, uri);
    if s.docs.log != d.log {
      assert s.docs.log == d.log + [Opened(uri)];
      forall i | 0 <= i < |d.log| && d.log[i].Asked? && d.log[i].uri != home
        ensures exists j :: 0 <= j < i && s.docs.log[j] == Opened(d.log[i].uri)
      {
        var j :| 0 <= j < i && d.log[j] == Opened(d.log[i].uri);
        assert s.docs.log[j] == d.log[j];
      }
      assert forall i :: 0 <= i < |d.log| ==> d.log[i] in d.log;
    }
  }

  /** A file that cannot be opened under the enriched file's uri leaves that uri closed. */
  lemma HomeStaysClosed(env: Env, d: Docs, file: string, home: string)
    requires Heard(d, home) && !(Openable(env, file) && env.accepts(home))
    ensures var s := OpenStep(env, d, file, home);
      s.docs.log == d.log && (s.result.Ok? ==> s == Step(Ok(false), d))
  {
    hide Openable;
    assert home !in d.open by {
      if i :| 0 <= i < |d.log| && d.log[i] == Opened(home) { assert d.log[i].Opened?; }
    }
  }

  lemma ExamineHeard(env: Env, d: Docs, enriched: string, member: seq<Location>, c: EntityRef)
    requires Heard(d, FileUri(env, enriched))
    requires c.filePath == enriched || !Opens(env, c.filePath, FileUri(env, enriched))
    ensures var s := Examine(env, d, enriched, member, c);
      Disciplined(s.docs.log, FileUri(env, enriched)) && (s.result.Ok? ==> Heard(s.docs, FileUri(env, enriched)))
  {
    hide Heard, Disciplined, OpenStep, Ask, Openable;
    var home := FileUri(env, enriched);
    var uri := FileUri(env, c.filePath);
    HeardIsDisciplined(d, home);
    if c.filePath == enriched {
      AskHeard(env, d, Definition, uri, c.nameLine, c.nameCol, home);
      HeardIsDisciplined(Ask(env, d, Definition, uri, c.nameLine, c.nameCol).docs, home);
    } else if uri == home {
      HomeStaysClosed(env, d, c.filePath, home);
    } else {
      OpenHeard(env, d, c.filePath, uri, home);
      var s := OpenStep(env, d, c.filePath, uri);
      if s.result.Ok? && s.result.value {
        AskHeard(env, s.docs, Definition, uri, c.nameLine, c.nameCol, home);
        HeardIsDisciplined(Ask(env, s.docs, Definition, uri, c.nameLine, c.nameCol).docs, home);
      }
    }
  }

  lemma HeardIsDisciplined(d: Docs, home: string)
    requires Heard(d, home)
    ensures Disciplined(d.log, home)
  {
  }

  lemma {:induction false} JoinAllHeard(env: Env, d: Docs, enriched: string, member: seq<Location>,
                                        candidates: seq<EntityRef>, bound: seq<EntityRef>)
    requires Heard(d, FileUri(env, enriched))
    requires forall c :: c in candidates ==> c.filePath == enriched || !Opens(env, c.filePath, FileUri(env, enriched))
    ensures var s := JoinAll(env, d, enriched, member, candidates, bound);
      Disciplined(s.docs.log, FileUri(env, enriched)) && (s.result.Ok? ==> Heard(s.docs, FileUri(env, enriched)))
    decreases |candidates|
  {
    hide Heard, Disciplined, Examine, Opens;
    HeardIsDisciplined(d, FileUri(env, enriched));
    if candidates != [] {
      var c := candidates[0];
      ExamineHeard(env, d, enriched, member, c);
      var s := Examine(env, d, enriched, member, c);
      if s.result.Ok? {
        JoinAllHeard(env, s.docs, enriched, member, candidates[1..],
                     if s.result.value && !HasId(bound, c.id) then bound + [c] else bound);
      }
    }
  }

  /** No candidate of this name can be opened under the enriched file's uri. */
  ghost predicate NameLeavesHome(env: Env, name: string, enriched: string)
  {
    forall k, e :: k in env.index.byFile && e in env.index.byFile[k] && e.name == name && e.filePath != enriched ==>
      !Opens(env, e.filePath, FileUri(env, enriched))
  }

  lemma CandidatesListed(env: Env, modules: seq<Location>, name: string, c: EntityRef)
    requires Ordered(env.index) && c in Candidates(env, modules, name)
    ensures c.name == name && exists k :: k in env.index.byFile && c in env.index.byFile[k]
  {
    CandidatesMeaning(env, modules, name, c);
    var i :| 0 <= i < |modules| && c in ModuleEntities(env, modules[i]);
    KeyIndexed(env.index, UriToPath(modules[i].uri).value);
  }

  /** Whatever the outcome of the join, no request about another file was sent before that file's
      open was acknowledged, and the enriched file was not opened. */
  lemma JoinIsDisciplined(env: Env, d: Docs, enriched: string, line: u32,
                          receiverCol: nat, memberCol: nat, name: string)
    requires Ordered(env.index) && Heard(d, FileUri(env, enriched))
    requires env.hasTypeDefinition ==> NameLeavesHome(env, name, enriched)
    ensures var s := Bindings(env, d, enriched, FileUri(env, enriched), line, receiverCol, memberCol, name);
      Disciplined(s.docs.log, FileUri(env, enriched)) && (s.result.Ok? ==> Heard(s.docs, FileUri(env, enriched)))
  {
    hide Heard, Disciplined, JoinAll, Candidates, Ask, Opens;
    var home := FileUri(env, enriched);
    var modules := Ask(env, d, TypeDefinition, home, line, receiverCol);
    AskHeard(env, d, TypeDefinition, home, line, receiverCol, home);
    HeardIsDisciplined(modules.docs, home);
    if modules.result.Ok? {
      var member := Ask(env, modules.docs, Definition, home, line, memberCol);
      AskHeard(env, modules.docs, Definition, home, line, memberCol, home);
      HeardIsDisciplined(member.docs, home);
      if member.result.Ok? {
        var candidates := Candidates(env, modules.result.value, name);
        forall c | c in candidates ensures c.filePath == enriched || !Opens(env, c.filePath, home)
        {
          CandidatesListed(env, modules.result.value, name, c);
          AskedOfNobody(env, d, home, line, receiverCol, name);
        }
        JoinAllHeard(env, member.docs, enriched, member.result.value, candidates, []);
      }
    }
  }

  /** Without the capability no module is named, and there are no candidates. */
  lemma AskedOfNobody(env: Env, d: Docs, uri: string, line: u32, col: nat, name: string)
    requires Ordered(env.index)
    ensures !env.hasTypeDefinition ==>
      var s := Ask(env, d, TypeDefinition, uri, line, col);
      s == Step(Ok([]), d) && Candidates(env, [], name) == []
  {
  }
}
