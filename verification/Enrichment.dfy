/** The loops of src/enrichment.rs over the documents of one scope: each does what `Join` says, and
    says what that means to its caller. */
module Enrichment {
  import opened Wrappers
  import opened StableSort
  import opened EntityIndex
  import opened Join
  import opened JoinTheorems

  /** `ScopedDocuments`, its open set and, as history, its scope's traffic. */
  class ScopedDocuments {
    var open: set<string>
    ghost var log: seq<Event>

    ghost function View(): Docs
      reads this
    {
      Docs(open, log)
    }

    constructor ()
      ensures View() == Docs({}, [])
    {
      open, log := {}, [];
    }

    method EnsureOpen(env: Env, file: string, uri: string) returns (r: Result<bool, Error>)
      modifies this
      ensures Step(r, View()) == OpenStep(env, old(View()), file, uri)
      // It says whether the server holds the document, opens nothing else and nothing twice.
      ensures r.Ok? ==> (r.value <==> uri in open)
      ensures old(open) <= open <= old(open) + {uri}
      ensures uri in old(open) ==> View() == old(View())
      // A failed notification leaves the document owned, to be closed, and unheard of.
      ensures r.Err? ==> uri in open - old(open) && log == old(log)
      // Whatever is held open was opened for some file; where aliases agree, the answer is that of
      // this file alone.
      ensures forall files :: Founded(env, files, old(open)) && file in files && uri == FileUri(env, file) && r.Ok? ==>
        Founded(env, files, open) && (AliasesAgree(env, files) ==> r.value == Openable(env, file))
      ensures forall home :: uri != home && Heard(old(View()), home) && r.Ok? ==> Heard(View(), home)
    {
      OpenMeans(env, View(), file, uri);
      if uri in open {
        return Ok(true);
      }
      if !Openable(env, file) {
        return Ok(false);
      }
      // Ownership precedes the notification.
      open := open + {uri};
      if !env.accepts(uri) {
        return Err(NotOpened);
      }
      log := log + [Opened(uri)];
      r := Ok(true);
    }

    method LocationsAt(env: Env, m: Method, uri: string, line: u32, col: nat)
      returns (r: Result<seq<Location>, Error>)
      modifies this
      ensures Step(r, View()) == Ask(env, old(View()), m, uri, line, col)
      // The answer is the server's, whatever is open; the question is heard once, or not at all.
      ensures r == Locations(env, m, uri, line, col) && open == old(open)
      ensures !Supported(env, m) ==> r == Ok([]) && log == old(log)
      ensures Supported(env, m) ==> log == old(log) + [Asked(m, uri, line, col)]
      // Asking about a document that is open keeps the scope disciplined.
      ensures forall home :: (uri == home || uri in open) && Heard(old(View()), home) ==> Heard(View(), home)
    {
      AskMeans(env, View(), m, uri, line, col);
      if !Supported(env, m) {
        return Ok([]);
      }
      log := log + [Asked(m, uri, line, col)];
      r := env.answer(m, uri, line, col);
    }

    method ExamineCandidate(env: Env, enriched: string, member: seq<Location>, c: EntityRef)
      returns (r: Result<bool, Error>)
      modifies this
      ensures Step(r, View()) == Examine(env, old(View()), enriched, member, c)
      // Whoever qualifies is proven, whatever was opened before; where aliases agree, nobody else is.
      ensures r.Ok? && Qualifies(env, enriched, member, c) ==> r.value
      ensures forall files ::
        Founded(env, files, old(open)) && (c.filePath == enriched || c.filePath in files) && r.Ok? ==>
          && Founded(env, files, open)
          && (AliasesAgree(env, files) ==> r.value == Qualifies(env, enriched, member, c))
      // It asks only about the enriched file and documents it has had acknowledged.
      ensures c.filePath == enriched || !Opens(env, c.filePath, FileUri(env, enriched)) ==>
        Heard(old(View()), FileUri(env, enriched)) && r.Ok? ==> Heard(View(), FileUri(env, enriched))
    {
      hide Founded, AliasesAgree, Qualifies, Heard, Opens, Openable, Proven, FileUri;
      ExamineMeans(env, View(), enriched, member, c);
      var uri := FileUri(env, c.filePath);
      if c.filePath != enriched {
        var held := EnsureOpen(env, c.filePath, uri);
        if held.Err? { return Err(held.error); }
        if !held.value { return Ok(false); }
      }
      var definitions := LocationsAt(env, Definition, uri, c.nameLine, c.nameCol);
      if definitions.Err? { return Err(definitions.error); }
      r := Ok(Proven(definitions.value, member));
    }

    method MemberExportBindings(env: Env, enriched: string, uri: string, line: u32,
                                receiverCol: nat, memberCol: nat, name: string)
      returns (r: Result<seq<EntityRef>, Error>)
      requires Ordered(env.index)
      modifies this
      ensures Step(r, View()) == Bindings(env, old(View()), enriched, uri, line, receiverCol, memberCol, name)
    {
      hide Candidates, Examine, Ask, Founded, AliasesAgree, Heard, Qualifies, Locations, Openable, FileUri, Opens;
      var modules := LocationsAt(env, TypeDefinition, uri, line, receiverCol);
      if modules.Err? { return Err(modules.error); }
      var member := LocationsAt(env, Definition, uri, line, memberCol);
      if member.Err? { return Err(member.error); }
      ghost var answer := JoinAll(env, View(), enriched, member.value, Candidates(env, modules.value, name), []);
      var bound: seq<EntityRef> := [];
      var i := 0;
      while i < |modules.value|
        invariant i <= |modules.value|
        invariant JoinAll(env, View(), enriched, member.value,
                          Candidates(env, modules.value[i..], name), bound) == answer
      {
        var entities := ModuleEntities(env, modules.value[i]);
        ghost var later := Candidates(env, modules.value[i + 1..], name);
        CandidatesStep(env, modules.value, i, name);
        var j := 0;
        assert entities[0..] == entities;
        while j < |entities|
          invariant j <= |entities|
          invariant JoinAll(env, View(), enriched, member.value,
                            Filter(entities[j..], Named(name)) + later, bound) == answer
        {
          var c := entities[j];
          FilterHead(entities, j, Named(name), later);
          if c.name == name {
            var proven := ExamineCandidate(env, enriched, member.value, c);
            if proven.Err? { return Err(proven.error); }
            if proven.value && !HasId(bound, c.id) {
              bound := bound + [c];
            }
          }
          j := j + 1;
        }
        assert entities[j..] == [] && Filter(entities[j..], Named(name)) + later == later;
        i := i + 1;
      }
      NoCandidates(env, modules.value[i..], name);
      r := Ok(bound);
    }
  }

  lemma CandidatesStep(env: Env, modules: seq<Location>, i: nat, name: string)
    requires Ordered(env.index) && i < |modules|
    ensures Candidates(env, modules[i..], name)
         == Filter(ModuleEntities(env, modules[i]), Named(name)) + Candidates(env, modules[i + 1..], name)
  {
    assert modules[i..][1..] == modules[i + 1..];
  }

  lemma NoCandidates(env: Env, modules: seq<Location>, name: string)
    requires Ordered(env.index) && modules == []
    ensures Candidates(env, modules, name) == []
  {
  }

  lemma FilterHead(es: seq<EntityRef>, j: nat, p: EntityRef -> bool, later: seq<EntityRef>)
    requires j < |es|
    ensures var rest := Filter(es[j + 1..], p) + later;
      Filter(es[j..], p) + later == (if p(es[j]) then [es[j]] else []) + rest
      && ([es[j]] + rest)[1..] == rest && [] + rest == rest
  {
    hide Filter;
    var tail := Filter(es[j + 1..], p);
    var head := if p(es[j]) then [es[j]] else [];
    FilterAt(es, j, p);
    assert (head + tail) + later == head + (tail + later);
  }

  lemma FilterAt(es: seq<EntityRef>, j: nat, p: EntityRef -> bool)
    requires j < |es|
    ensures Filter(es[j..], p) == (if p(es[j]) then [es[j]] else []) + Filter(es[j + 1..], p)
  {
    assert es[j..][0] == es[j] && es[j..][1..] == es[j + 1..];
  }

  lemma OpenMeans(env: Env, d: Docs, file: string, uri: string)
    ensures var s := OpenStep(env, d, file, uri);
      && (forall files :: Founded(env, files, d.open) && file in files && uri == FileUri(env, file) && s.result.Ok? ==>
            Founded(env, files, s.docs.open) && (AliasesAgree(env, files) ==> s.result.value == Openable(env, file)))
      && forall home :: uri != home && Heard(d, home) && s.result.Ok? ==> Heard(s.docs, home)
  {
    hide Founded, AliasesAgree, Heard, Disciplined, OpenStep, Openable;
    forall files | Founded(env, files, d.open) && file in files && uri == FileUri(env, file)
      && OpenStep(env, d, file, uri).result.Ok?
      ensures var s := OpenStep(env, d, file, uri);
        Founded(env, files, s.docs.open) && (AliasesAgree(env, files) ==> s.result.value == Openable(env, file))
    {
      OpenStepFounded(env, files, d, file);
    }
    forall home | uri != home && Heard(d, home) && OpenStep(env, d, file, uri).result.Ok?
      ensures Heard(OpenStep(env, d, file, uri).docs, home)
    {
      OpenHeard(env, d, file, uri, home);
    }
  }

  lemma AskMeans(env: Env, d: Docs, m: Method, uri: string, line: u32, col: nat)
    ensures forall home :: (uri == home || uri in d.open) && Heard(d, home) ==>
      Heard(Ask(env, d, m, uri, line, col).docs, home)
  {
    hide Heard, Ask;
    forall home | (uri == home || uri in d.open) && Heard(d, home)
      ensures Heard(Ask(env, d, m, uri, line, col).docs, home)
    {
      AskHeard(env, d, m, uri, line, col, home);
    }
  }

  lemma ExamineMeans(env: Env, d: Docs, enriched: string, member: seq<Location>, c: EntityRef)
    ensures var s := Examine(env, d, enriched, member, c); s.result.Ok? ==>
      && (Qualifies(env, enriched, member, c) ==> s.result.value)
      && (forall files :: Founded(env, files, d.open) && (c.filePath == enriched || c.filePath in files) ==>
            Founded(env, files, s.docs.open) && (AliasesAgree(env, files) ==> s.result.value == Qualifies(env,
                enriched, member, c)))
      && ((c.filePath == enriched || !Opens(env, c.filePath, FileUri(env, enriched))) && Heard(d, FileUri(env, enriched)) ==>
            Heard(s.docs, FileUri(env, enriched)))
  {
    hide Founded, AliasesAgree, Qualifies, Heard, Disciplined, Examine, Opens, FileUri;
    var s := Examine(env, d, enriched, member, c);
    ExamineMeaning(env, iset{}, d, enriched, member, c);
    forall files | Founded(env, files, d.open) && (c.filePath == enriched || c.filePath in files) && s.result.Ok?
      ensures Founded(env, files, s.docs.open)
      ensures AliasesAgree(env, files) ==> s.result.value == Qualifies(env, enriched, member, c)
    {
      ExamineMeaning(env, files, d, enriched, member, c);
    }
    if (c.filePath == enriched || !Opens(env, c.filePath, FileUri(env, enriched))) && Heard(d, FileUri(env, enriched)) {
      ExamineHeard(env, d, enriched, member, c);
    }
  }
}
