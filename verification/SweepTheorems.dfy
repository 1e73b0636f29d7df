/** The line gate changes nothing but the traffic, and what a pass's edges rest on. */
module SweepTheorems {
  import opened Wrappers
  import opened StableSort
  import opened EntityIndex
  import opened Scanner
  import opened Join
  import opened JoinTheorems
  import opened Sweep

  // ---- the requests of a log ------------------------------------------------

  function Queries(log: seq<Event>): seq<Event> { Filter(log, (e: Event) => e.Asked?) }

  /** `a` is what is left of `b` after leaving some elements out. */
  ghost predicate Subsequence(a: seq<Event>, b: seq<Event>)
    decreases |b|
  {
    || a == []
    || (b != [] && Subsequence(a, b[..|b| - 1]))
    || (b != [] && a[|a| - 1] == b[|b| - 1] && Subsequence(a[..|a| - 1], b[..|b| - 1]))
  }

  lemma QueriesSnoc(log: seq<Event>, e: Event)
    ensures Queries(log + [e]) == if e.Asked? then Queries(log) + [e] else Queries(log)
  {
    FilterSnoc(log, e, (x: Event) => x.Asked?);
    assert Queries(log) + [] == Queries(log);
  }

  // ---- when the gate could show ---------------------------------------------

  /** The member reader can read this name somewhere. */
  ghost predicate Readable(k: Classes, name: string)
  {
    && (forall i :: 0 <= i < |name| ==> WordChar(k, name[i]))
    && if name == [] then exists c :: StartChar(k, c) && !WordChar(k, c) else StartChar(k, name[0])
  }

  lemma MemberIsReadable(k: Classes, text: string, col: nat)
    requires MemberAt(k, text, col).Some?
    ensures Readable(k, MemberAt(k, text, col).value.name)
  {
    var start := WordEnd(k, text, col) + 1;
    assert StartChar(k, text[start]);
  }

  /** An entity of the index, in another file than the enriched one, that a member can name. */
  ghost predicate Reachable(p: Pass, e: EntityRef)
  {
    && (exists k :: k in p.env.index.byFile && e in p.env.index.byFile[k])
    && e.filePath != p.path && Readable(p.classes, e.name)
  }

  /** The files such entities lie in. */
  ghost predicate WithinReach(p: Pass, file: string) { exists e :: Reachable(p, e) && e.filePath == file }

  ghost function Reach(p: Pass): iset<string> { iset file | WithinReach(p, file) }

  /** Modules can be told, and some line has no source. */
  ghost predicate CanDiverge(p: Pass)
    requires Ordered(p.env.index)
  {
    && p.env.hasTypeDefinition && p.path != ""
    && exists a: u32 :: FindAt(p.env.index, p.uri, a).None?
  }

  /** The file of `e` can be opened, and that of `f`, under the same uri, cannot; and a line has a
      source that is not `f`. */
  ghost predicate Betrays(p: Pass, e: EntityRef, f: EntityRef, b: u32)
    requires Ordered(p.env.index)
  {
    && Reachable(p, e) && Reachable(p, f)
    && Opens(p.env, e.filePath, FileUri(p.env, f.filePath)) && !Openable(p.env, f.filePath)
    && FindAt(p.env.index, p.uri, b).Some? && FindAt(p.env.index, p.uri, b).value.id != f.id
  }

  ghost predicate GateCanShow(p: Pass)
    requires Ordered(p.env.index)
  {
    p.env.hasDefinition && CanDiverge(p) && exists e, f, b :: Betrays(p, e, f, b)
  }

  /** Where aliases agree it cannot. */
  lemma AgreementHidesGate(p: Pass)
    requires Ordered(p.env.index) && AliasesAgree(p.env, Reach(p))
    ensures !GateCanShow(p)
  {
    hide FileUri, Openable, Opens, FindAt, Readable;
    forall e, f, b ensures !Betrays(p, e, f, b)
    {
      if Reachable(p, e) && Reachable(p, f) {
        assert e.filePath in Reach(p) && f.filePath in Reach(p);
      }
    }
  }

  lemma ReachIsOthers(p: Pass, file: string)
    requires file in Reach(p)
    ensures file in Others(p.env, p.path)
  {
    var e :| Reachable(p, e) && e.filePath == file;
    var k :| k in p.env.index.byFile && e in p.env.index.byFile[k];
    var i :| 0 <= i < |p.env.index.byFile[k]| && p.env.index.byFile[k][i] == e;
  }

  /** In an index of relative paths, as the graph's are, or of absolute ones, the gate cannot show. */
  lemma UniformPathsHideGate(p: Pass)
    requires Ordered(p.env.index)
    requires (forall f :: Indexed(p.env, f) ==> !Absolute(f)) || (forall f :: Indexed(p.env, f) ==> Absolute(f))
    ensures !GateCanShow(p)
  {
    hide GateCanShow, Reach, Opens, Openable, FileUri, Indexed;
    UniformPathsAgree(p.env, p.path);
    forall file | file in Reach(p) ensures file in Others(p.env, p.path) { ReachIsOthers(p, file); }
    AgreementHidesGate(p);
  }

  lemma CandidatesReachable(p: Pass, modules: seq<Location>, name: string)
    requires Ordered(p.env.index) && Readable(p.classes, name)
    ensures forall c :: c in Candidates(p.env, modules, name) ==> c.filePath == p.path || Reachable(p, c)
  {
    hide Readable;
    forall c | c in Candidates(p.env, modules, name) ensures c.filePath == p.path || Reachable(p, c)
    {
      CandidatesListed(p.env, modules, name, c);
    }
  }

  // ---- both passes take the step --------------------------------------------

  /** The gated pass `g` against the ungated `u`: it opened no more, less only if it can diverge, and
      asked a subsequence; whatever is open was opened for a file within reach. */
  ghost predicate Behind(p: Pass, g: Docs, u: Docs)
    requires Ordered(p.env.index)
  {
    && g.open <= u.open && (g.open == u.open || CanDiverge(p))
    && Founded(p.env, Reach(p), u.open)
    && Subsequence(Queries(g.log), Queries(u.log))
  }

  /** The same answer, and still behind. */
  ghost predicate Mirrors<T(!new)>(p: Pass, g: Step<T>, u: Step<T>)
    requires Ordered(p.env.index)
  {
    u.result.Ok? ==> g.result == u.result && Behind(p, g.docs, u.docs)
  }

  /** The same verdict, unless on the source itself. */
  ghost predicate MirrorsBut(p: Pass, g: Step<bool>, u: Step<bool>, spared: bool)
    requires Ordered(p.env.index)
  {
    u.result.Ok? ==> (g.result == u.result || (spared && g.result == Ok(false))) && Behind(p, g.docs, u.docs)
  }

  /** Both passes are at a line with a source, and the gate cannot show. */
  ghost predicate AtSource(p: Pass, line: u32, source: EntityRef)
  {
    && Ordered(p.env.index) && p.env.hasDefinition && !GateCanShow(p)
    && FindAt(p.env.index, p.uri, line) == Some(source)
  }

  lemma AskMirrors(p: Pass, g: Docs, u: Docs, m: Method, uri: string, line: u32, col: nat)
    requires Ordered(p.env.index) && Behind(p, g, u)
    ensures Mirrors(p, Ask(p.env, g, m, uri, line, col), Ask(p.env, u, m, uri, line, col))
  {
    hide Founded, Queries, CanDiverge;
    var e := Asked(m, uri, line, col);
    QueriesSnoc(g.log, e);
    QueriesSnoc(u.log, e);
    var a, b := Queries(g.log), Queries(u.log);
    assert (a + [e])[..|a|] == a && (b + [e])[..|b|] == b;
  }

  /** A file the ungated pass holds open already, the gated one can open now, or it is the source's. */
  lemma OpenMirrors(p: Pass, g: Docs, u: Docs, c: EntityRef, line: u32, source: EntityRef)
    requires AtSource(p, line, source) && Behind(p, g, u) && Reachable(p, c)
    ensures var uri := FileUri(p.env, c.filePath);
      MirrorsBut(p, OpenStep(p.env, g, c.filePath, uri), OpenStep(p.env, u, c.filePath, uri), c.id == source.id)
  {
    hide Queries, FileUri, Openable, Readable, FindAt, CanDiverge, Subsequence;
    var uri := FileUri(p.env, c.filePath);
    assert c.filePath in Reach(p);
    OpenStepFounded(p.env, Reach(p), u, c.filePath);
    QueriesSnoc(g.log, Opened(uri));
    QueriesSnoc(u.log, Opened(uri));
    if uri in u.open && uri !in g.open {
      var file :| file in Reach(p) && Opens(p.env, file, uri);
      var e :| Reachable(p, e) && e.filePath == file;
      assert !Betrays(p, e, c, line);
    }
  }

  lemma ExamineMirrors(p: Pass, g: Docs, u: Docs, member: seq<Location>, c: EntityRef, line: u32, source: EntityRef)
    requires AtSource(p, line, source) && Behind(p, g, u) && (c.filePath == p.path || Reachable(p, c))
    ensures MirrorsBut(p, Examine(p.env, g, p.path, member, c), Examine(p.env, u, p.path, member, c), c.id == source.id)
  {
    hide Behind, OpenStep, Ask, GateCanShow, Reachable, FileUri;
    var uri := FileUri(p.env, c.filePath);
    if c.filePath == p.path {
      AskMirrors(p, g, u, Definition, uri, c.nameLine, c.nameCol);
    } else {
      OpenMirrors(p, g, u, c, line, source);
      var a, b := OpenStep(p.env, g, c.filePath, uri), OpenStep(p.env, u, c.filePath, uri);
      if b.result.Ok? {
        AskMirrors(p, a.docs, b.docs, Definition, uri, c.nameLine, c.nameCol);
        AskPasses(p, a.docs, b.docs, Definition, uri, c.nameLine, c.nameCol);
      }
    }
  }

  function Unlike(id: nat): EntityRef -> bool { (e: EntityRef) => e.id != id }

  /** The two lists differ at most in entities with this id. */
  ghost predicate SameBut(id: nat, a: seq<EntityRef>, b: seq<EntityRef>) { Filter(a, Unlike(id)) == Filter(b, Unlike(id)) }

  lemma IdsSurvive(id: nat, es: seq<EntityRef>, other: nat)
    requires other != id
    ensures HasId(Filter(es, Unlike(id)), other) <==> HasId(es, other)
  {
    var kept := Filter(es, Unlike(id));
    if i :| 0 <= i < |es| && es[i].id == other {
      assert es[i] in kept;
      var j :| 0 <= j < |kept| && kept[j] == es[i];
    }
    if i :| 0 <= i < |kept| && kept[i].id == other {
      assert kept[i] in es;
      var j :| 0 <= j < |es| && es[j] == kept[i];
    }
  }

  function Add(bound: seq<EntityRef>, proven: bool, c: EntityRef): seq<EntityRef>
  {
    if proven && !HasId(bound, c.id) then bound + [c] else bound
  }

  lemma AddKeepsSame(id: nat, a: seq<EntityRef>, b: seq<EntityRef>, v: bool, w: bool, c: EntityRef)
    requires SameBut(id, a, b) && (v == w || c.id == id)
    ensures SameBut(id, Add(a, v, c), Add(b, w, c))
  {
    hide Filter, HasId;
    FilterSnoc(a, c, Unlike(id));
    FilterSnoc(b, c, Unlike(id));
    assert Filter(a, Unlike(id)) + [] == Filter(a, Unlike(id)) && Filter(b, Unlike(id)) + [] == Filter(b, Unlike(id));
    if c.id != id {
      IdsSurvive(id, a, c.id);
      IdsSurvive(id, b, c.id);
    }
  }

  /** What the two joins return is the same, but for entities that are the source. */
  ghost predicate BoundMirrors(p: Pass, g: Step<seq<EntityRef>>, u: Step<seq<EntityRef>>, source: EntityRef)
    requires Ordered(p.env.index)
  {
    u.result.Ok? ==> g.result.Ok? && SameBut(source.id, g.result.value, u.result.value) && Behind(p, g.docs, u.docs)
  }

  lemma {:induction false} JoinAllMirrors(p: Pass, g: Docs, u: Docs, member: seq<Location>, candidates: seq<EntityRef>,
                                          a: seq<EntityRef>, b: seq<EntityRef>, line: u32, source: EntityRef)
    requires AtSource(p, line, source) && Behind(p, g, u) && SameBut(source.id, a, b)
    requires forall c :: c in candidates ==> c.filePath == p.path || Reachable(p, c)
    ensures BoundMirrors(p, JoinAll(p.env, g, p.path, member, candidates, a),
                         JoinAll(p.env, u, p.path, member, candidates, b), source)
    decreases |candidates|
  {
    hide Behind, Examine, GateCanShow, Reachable, SameBut, FindAt;
    if candidates != [] {
      var c := candidates[0];
      ExamineMirrors(p, g, u, member, c, line, source);
      var s, t := Examine(p.env, g, p.path, member, c), Examine(p.env, u, p.path, member, c);
      if t.result.Ok? {
        AddKeepsSame(source.id, a, b, s.result.value, t.result.value, c);
        JoinAllMirrors(p, s.docs, t.docs, member, candidates[1..],
                       Add(a, s.result.value, c), Add(b, t.result.value, c), line, source);
      }
    }
  }

  lemma BindingsMirror(p: Pass, g: Docs, u: Docs, line: u32, receiverCol: nat, memberCol: nat, name: string, source: EntityRef)
    requires AtSource(p, line, source) && Behind(p, g, u) && Readable(p.classes, name)
    ensures BoundMirrors(p, Bindings(p.env, g, p.path, p.uri, line, receiverCol, memberCol, name),
                         Bindings(p.env, u, p.path, p.uri, line, receiverCol, memberCol, name), source)
  {
    hide Behind, Ask, JoinAll, Candidates, GateCanShow, Reachable, Readable, FindAt;
    var env := p.env;
    AskMirrors(p, g, u, TypeDefinition, p.uri, line, receiverCol);
    var a, b := Ask(env, g, TypeDefinition, p.uri, line, receiverCol), Ask(env, u, TypeDefinition, p.uri, line, receiverCol);
    if b.result.Ok? {
      AskMirrors(p, a.docs, b.docs, Definition, p.uri, line, memberCol);
      var a', b' := Ask(env, a.docs, Definition, p.uri, line, memberCol), Ask(env, b.docs, Definition, p.uri, line, memberCol);
      if b'.result.Ok? {
        CandidatesReachable(p, b.result.value, name);
        JoinAllMirrors(p, a'.docs, b'.docs, b'.result.value, Candidates(env, b.result.value, name), [], [], line, source);
      }
    }
  }

  /** Entities that are the source are not pushed. */
  lemma {:induction false} SourceIsSkipped(t: Tally, source: EntityRef, cs: seq<EntityRef>, line: u32, col: nat)
    ensures PushMembers(t, Some(source), cs, line, col)
         == PushMembers(t, Some(source), Filter(cs, Unlike(source.id)), line, col)
    decreases |cs|
  {
    if cs != [] {
      var more := PushMember(t, Some(source), cs[0], line, col);
      SourceIsSkipped(more, source, cs[1..], line, col);
      var rest := Filter(cs[1..], Unlike(source.id));
      assert ([cs[0]] + rest)[1..] == rest && [] + rest == rest;
    }
  }

  lemma ModuleMirrors(p: Pass, g: Docs, u: Docs, t: Tally, source: EntityRef, m: Member, line: u32, col: nat)
    requires AtSource(p, line, source) && Behind(p, g, u) && Readable(p.classes, m.name)
    ensures Mirrors(p, AtModule(p, g, t, Some(source), m, line, col), AtModule(p, u, t, Some(source), m, line, col))
  {
    hide Behind, Bindings, GateCanShow, Readable, FindAt, PushMembers, Filter;
    BindingsMirror(p, g, u, line, col, m.column, m.name, source);
    var a := Bindings(p.env, g, p.path, p.uri, line, col, m.column, m.name);
    var b := Bindings(p.env, u, p.path, p.uri, line, col, m.column, m.name);
    if b.result.Ok? {
      SourceIsSkipped(t, source, a.result.value, line, m.column);
      SourceIsSkipped(t, source, b.result.value, line, m.column);
    }
  }

  lemma ColumnMirrors(p: Pass, g: Docs, u: Docs, t: Tally, source: EntityRef, text: string, line: u32, col: nat)
    requires AtSource(p, line, source) && Behind(p, g, u)
    ensures Mirrors(p, AtColumn(p, g, t, Some(source), text, line, col), AtColumn(p, u, t, Some(source), text, line, col))
  {
    hide Behind, Ask, AtModule, PushDefinitions, ReceiverNamesModule, MemberAt, GateCanShow, Readable, FindAt;
    AskMirrors(p, g, u, Definition, p.uri, line, col);
    var a, b := Ask(p.env, g, Definition, p.uri, line, col), Ask(p.env, u, Definition, p.uri, line, col);
    if b.result.Ok? {
      AskMirrors(p, a.docs, b.docs, Definition, p.uri, line, col);
      match MemberAt(p.classes, text, col) {
        case None =>
        case Some(m) =>
          MemberIsReadable(p.classes, text, col);
          ModuleMirrors(p, a.docs, b.docs, t, source, m, line, col);
      }
    }
  }

  lemma {:induction false} ColumnsMirror(p: Pass, g: Docs, u: Docs, t: Tally, source: EntityRef,
                                         text: string, line: u32, cols: seq<nat>)
    requires AtSource(p, line, source) && Behind(p, g, u)
    ensures Mirrors(p, AtColumns(p, g, t, Some(source), text, line, cols), AtColumns(p, u, t, Some(source), text, line, cols))
    decreases |cols|
  {
    hide Behind, AtColumn, GateCanShow, FindAt;
    if cols != [] {
      ColumnMirrors(p, g, u, t, source, text, line, cols[0]);
      var a := AtColumn(p, g, t, Some(source), text, line, cols[0]);
      var b := AtColumn(p, u, t, Some(source), text, line, cols[0]);
      if b.result.Ok? { ColumnsMirror(p, a.docs, b.docs, b.result.value, source, text, line, cols[1..]); }
    }
  }

  // ---- only the ungated pass takes the step ---------------------------------

  /** The ungated pass moved on, and the gated one is still behind. */
  ghost predicate Passes<T(!new)>(p: Pass, g: Docs, u: Step<T>)
    requires Ordered(p.env.index)
  {
    u.result.Ok? ==> Behind(p, g, u.docs)
  }

  lemma AskPasses(p: Pass, g: Docs, u: Docs, m: Method, uri: string, line: u32, col: nat)
    requires Ordered(p.env.index) && Behind(p, g, u)
    ensures Passes(p, g, Ask(p.env, u, m, uri, line, col))
  {
    hide Founded, Queries, CanDiverge;
    var e := Asked(m, uri, line, col);
    QueriesSnoc(u.log, e);
    var b := Queries(u.log);
    assert (b + [e])[..|b|] == b;
  }

  lemma ExaminePasses(p: Pass, g: Docs, u: Docs, member: seq<Location>, c: EntityRef)
    requires Ordered(p.env.index) && Behind(p, g, u) && CanDiverge(p) && (c.filePath == p.path || Reachable(p, c))
    ensures Passes(p, g, Examine(p.env, u, p.path, member, c))
  {
    hide Founded, Queries, Ask, FileUri, Subsequence, CanDiverge, Openable, Readable;
    var uri := FileUri(p.env, c.filePath);
    if c.filePath == p.path {
      AskPasses(p, g, u, Definition, uri, c.nameLine, c.nameCol);
    } else {
      assert c.filePath in Reach(p);
      OpenStepFounded(p.env, Reach(p), u, c.filePath);
      QueriesSnoc(u.log, Opened(uri));
      var b := OpenStep(p.env, u, c.filePath, uri);
      if b.result.Ok? { AskPasses(p, g, b.docs, Definition, uri, c.nameLine, c.nameCol); }
    }
  }

  lemma {:induction false} JoinAllPasses(p: Pass, g: Docs, u: Docs, member: seq<Location>,
                                         candidates: seq<EntityRef>, bound: seq<EntityRef>)
    requires Ordered(p.env.index) && Behind(p, g, u) && CanDiverge(p)
    requires forall c :: c in candidates ==> c.filePath == p.path || Reachable(p, c)
    ensures Passes(p, g, JoinAll(p.env, u, p.path, member, candidates, bound))
    decreases |candidates|
  {
    hide Behind, Examine, CanDiverge, Reachable;
    if candidates != [] {
      var c := candidates[0];
      ExaminePasses(p, g, u, member, c);
      var b := Examine(p.env, u, p.path, member, c);
      if b.result.Ok? { JoinAllPasses(p, g, b.docs, member, candidates[1..], Add(bound, b.result.value, c)); }
    }
  }

  lemma BindingsPass(p: Pass, g: Docs, u: Docs, line: u32, receiverCol: nat, memberCol: nat, name: string)
    requires Ordered(p.env.index) && Behind(p, g, u) && Readable(p.classes, name)
    requires p.env.hasTypeDefinition ==> CanDiverge(p)
    ensures Passes(p, g, Bindings(p.env, u, p.path, p.uri, line, receiverCol, memberCol, name))
  {
    hide Behind, Ask, Candidates, CanDiverge, Reachable, Readable, Examine;
    var env := p.env;
    AskPasses(p, g, u, TypeDefinition, p.uri, line, receiverCol);
    var b := Ask(env, u, TypeDefinition, p.uri, line, receiverCol);
    AskedOfNobody(env, u, p.uri, line, receiverCol, name);
    if b.result.Ok? {
      AskPasses(p, g, b.docs, Definition, p.uri, line, memberCol);
      var b' := Ask(env, b.docs, Definition, p.uri, line, memberCol);
      if b'.result.Ok? && env.hasTypeDefinition {
        CandidatesReachable(p, b.result.value, name);
        hide JoinAll;
        JoinAllPasses(p, g, b'.docs, b'.result.value, Candidates(env, b.result.value, name), []);
      }
    }
  }

  lemma {:induction false} NothingPushedMembers(t: Tally, cs: seq<EntityRef>, line: u32, col: nat)
    ensures PushMembers(t, None, cs, line, col) == t
    decreases |cs|
  {
    if cs != [] { NothingPushedMembers(t, cs[1..], line, col); }
  }

  lemma {:induction false} NothingPushedDefinitions(p: Pass, t: Tally, ls: seq<Location>, line: u32, col: nat)
    requires Ordered(p.env.index)
    ensures PushDefinitions(p, t, None, ls, line, col) == t
    decreases |ls|
  {
    if ls != [] { NothingPushedDefinitions(p, t, ls[1..], line, col); }
  }

  /** No receiver names a module beside a file without a path. */
  lemma ModulesNeedPath(definitions: seq<Location>, enriched: string)
    requires ReceiverNamesModule(definitions, enriched)
    ensures enriched != ""
  {
  }

  /** Without a source a column leaves the tally alone. */
  lemma ColumnPasses(p: Pass, g: Docs, u: Docs, t: Tally, text: string, line: u32, col: nat)
    requires Ordered(p.env.index) && Behind(p, g, u) && FindAt(p.env.index, p.uri, line).None?
    ensures var s := AtColumn(p, u, t, None, text, line, col);
      Passes(p, g, s) && (s.result.Ok? ==> s.result.value == t)
  {
    hide Behind, Ask, Bindings, PushMembers, PushDefinitions, ReceiverNamesModule, MemberAt, FindAt, Readable;
    forall ls ensures PushDefinitions(p, t, None, ls, line, col) == t
    {
      NothingPushedDefinitions(p, t, ls, line, col);
    }
    AskPasses(p, g, u, Definition, p.uri, line, col);
    var b := Ask(p.env, u, Definition, p.uri, line, col);
    if b.result.Ok? {
      AskPasses(p, g, b.docs, Definition, p.uri, line, col);
      match MemberAt(p.classes, text, col) {
        case None =>
        case Some(m) =>
          if ReceiverNamesModule(b.result.value, p.path) {
            ModulesNeedPath(b.result.value, p.path);
            MemberIsReadable(p.classes, text, col);
            BindingsPass(p, g, b.docs, line, col, m.column, m.name);
          }
          forall cs ensures PushMembers(t, None, cs, line, m.column) == t
          {
            NothingPushedMembers(t, cs, line, m.column);
          }
      }
    }
  }

  lemma {:induction false} ColumnsPass(p: Pass, g: Docs, u: Docs, t: Tally, text: string, line: u32, cols: seq<nat>)
    requires Ordered(p.env.index) && Behind(p, g, u) && FindAt(p.env.index, p.uri, line).None?
    ensures var s := AtColumns(p, u, t, None, text, line, cols);
      Passes(p, g, s) && (s.result.Ok? ==> s.result.value == t)
    decreases |cols|
  {
    hide Behind, AtColumn, FindAt;
    if cols != [] {
      ColumnPasses(p, g, u, t, text, line, cols[0]);
      var b := AtColumn(p, u, t, None, text, line, cols[0]);
      if b.result.Ok? { ColumnsPass(p, g, b.docs, t, text, line, cols[1..]); }
    }
  }

  // ---- the gate -------------------------------------------------------------

  lemma LineMirrors(p: Pass, g: Docs, u: Docs, t: Tally, text: string, line: u32)
    requires Ordered(p.env.index) && p.env.hasDefinition && !GateCanShow(p) && Behind(p, g, u)
    ensures Mirrors(p, AtLine(p, true, g, t, text, line), AtLine(p, false, u, t, text, line))
  {
    hide Behind, AtColumns, FindAt, Positions, GateCanShow;
    var cols := Positions(p.classes, text);
    var counted := t.(queried := t.queried + |cols|);
    match FindAt(p.env.index, p.uri, line) {
      case None => ColumnsPass(p, g, u, counted, text, line, cols);
      case Some(e) => ColumnsMirror(p, g, u, counted, e, text, line, cols);
    }
  }

  lemma {:induction false} LinesMirror(p: Pass, g: Docs, u: Docs, t: Tally, lines: seq<string>, i: nat)
    requires Ordered(p.env.index) && p.env.hasDefinition && !GateCanShow(p) && Behind(p, g, u) && i <= |lines|
    ensures Mirrors(p, AtLines(p, true, g, t, lines, i), AtLines(p, false, u, t, lines, i))
    decreases |lines| - i
  {
    hide Behind, AtLine, GateCanShow;
    if i < |lines| {
      LineMirrors(p, g, u, t, lines[i], LineNumber(i));
      var a, b := AtLine(p, true, g, t, lines[i], LineNumber(i)), AtLine(p, false, u, t, lines[i], LineNumber(i));
      if b.result.Ok? { LinesMirror(p, a.docs, b.docs, b.result.value, lines, i + 1); }
    }
  }

  /** The gate cannot be told from the outcome: whenever asking about every identifier succeeds, the
      gated pass succeeds with the same relations in the same order and the same counters, on a
      subsequence of the requests. */
  ghost predicate Invisible(p: Pass, content: string)
    requires Ordered(p.env.index)
  {
    var g, u := SweepFile(p, true, content), SweepFile(p, false, content);
    u.result.Ok? ==> g.result == u.result && Subsequence(Queries(g.docs.log), Queries(u.docs.log))
  }

  /** It is invisible wherever it cannot show. */
  lemma GateIsInvisible(p: Pass, content: string)
    requires Ordered(p.env.index) && !GateCanShow(p)
    ensures Invisible(p, content)
  {
    hide AtLines, GateCanShow;
    if p.env.hasDefinition {
      assert Behind(p, Docs({}, []), Docs({}, []));
      LinesMirror(p, Docs({}, []), Docs({}, []), NOTHING, Lines(content), 0);
    }
  }

  // ---- discipline over a whole pass -----------------------------------------

  /** Every request so far was about an open document. */
  ghost predicate Orderly<T(!new)>(s: Step<T>, home: string)
  {
    Disciplined(s.docs.log, home) && (s.result.Ok? ==> Heard(s.docs, home))
  }

  /** Something that a member can name lies in a file that can be opened under the enriched file's
      uri, and the pass gets to look for it. */
  ghost predicate HomeCanOpen(p: Pass, gated: bool)
    requires Ordered(p.env.index)
  {
    && p.env.hasDefinition && p.env.hasTypeDefinition && p.path != ""
    && (gated ==> exists b: u32 :: FindAt(p.env.index, p.uri, b).Some?)
    && exists e :: Reachable(p, e) && Opens(p.env, e.filePath, p.uri)
  }

  ghost predicate AtHome(p: Pass) { Ordered(p.env.index) && p.uri == FileUri(p.env, p.path) }

  /** What the pass needs to know at a line it does not skip. */
  ghost predicate SafeHome(p: Pass)
  {
    && AtHome(p)
    && (p.env.hasTypeDefinition && p.path != "" ==> forall e :: Reachable(p, e) ==> !Opens(p.env, e.filePath, p.uri))
  }

  lemma AskOrderly(p: Pass, d: Docs, m: Method, line: u32, col: nat)
    requires Heard(d, p.uri)
    ensures Orderly(Ask(p.env, d, m, p.uri, line, col), p.uri) && Heard(Ask(p.env, d, m, p.uri, line, col).docs, p.uri)
  {
    hide Heard, Disciplined, Ask;
    AskHeard(p.env, d, m, p.uri, line, col, p.uri);
    HeardIsDisciplined(Ask(p.env, d, m, p.uri, line, col).docs, p.uri);
  }

  lemma MemberLeavesHome(p: Pass, name: string)
    requires SafeHome(p) && Readable(p.classes, name) && p.path != "" && p.env.hasTypeDefinition
    ensures NameLeavesHome(p.env, name, p.path)
  {
    hide Readable, Opens, FileUri;
    forall k, e | k in p.env.index.byFile && e in p.env.index.byFile[k] && e.name == name && e.filePath != p.path
      ensures !Opens(p.env, e.filePath, FileUri(p.env, p.path))
    {
      assert Reachable(p, e);
    }
  }

  lemma ColumnOrderly(p: Pass, d: Docs, t: Tally, source: Option<EntityRef>, text: string, line: u32, col: nat)
    requires SafeHome(p) && Heard(d, p.uri)
    ensures Orderly(AtColumn(p, d, t, source, text, line, col), p.uri)
  {
    hide Heard, Disciplined, Ask, Bindings, PushMembers, PushDefinitions, ReceiverNamesModule, MemberAt, FileUri,
         Readable, NameLeavesHome;
    AskOrderly(p, d, Definition, line, col);
    var b := Ask(p.env, d, Definition, p.uri, line, col);
    AskOrderly(p, b.docs, Definition, line, col);
    match MemberAt(p.classes, text, col) {
      case None =>
      case Some(m) =>
        if b.result.Ok? && ReceiverNamesModule(b.result.value, p.path) {
          ModulesNeedPath(b.result.value, p.path);
          MemberIsReadable(p.classes, text, col);
          if p.env.hasTypeDefinition { MemberLeavesHome(p, m.name); }
          JoinIsDisciplined(p.env, b.docs, p.path, line, col, m.column, m.name);
        }
    }
  }

  lemma {:induction false} ColumnsOrderly(p: Pass, d: Docs, t: Tally, source: Option<EntityRef>,
                                          text: string, line: u32, cols: seq<nat>)
    requires SafeHome(p) && Ordered(p.env.index) && Heard(d, p.uri)
    ensures Orderly(AtColumns(p, d, t, source, text, line, cols), p.uri)
    decreases |cols|
  {
    hide Heard, Disciplined, AtColumn, SafeHome;
    HeardIsDisciplined(d, p.uri);
    if cols != [] {
      ColumnOrderly(p, d, t, source, text, line, cols[0]);
      var b := AtColumn(p, d, t, source, text, line, cols[0]);
      if b.result.Ok? { ColumnsOrderly(p, b.docs, b.result.value, source, text, line, cols[1..]); }
    }
  }

  lemma {:induction false} LinesOrderly(p: Pass, gated: bool, d: Docs, t: Tally, lines: seq<string>, i: nat)
    requires AtHome(p) && Heard(d, p.uri) && i <= |lines|
    requires (exists b: u32 :: FindAt(p.env.index, p.uri, b).Some?) || !gated ==> SafeHome(p)
    ensures Orderly(AtLines(p, gated, d, t, lines, i), p.uri)
    decreases |lines| - i
  {
    hide Heard, Disciplined, AtColumns, FindAt, Positions, SafeHome, FileUri;
    HeardIsDisciplined(d, p.uri);
    if i < |lines| {
      var cols := Positions(p.classes, lines[i]);
      var source := FindAt(p.env.index, p.uri, LineNumber(i));
      if source.Some? || !gated {
        ColumnsOrderly(p, d, t.(queried := t.queried + |cols|), source, lines[i], LineNumber(i), cols);
      }
      var b := AtLine(p, gated, d, t, lines[i], LineNumber(i));
      if b.result.Ok? { LinesOrderly(p, gated, b.docs, b.result.value, lines, i + 1); }
    }
  }

  /** Over a whole pass, whether it succeeds or fails: no request about another file before that
      file's open was acknowledged, the enriched file never opened, no file opened twice. */
  lemma SweepIsDisciplined(p: Pass, gated: bool, content: string)
    requires AtHome(p) && !HomeCanOpen(p, gated)
    ensures Disciplined(SweepFile(p, gated, content).docs.log, p.uri)
  {
    hide AtLines, Reachable, Opens, FindAt, FileUri;
    if p.env.hasDefinition {
      LinesOrderly(p, gated, Docs({}, []), NOTHING, Lines(content), 0);
    }
  }

  // ---- what the edges rest on -----------------------------------------------

  /** The relation's source is the innermost entity on a line of the file, its column is one the
      scanner reports there, and it is no self-edge. */
  ghost predicate Grounded(p: Pass, lines: seq<string>, r: Relation)
    requires Ordered(p.env.index)
  {
    && r.src != r.dst
    && exists i :: 0 <= i < |lines| && r.line == LineNumber(i) && r.col in Positions(p.classes, lines[i])
         && FindAt(p.env.index, p.uri, r.line).Some? && FindAt(p.env.index, p.uri, r.line).value.id == r.src
  }

  predicate Carries(r: Relation, e: Edge)
  {
    r.src == e.src && r.dst == e.dst && (e.tag == MemberOnModule <==> r.rule == LspMemberOnModule)
  }

  /** `edges` lists the edges seen, each once, in the order their relations were pushed. */
  ghost predicate Pairs(t: Tally, edges: seq<Edge>)
  {
    && |edges| == |t.relations|
    && (forall i :: 0 <= i < |edges| ==> Carries(t.relations[i], edges[i]))
    && (forall i, j :: 0 <= i < j < |edges| ==> edges[i] != edges[j])
    && (forall e :: e in edges <==> e in t.seen)
  }

  /** One relation per edge seen, never more relations than resolutions, all grounded. */
  ghost predicate Sound(p: Pass, lines: seq<string>, t: Tally)
    requires Ordered(p.env.index)
  {
    && |t.relations| <= t.resolved
    && (exists edges :: Pairs(t, edges))
    && forall r :: r in t.relations ==> Grounded(p, lines, r)
  }

  /** A new edge on a reported column of a line with a source. */
  lemma PushSound(p: Pass, lines: seq<string>, t: Tally, source: EntityRef, dst: nat, tag: Tag, rule: Rule, i: nat, col: nat)
    requires Ordered(p.env.index) && Sound(p, lines, t) && i < |lines| && source.id != dst
    requires FindAt(p.env.index, p.uri, LineNumber(i)) == Some(source) && col in Positions(p.classes, lines[i])
    requires tag == MemberOnModule <==> rule == LspMemberOnModule
    requires Edge(source.id, dst, tag) !in t.seen
    ensures Sound(p, lines, t.(seen := t.seen + {Edge(source.id, dst, tag)}, resolved := t.resolved + 1,
                    relations := t.relations + [Relation(source.id, dst, rule, LineNumber(i), col)]))
  {
    hide FindAt, Positions;
    var e := Edge(source.id, dst, tag);
    var r := Relation(source.id, dst, rule, LineNumber(i), col);
    var u := t.(seen := t.seen + {e}, resolved := t.resolved + 1, relations := t.relations + [r]);
    assert Grounded(p, lines, r);
    var edges :| Pairs(t, edges);
    assert Pairs(u, edges + [e]) by {
      assert forall i :: 0 <= i < |edges| ==> edges[i] in edges;
    }
  }

  lemma {:induction false} MembersSound(p: Pass, lines: seq<string>, t: Tally, source: EntityRef,
                                        cs: seq<EntityRef>, i: nat, col: nat)
    requires Ordered(p.env.index) && Sound(p, lines, t) && i < |lines|
    requires FindAt(p.env.index, p.uri, LineNumber(i)) == Some(source) && col in Positions(p.classes, lines[i])
    ensures Sound(p, lines, PushMembers(t, Some(source), cs, LineNumber(i), col))
    decreases |cs|
  {
    hide FindAt, Positions, Sound;
    if cs != [] {
      if cs[0].id != source.id && Edge(source.id, cs[0].id, MemberOnModule) !in t.seen {
        PushSound(p, lines, t, source, cs[0].id, MemberOnModule, LspMemberOnModule, i, col);
      }
      MembersSound(p, lines, PushMember(t, Some(source), cs[0], LineNumber(i), col), source, cs[1..], i, col);
    }
  }

  lemma ResolvedSound(p: Pass, lines: seq<string>, t: Tally)
    requires Ordered(p.env.index) && Sound(p, lines, t)
    ensures Sound(p, lines, t.(resolved := t.resolved + 1))
  {
    hide Grounded;
    var edges :| Pairs(t, edges);
    assert Pairs(t.(resolved := t.resolved + 1), edges);
  }

  lemma QueriedSound(p: Pass, lines: seq<string>, t: Tally, n: nat)
    requires Ordered(p.env.index) && Sound(p, lines, t)
    ensures Sound(p, lines, t.(queried := n))
  {
    hide Grounded;
    var edges :| Pairs(t, edges);
    assert Pairs(t.(queried := n), edges);
  }

  lemma {:induction false} DefinitionsSound(p: Pass, lines: seq<string>, t: Tally, source: EntityRef,
                                            ls: seq<Location>, i: nat, col: nat)
    requires Ordered(p.env.index) && Sound(p, lines, t) && i < |lines|
    requires FindAt(p.env.index, p.uri, LineNumber(i)) == Some(source) && col in Positions(p.classes, lines[i])
    ensures Sound(p, lines, PushDefinitions(p, t, Some(source), ls, LineNumber(i), col))
    decreases |ls|
  {
    hide FindAt, Positions, Sound, Within;
    if ls != [] {
      var target := FindAt(p.env.index, ls[0].uri, ls[0].line);
      var tag := if Within(ls[0].uri, p.path) then SameFile else CrossFile;
      ResolvedSound(p, lines, t);
      if target.Some? && target.value.id != source.id && Edge(source.id, target.value.id, tag) !in t.seen {
        PushSound(p, lines, t, source, target.value.id, tag, LspDefinition, i, col);
      }
      DefinitionsSound(p, lines, PushDefinition(p, t, Some(source), ls[0], LineNumber(i), col), source, ls[1..], i, col);
    }
  }

  /** A member's column is itself a reported one. */
  lemma ColumnSound(p: Pass, lines: seq<string>, d: Docs, t: Tally, source: EntityRef, i: nat, col: nat)
    requires Ordered(p.env.index) && Sane(p.classes) && Sound(p, lines, t) && i < |lines|
    requires FindAt(p.env.index, p.uri, LineNumber(i)) == Some(source) && col in Positions(p.classes, lines[i])
    ensures var s := AtColumn(p, d, t, Some(source), lines[i], LineNumber(i), col);
      s.result.Ok? ==> Sound(p, lines, s.result.value)
  {
    hide FindAt, Positions, Sound, Ask, Bindings, PushMembers, PushDefinitions, ReceiverNamesModule, MemberAt;
    forall ls ensures Sound(p, lines, PushDefinitions(p, t, Some(source), ls, LineNumber(i), col))
    {
      DefinitionsSound(p, lines, t, source, ls, i, col);
    }
    match MemberAt(p.classes, lines[i], col) {
      case None =>
      case Some(m) =>
        ScannerAndReaderAgree(p.classes, lines[i], col);
        forall cs ensures Sound(p, lines, PushMembers(t, Some(source), cs, LineNumber(i), m.column))
        {
          MembersSound(p, lines, t, source, cs, i, m.column);
        }
    }
  }

  lemma {:induction false} ColumnsSound(p: Pass, lines: seq<string>, d: Docs, t: Tally, source: EntityRef,
                                        i: nat, cols: seq<nat>)
    requires Ordered(p.env.index) && Sane(p.classes) && Sound(p, lines, t) && i < |lines|
    requires FindAt(p.env.index, p.uri, LineNumber(i)) == Some(source)
    requires forall a :: 0 <= a < |cols| ==> cols[a] in Positions(p.classes, lines[i])
    ensures var s := AtColumns(p, d, t, Some(source), lines[i], LineNumber(i), cols);
      s.result.Ok? ==> Sound(p, lines, s.result.value)
    decreases |cols|
  {
    hide FindAt, Positions, Sound, AtColumn;
    if cols != [] {
      ColumnSound(p, lines, d, t, source, i, cols[0]);
      var b := AtColumn(p, d, t, Some(source), lines[i], LineNumber(i), cols[0]);
      if b.result.Ok? { ColumnsSound(p, lines, b.docs, b.result.value, source, i, cols[1..]); }
    }
  }

  lemma {:induction false} LinesSound(p: Pass, d: Docs, t: Tally, lines: seq<string>, i: nat)
    requires Ordered(p.env.index) && Sane(p.classes) && Sound(p, lines, t) && i <= |lines|
    ensures var s := AtLines(p, true, d, t, lines, i); s.result.Ok? ==> Sound(p, lines, s.result.value)
    decreases |lines| - i
  {
    hide FindAt, Positions, Sound, AtColumns;
    if i < |lines| {
      var cols := Positions(p.classes, lines[i]);
      var counted := t.(queried := t.queried + |cols|);
      QueriedSound(p, lines, t, t.queried + |cols|);
      match FindAt(p.env.index, p.uri, LineNumber(i)) {
        case None =>
        case Some(source) => ColumnsSound(p, lines, d, counted, source, i, cols);
      }
      var b := AtLine(p, true, d, t, lines[i], LineNumber(i));
      if b.result.Ok? { LinesSound(p, b.docs, b.result.value, lines, i + 1); }
    }
  }

  /** What a successful pass returns: one relation per edge seen, no more than it counts resolved,
      each leaving the innermost entity on the line it was asked at, from a reported
      column of that line, and never to itself. */
  lemma EdgesAreGrounded(p: Pass, content: string)
    requires Ordered(p.env.index) && Sane(p.classes) && SweepFile(p, true, content).result.Ok?
    ensures Sound(p, Lines(content), SweepFile(p, true, content).result.value)
  {
    hide AtLines;
    assert Pairs(NOTHING, []);
    LinesSound(p, Docs({}, []), NOTHING, Lines(content), 0);
  }
}
