/** The per-file definition pass of src/file_enrichment.rs: one request per identifier, a line's
    source entity looked up before its requests, edges deduplicated as they are pushed.

    `gated` is the pass as written. With `gated` false it is the reference form that asks about
    every identifier and looks the source up only when an edge is to be pushed. */
module Sweep {
  import opened Wrappers
  import opened EntityIndex
  import opened Scanner
  import opened Join
  import opened Enrichment

  /** What one pass is given: the file's uri and its path relative to the workspace. */
  datatype Pass = Pass(env: Env, classes: Classes, uri: string, path: string)

  datatype Tag = SameFile | CrossFile | MemberOnModule

  datatype Edge = Edge(src: nat, dst: nat, tag: Tag)

  /** The rule a relation's evidence names; it fixes the confidence as well. */
  datatype Rule = LspDefinition | LspMemberOnModule

  datatype Relation = Relation(src: nat, dst: nat, rule: Rule, line: u32, col: nat)

  datatype Tally = Tally(seen: set<Edge>, relations: seq<Relation>, resolved: nat, queried: nat)

  const NOTHING := Tally({}, [], 0, 0)

  // ---- the text -------------------------------------------------------------

  function LineEnd(text: string): (n: nat)
    ensures n <= |text| && '\n' !in text[..n] && (n < |text| ==> text[n] == '\n')
  {
    if text == [] || text[0] == '\n' then 0
    else
      var n := LineEnd(text[1..]) + 1;
      assert text[..n] == [text[0]] + text[1..][..n - 1];
      n
  }

  function WithoutReturn(line: string): string
  {
    if line != [] && line[|line| - 1] == '\r' then line[..|line| - 1] else line
  }

  /** `str::lines`. */
  function Lines(text: string): seq<string>
    decreases |text|
  {
    if text == [] then []
    else
      var n := LineEnd(text);
      if n == |text| then [text] else [WithoutReturn(text[..n])] + Lines(text[n + 1..])
  }

  /** `line_num as u32`. */
  function LineNumber(i: nat): u32 { i % 0x1_0000_0000 }

  predicate Within(uri: string, path: string)
  {
    exists i :: 0 <= i <= |uri| && path <= uri[i..]
  }

  // ---- pushing edges --------------------------------------------------------

  /** `receiver_names_a_module`: some definition lives in a file other than the enriched one. */
  predicate ReceiverNamesModule(definitions: seq<Location>, enriched: string)
  {
    exists i :: 0 <= i < |definitions| &&
      var path := UriToPath(definitions[i].uri);
      path.Some? && !Matches(path.value, enriched)
  }

  /** A member on a module receiver: its own self-edge and repeats count for nothing. */
  function PushMember(t: Tally, source: Option<EntityRef>, c: EntityRef, line: u32, col: nat): Tally
  {
    if source.None? then t
    else
      var e := Edge(source.value.id, c.id, MemberOnModule);
      if e.src == e.dst || e in t.seen then t
      else t.(seen := t.seen + {e}, resolved := t.resolved + 1,
              relations := t.relations + [Relation(e.src, e.dst, LspMemberOnModule, line, col)])
  }

  function PushMembers(t: Tally, source: Option<EntityRef>, cs: seq<EntityRef>, line: u32, col: nat): Tally
    decreases |cs|
  {
    if cs == [] then t else PushMembers(PushMember(t, source, cs[0], line, col), source, cs[1..], line, col)
  }

  /** A definition: a repeat counts as resolved, and is pushed once. */
  function PushDefinition(p: Pass, t: Tally, source: Option<EntityRef>, at: Location, line: u32, col: nat): Tally
    requires Ordered(p.env.index)
  {
    var target := FindAt(p.env.index, at.uri, at.line);
    if source.None? || target.None? || source.value.id == target.value.id then t
    else
      var e := Edge(source.value.id, target.value.id, if Within(at.uri, p.path) then SameFile else CrossFile);
      var u := t.(resolved := t.resolved + 1);
      if e in t.seen then u
      else u.(seen := t.seen + {e},
              relations := t.relations + [Relation(e.src, e.dst, LspDefinition, line, col)])
  }

  function PushDefinitions(p: Pass, t: Tally, source: Option<EntityRef>, ls: seq<Location>, line: u32, col: nat): Tally
    requires Ordered(p.env.index)
    decreases |ls|
  {
    if ls == [] then t
    else PushDefinitions(p, PushDefinition(p, t, source, ls[0], line, col), source, ls[1..], line, col)
  }

  // ---- the loops ------------------------------------------------------------

  function AtIdentifier(p: Pass, d: Docs, t: Tally, source: Option<EntityRef>, line: u32, col: nat): Step<Tally>
    requires Ordered(p.env.index)
  {
    var asked := Ask(p.env, d, Definition, p.uri, line, col);
    match asked.result
    case Err(e) => Step(Err(e), asked.docs)
    case Ok(ls) => Step(Ok(PushDefinitions(p, t, source, ls, line, col)), asked.docs)
  }

  function AtModule(p: Pass, d: Docs, t: Tally, source: Option<EntityRef>, m: Member, line: u32, col: nat): Step<Tally>
    requires Ordered(p.env.index)
  {
    var bound := Bindings(p.env, d, p.path, p.uri, line, col, m.column, m.name);
    match bound.result
    case Err(e) => Step(Err(e), bound.docs)
    case Ok(cs) => Step(Ok(PushMembers(t, source, cs, line, m.column)), bound.docs)
  }

  function AtColumn(p: Pass, d: Docs, t: Tally, source: Option<EntityRef>, text: string, line: u32, col: nat): Step<Tally>
    requires Ordered(p.env.index)
  {
    match MemberAt(p.classes, text, col)
    case None => AtIdentifier(p, d, t, source, line, col)
    case Some(m) =>
      var receiver := Ask(p.env, d, Definition, p.uri, line, col);
      match receiver.result
      case Err(e) => Step(Err(e), receiver.docs)
      case Ok(definitions) =>
        if ReceiverNamesModule(definitions, p.path) then AtModule(p, receiver.docs, t, source, m, line, col)
        else AtIdentifier(p, receiver.docs, t, source, line, col)
  }

  function AtColumns(p: Pass, d: Docs, t: Tally, source: Option<EntityRef>, text: string, line: u32,
                     cols: seq<nat>): Step<Tally>
    requires Ordered(p.env.index)
    decreases |cols|
  {
    if cols == [] then Step(Ok(t), d)
    else
      var s := AtColumn(p, d, t, source, text, line, cols[0]);
      match s.result
      case Err(e) => s
      case Ok(more) => AtColumns(p, s.docs, more, source, text, line, cols[1..])
  }

  function AtLine(p: Pass, gated: bool, d: Docs, t: Tally, text: string, line: u32): Step<Tally>
    requires Ordered(p.env.index)
  {
    var cols := Positions(p.classes, text);
    var counted := t.(queried := t.queried + |cols|);
    var source := FindAt(p.env.index, p.uri, line);
    if gated && source.None? then Step(Ok(counted), d)
    else AtColumns(p, d, counted, source, text, line, cols)
  }

  function AtLines(p: Pass, gated: bool, d: Docs, t: Tally, lines: seq<string>, i: nat): Step<Tally>
    requires Ordered(p.env.index) && i <= |lines|
    decreases |lines| - i
  {
    if i == |lines| then Step(Ok(t), d)
    else
      var s := AtLine(p, gated, d, t, lines[i], LineNumber(i));
      match s.result
      case Err(e) => s
      case Ok(more) => AtLines(p, gated, s.docs, more, lines, i + 1)
  }

  /** The definition pass over a file. */
  function SweepFile(p: Pass, gated: bool, content: string): Step<Tally>
    requires Ordered(p.env.index)
  {
    if p.env.hasDefinition then AtLines(p, gated, Docs({}, []), NOTHING, Lines(content), 0)
    else Step(Ok(NOTHING), Docs({}, []))
  }

  // ---- the source's loops ---------------------------------------------------

  method PushEachMember(t: Tally, source: EntityRef, cs: seq<EntityRef>, line: u32, col: nat) returns (r: Tally)
    ensures r == PushMembers(t, Some(source), cs, line, col)
  {
    r := t;
    assert cs[0..] == cs;
    var i := 0;
    while i < |cs|
      invariant i <= |cs|
      invariant PushMembers(r, Some(source), cs[i..], line, col) == PushMembers(t, Some(source), cs, line, col)
    {
      var c := cs[i];
      assert cs[i..][0] == c && cs[i..][1..] == cs[i + 1..];
      var e := Edge(source.id, c.id, MemberOnModule);
      if source.id != c.id && e !in r.seen {
        r := Tally(r.seen + {e}, r.relations + [Relation(source.id, c.id, LspMemberOnModule, line, col)],
                   r.resolved + 1, r.queried);
      }
      i := i + 1;
    }
  }

  method PushEachDefinition(p: Pass, t: Tally, source: EntityRef, ls: seq<Location>, line: u32, col: nat)
    returns (r: Tally)
    requires Ordered(p.env.index)
    ensures r == PushDefinitions(p, t, Some(source), ls, line, col)
  {
    hide FindAt;
    r := t;
    assert ls[0..] == ls;
    var i := 0;
    while i < |ls|
      invariant i <= |ls|
      invariant PushDefinitions(p, r, Some(source), ls[i..], line, col)
             == PushDefinitions(p, t, Some(source), ls, line, col)
    {
      assert ls[i..][0] == ls[i] && ls[i..][1..] == ls[i + 1..];
      var target := FindAt(p.env.index, ls[i].uri, ls[i].line);
      if target.Some? && source.id != target.value.id {
        r := r.(resolved := r.resolved + 1);
        var e := Edge(source.id, target.value.id, if Within(ls[i].uri, p.path) then SameFile else CrossFile);
        if e !in r.seen {
          r := r.(seen := r.seen + {e},
                  relations := r.relations + [Relation(source.id, target.value.id, LspDefinition, line, col)]);
        }
      }
      i := i + 1;
    }
  }

  method AskAtColumn(p: Pass, docs: ScopedDocuments, t: Tally, source: EntityRef, text: string, line: u32, col: nat)
    returns (r: Result<Tally, Error>)
    requires Ordered(p.env.index)
    modifies docs
    ensures Step(r, docs.View()) == AtColumn(p, old(docs.View()), t, Some(source), text, line, col)
  {
    hide Ask, Bindings, PushMembers, PushDefinitions, ReceiverNamesModule, MemberAt;
    var expression := MemberExpressionAt(p.classes, text, col);
    if expression.Some? {
      var m := expression.value;
      var receiver := docs.LocationsAt(p.env, Definition, p.uri, line, col);
      if receiver.Err? { return Err(receiver.error); }
      if ReceiverNamesModule(receiver.value, p.path) {
        var bound := docs.MemberExportBindings(p.env, p.path, p.uri, line, col, m.column, m.name);
        if bound.Err? { return Err(bound.error); }
        var pushed := PushEachMember(t, source, bound.value, line, m.column);
        return Ok(pushed);
      }
    }
    var definitions := docs.LocationsAt(p.env, Definition, p.uri, line, col);
    if definitions.Err? { return Err(definitions.error); }
    var pushed := PushEachDefinition(p, t, source, definitions.value, line, col);
    r := Ok(pushed);
  }

  /** The pass's loop over the columns of a line with a source. */
  method SweepColumns(p: Pass, docs: ScopedDocuments, t: Tally, source: EntityRef, text: string, line: u32, cols: seq<nat>)
    returns (r: Result<Tally, Error>)
    requires Ordered(p.env.index)
    modifies docs
    ensures Step(r, docs.View()) == AtColumns(p, old(docs.View()), t, Some(source), text, line, cols)
  {
    hide AtColumn;
    var tally := t;
    assert cols[0..] == cols;
    ghost var answer := AtColumns(p, docs.View(), t, Some(source), text, line, cols);
    var j := 0;
    while j < |cols|
      invariant j <= |cols|
      invariant AtColumns(p, docs.View(), tally, Some(source), text, line, cols[j..]) == answer
    {
      assert cols[j..][0] == cols[j] && cols[j..][1..] == cols[j + 1..];
      var asked := AskAtColumn(p, docs, tally, source, text, line, cols[j]);
      if asked.Err? { return Err(asked.error); }
      tally := asked.value;
      j := j + 1;
    }
    r := Ok(tally);
  }

  /** The definition half of `enrich_file_definitions`. */
  method EnrichFileDefinitions(p: Pass, content: string) returns (r: Result<Tally, Error>, docs: ScopedDocuments)
    requires Ordered(p.env.index) && Sane(p.classes)
    ensures fresh(docs)
    ensures Step(r, docs.View()) == SweepFile(p, true, content)
  {
    hide AtColumns, FindAt, Positions;
    docs := new ScopedDocuments();
    var tally := NOTHING;
    if p.env.hasDefinition {
      var lines := Lines(content);
      var i := 0;
      while i < |lines|
        invariant i <= |lines| && fresh(docs)
        invariant AtLines(p, true, docs.View(), tally, lines, i) == SweepFile(p, true, content)
      {
        var line := LineNumber(i);
        var cols := IdentifierPositionsInLine(p.classes, lines[i]);
        tally := tally.(queried := tally.queried + |cols|);
        var source := FindAt(p.env.index, p.uri, line);
        if source.Some? {
          var asked := SweepColumns(p, docs, tally, source.value, lines[i], line, cols);
          if asked.Err? { return Err(asked.error), docs; }
          tally := asked.value;
        }
        i := i + 1;
      }
    }
    r := Ok(tally);
  }
}
