/** The spatial index of src/enrichment.rs: grouping by file, suffix path lookup and the
    innermost-span query. */
module EntityIndex {
  import opened Wrappers
  import opened StableSort

  type u32 = x: int | 0 <= x < 0x1_0000_0000
  const U32_MAX: u32 := 0xFFFF_FFFF

  datatype EntityRef = EntityRef(
    id: nat, name: string, filePath: string,
    startLine: u32, startCol: u32, endLine: u32, nameLine: u32, nameCol: u32)

  /** `order` is the hash map's iteration order over its keys: fixed for one map, unknown. */
  datatype Index = Index(byFile: map<string, seq<EntityRef>>, order: seq<string>)

  // ---- building -------------------------------------------------------------

  function ByStart(): (EntityRef, EntityRef) -> bool { (a: EntityRef, b: EntityRef) => a.startLine <= b.startLine }

  function InFile(file: string): EntityRef -> bool { (e: EntityRef) => e.filePath == file }

  /** The entities of one file, in build order. */
  function Bucket(entities: seq<EntityRef>, file: string): seq<EntityRef>
  {
    Filter(entities, InFile(file))
  }

  /** What `EntityIndex::new` builds, whatever order its map iterates in. */
  ghost predicate Built(ix: Index, entities: seq<EntityRef>)
  {
    && (forall f :: f in ix.byFile <==> Bucket(entities, f) != [])
    && (forall f :: f in ix.byFile ==> ix.byFile[f] == Sort(Bucket(entities, f), ByStart()))
    && (forall f :: f in ix.order <==> f in ix.byFile)
  }

  lemma BucketSnoc(entities: seq<EntityRef>, i: nat)
    requires i < |entities|
    ensures forall f :: Bucket(entities[..i + 1], f)
              == Bucket(entities[..i], f) + if entities[i].filePath == f then [entities[i]] else []
  {
    assert entities[..i + 1] == entities[..i] + [entities[i]];
    forall f ensures Bucket(entities[..i + 1], f)
                  == Bucket(entities[..i], f) + if entities[i].filePath == f then [entities[i]] else []
    {
      FilterSnoc(entities[..i], entities[i], InFile(f));
    }
  }

  /** The first loop of `EntityIndex::new`; `order` records the map's keys. */
  method Group(entities: seq<EntityRef>) returns (byFile: map<string, seq<EntityRef>>, order: seq<string>)
    ensures forall f :: f in byFile <==> Bucket(entities, f) != []
    ensures forall f :: f in byFile ==> byFile[f] == Bucket(entities, f)
    ensures forall f :: f in order <==> f in byFile
  {
    hide Bucket;
    byFile, order := map[], [];
    var i := 0;
    NoBuckets();
    assert entities[..0] == [];
    while i < |entities|
      invariant i <= |entities|
      invariant forall f :: f in byFile <==> Bucket(entities[..i], f) != []
      invariant forall f :: f in byFile ==> byFile[f] == Bucket(entities[..i], f)
      invariant forall f :: f in order <==> f in byFile
    {
      BucketSnoc(entities, i);
      var e := entities[i];
      if e.filePath !in byFile {
        byFile, order := byFile[e.filePath := [e]], order + [e.filePath];
      } else {
        byFile := byFile[e.filePath := byFile[e.filePath] + [e]];
      }
      i := i + 1;
    }
    assert entities[..i] == entities;
  }

  lemma NoBuckets()
    ensures forall f :: Bucket([], f) == []
  {
  }

  /** `EntityIndex::new`: group by file, then sort each group by start line. */
  method New(entities: seq<EntityRef>) returns (ix: Index)
    ensures Built(ix, entities)
  {
    hide Bucket, Sort, ByStart;
    var byFile, order := Group(entities);
    var sorted := byFile;
    var k := 0;
    while k < |order|
      invariant k <= |order|
      invariant sorted.Keys == byFile.Keys
      invariant forall f :: f in byFile ==>
                  sorted[f] == if f in order[..k] then Sort(byFile[f], ByStart()) else byFile[f]
    {
      var f := order[k];
      assert order[..k + 1] == order[..k] + [f];
      if f !in order[..k] {
        sorted := sorted[f := Sort(sorted[f], ByStart())];
      }
      k := k + 1;
    }
    assert order[..k] == order;
    ix := Index(sorted, order);
  }

  /** Grouping and sorting lose and invent nothing: every entity is in its own file's bucket, as
      often as it was given, and buckets hold nothing else. */
  lemma BuildConserves(ix: Index, entities: seq<EntityRef>, file: string, e: EntityRef)
    requires Built(ix, entities) && file in ix.byFile
    ensures multiset(ix.byFile[file])[e] == if e.filePath == file then multiset(entities)[e] else 0
    ensures Sorted(ix.byFile[file], ByStart())
  {
    SortKeeps(Bucket(entities, file), ByStart());
    SortSorts(Bucket(entities, file), ByStart());
    FilterCounts(entities, InFile(file), e);
  }

  // ---- the innermost span ---------------------------------------------------

  predicate Holds(e: EntityRef, line: u32) { e.startLine <= line <= e.endLine }

  /** `saturating_sub` of the span's ends, then the later start first. */
  function Length(e: EntityRef): int { if e.startLine <= e.endLine then e.endLine - e.startLine else 0 }

  predicate Smaller(a: EntityRef, b: EntityRef)
  {
    Length(a) < Length(b) || (Length(a) == Length(b) && U32_MAX - a.startLine < U32_MAX - b.startLine)
  }

  /** `min_by_key`: the first of the smallest. */
  function FirstSmallest(es: seq<EntityRef>): (r: Option<EntityRef>)
    ensures r.None? <==> es == []
    ensures r.Some? ==> r.value in es && forall e :: e in es ==> !Smaller(e, r.value)
  {
    if es == [] then None
    else
      assert forall e :: e in es ==> e == es[0] || e in es[1..];
      match FirstSmallest(es[1..])
      case None => Some(es[0])
      case Some(r) => if Smaller(r, es[0]) then Some(r) else Some(es[0])
  }

  function HoldsLine(line: u32): EntityRef -> bool { (e: EntityRef) => Holds(e, line) }

  /** The query on one file's entities, in the order given. */
  function Innermost(es: seq<EntityRef>, line: u32): Option<EntityRef>
  {
    FirstSmallest(Filter(es, HoldsLine(line)))
  }

  /** The answer spans the fewest lines of all spans that hold the line, and starts last among those. */
  lemma InnermostIsSmallest(es: seq<EntityRef>, line: u32)
    ensures var r := Innermost(es, line); r.Some? ==>
      && r.value in es && r.value.startLine <= line <= r.value.endLine
      && forall e :: e in es && e.startLine <= line <= e.endLine ==>
           || r.value.endLine - r.value.startLine < e.endLine - e.startLine
           || (r.value.endLine - r.value.startLine == e.endLine - e.startLine && r.value.startLine >= e.startLine)
  {
    var held := Filter(es, HoldsLine(line));
    if held != [] {
      var r := FirstSmallest(held).value;
      assert forall e :: e in es && Holds(e, line) ==> e in held;
    }
  }

  function SameSpan(start: u32, end: u32): EntityRef -> bool
  {
    (e: EntityRef) => e.startLine == start && e.endLine == end
  }

  lemma {:induction false} FirstOfItsSpan(es: seq<EntityRef>, line: u32)
    requires forall e :: e in es ==> Holds(e, line)
    requires es != []
    ensures var r := FirstSmallest(es).value;
      var same := Filter(es, SameSpan(r.startLine, r.endLine)); same != [] && same[0] == r
  {
    var r := FirstSmallest(es).value;
    if r != es[0] {
      FirstOfItsSpan(es[1..], line);
      assert r == FirstSmallest(es[1..]).value;
      assert !SameSpan(r.startLine, r.endLine)(es[0]);
    }
  }

  /** Two lists with the same members answer with the same span. */
  lemma SameSmallestSpan(a: seq<EntityRef>, b: seq<EntityRef>, line: u32)
    requires forall e :: e in a <==> e in b
    requires a != [] && b != [] && forall e :: e in a ==> Holds(e, line)
    ensures var r, q := FirstSmallest(a).value, FirstSmallest(b).value;
      r.startLine == q.startLine && r.endLine == q.endLine
  {
    var r, q := FirstSmallest(a).value, FirstSmallest(b).value;
    assert q in a && r in b;
  }

  lemma SameSelection(xs: seq<EntityRef>, ys: seq<EntityRef>, p: EntityRef -> bool)
    requires multiset(xs) == multiset(ys)
    ensures multiset(Filter(xs, p)) == multiset(Filter(ys, p))
  {
    forall e ensures multiset(Filter(xs, p))[e] == multiset(Filter(ys, p))[e]
    {
      FilterCounts(xs, p, e);
      FilterCounts(ys, p, e);
    }
  }

  /** Sorting a file's entities by start line does not change the answer, ties included: the query
      is a linear scan of the entities in build order. */
  lemma SortingIsInvisible(es: seq<EntityRef>, line: u32)
    ensures Innermost(Sort(es, ByStart()), line) == Innermost(es, line)
  {
    hide Sort, FirstSmallest;
    var sorted := Sort(es, ByStart());
    SortKeeps(es, ByStart());
    var a, b := Filter(sorted, HoldsLine(line)), Filter(es, HoldsLine(line));
    SameSelection(sorted, es, HoldsLine(line));
    SameMembers(a, b);
    assert |a| == |multiset(a)| && |b| == |multiset(b)|;
    if a != [] {
      SameSmallestSpan(a, b, line);
      FirstOfItsSpan(a, line);
      FirstOfItsSpan(b, line);
      var r := FirstSmallest(a).value;
      var same := SameSpan(r.startLine, r.endLine);
      assert Holds(r, line);
      FilterTwice(sorted, HoldsLine(line), same);
      FilterTwice(es, HoldsLine(line), same);
      SortStable(es, ByStart(), same);
    }
  }

  ghost predicate Contains(outer: EntityRef, inner: EntityRef)
  {
    outer.startLine <= inner.startLine && inner.endLine <= outer.endLine
  }

  /** Spans of a syntax tree: of any two, one lies within the other or they do not meet. */
  ghost predicate Nested(es: seq<EntityRef>)
  {
    forall a, b :: a in es && b in es ==>
      Contains(a, b) || Contains(b, a) || a.endLine < b.startLine || b.endLine < a.startLine
  }

  /** On nested spans the answer is the innermost one: it lies within every span that holds the
      line, and there is an answer exactly when some span does. */
  lemma InnermostIsWithinAll(es: seq<EntityRef>, line: u32)
    requires Nested(es)
    ensures Innermost(es, line).None? <==> forall e :: e in es ==> !Holds(e, line)
    ensures var r := Innermost(es, line); r.Some? ==>
      r.value in es && Holds(r.value, line) && forall e :: e in es && Holds(e, line) ==> Contains(e, r.value)
  {
    var held := Filter(es, HoldsLine(line));
    assert held != [] ==> held[0] in held;
    if held != [] {
      var r := FirstSmallest(held).value;
      forall e | e in es && Holds(e, line) ensures Contains(e, r)
      {
        assert e in held;
        assert !Smaller(e, r);
      }
    }
  }

  // ---- paths ----------------------------------------------------------------

  predicate EndsWith(s: string, t: string)
  {
    |t| <= |s| && s[|s| - |t|..] == t
  }

  const SCHEME := "file://"

  /** `path_to_uri`. */
  function PathToUri(path: string): string { SCHEME + path }

  /** `uri_to_path`. */
  function UriToPath(uri: string): Option<string>
  {
    if SCHEME <= uri then Some(uri[|SCHEME|..]) else None
  }

  /** `Path::join` on Unix. */
  function JoinPath(root: string, path: string): string
  {
    if "/" <= path then path
    else if root == "" || root[|root| - 1] == '/' then root + path
    else root + "/" + path
  }

  predicate Matches(path: string, key: string) { EndsWith(path, key) || EndsWith(key, path) }

  function FirstMatch(order: seq<string>, path: string): Option<string>
  {
    if order == [] then None
    else if Matches(path, order[0]) then Some(order[0])
    else FirstMatch(order[1..], path)
  }

  /** `entries_for_path`: the key whose bucket answers for a path. */
  function KeyFor(ix: Index, path: string): Option<string>
  {
    if path in ix.byFile then Some(path) else FirstMatch(ix.order, path)
  }

  ghost predicate Ordered(ix: Index) { forall f :: f in ix.order <==> f in ix.byFile }

  function EntriesForPath(ix: Index, path: string): seq<EntityRef>
    requires Ordered(ix)
  {
    match KeyFor(ix, path)
    case None => []
    case Some(k) => KeyIndexed(ix, path); ix.byFile[k]
  }

  lemma {:induction false} FirstMatchMeaning(order: seq<string>, path: string)
    ensures var m := FirstMatch(order, path);
      (m.None? <==> forall k :: k in order ==> !Matches(path, k))
      && (m.Some? ==> m.value in order && Matches(path, m.value))
  {
    if order != [] { FirstMatchMeaning(order[1..], path); }
  }

  lemma KeyIndexed(ix: Index, path: string)
    requires Ordered(ix)
    ensures var k := KeyFor(ix, path); k.Some? ==> k.value in ix.byFile && Matches(path, k.value)
  {
    FirstMatchMeaning(ix.order, path);
    assert EndsWith(path, path);
  }

  /** `find_at`. */
  function FindAt(ix: Index, uri: string, line: u32): Option<EntityRef>
    requires Ordered(ix)
  {
    match UriToPath(uri)
    case None => None
    case Some(path) => Innermost(EntriesForPath(ix, path), line)
  }

  /** `find_at` on a built index: the linear scan, in build order, of the entities of whichever
      indexed file answers for the path. */
  lemma FindAtIsLinearScan(ix: Index, entities: seq<EntityRef>, path: string, line: u32)
    requires Built(ix, entities)
    ensures FindAt(ix, PathToUri(path), line) ==
      match KeyFor(ix, path)
      case None => None
      case Some(k) => Innermost(Bucket(entities, k), line)
  {
    assert UriToPath(PathToUri(path)) == Some(path);
    KeyIndexed(ix, path);
    match KeyFor(ix, path) {
      case None =>
      case Some(k) => SortingIsInvisible(Bucket(entities, k), line);
    }
  }

  // ---- when suffix lookup is safe -------------------------------------------

  /** Another indexed path that can be mistaken for `key`: a suffix of it, or `key` below one more
      directory. */
  ghost predicate Rival(other: string, key: string)
  {
    other != key && (EndsWith(key, other) || EndsWith(other, "/" + key))
  }

  lemma SuffixesChain(s: string, a: string, b: string)
    requires EndsWith(s, a) && EndsWith(s, b) && |a| <= |b|
    ensures EndsWith(b, a)
  {
    assert s[|s| - |b|..][|b| - |a|..] == s[|s| - |a|..];
  }

  lemma JoinEnds(root: string, key: string)
    requires !("/" <= key)
    ensures EndsWith(JoinPath(root, key), key)
    ensures JoinPath(root, key) == key || EndsWith(JoinPath(root, key), "/" + key)
  {
    var p := JoinPath(root, key);
    if root == "" {
    } else if root[|root| - 1] == '/' {
      assert p[|root| - 1..] == "/" + key;
    } else {
      assert p[|root|..] == "/" + key;
    }
    assert p[|p| - |key|..] == key;
  }

  lemma SuffixesCompose(s: string, a: string, b: string)
    requires EndsWith(s, a) && EndsWith(a, b)
    ensures EndsWith(s, b)
  {
    assert s[|s| - |a|..][|a| - |b|..] == s[|s| - |b|..];
  }

  lemma MatchIsKeyOrRival(path: string, key: string, k: string)
    requires EndsWith(path, "/" + key) && Matches(path, k)
    ensures k == key || Rival(k, key)
  {
    if EndsWith(path, k) {
      if |k| <= |key| {
        assert EndsWith("/" + key, key);
        SuffixesCompose(path, "/" + key, key);
        SuffixesChain(path, k, key);
      } else {
        SuffixesChain(path, "/" + key, k);
      }
    } else {
      SuffixesCompose(k, path, "/" + key);
    }
  }

  /** For an absolute key, or with no rival among the keys, the path of `root/key` leads to `key`
      whatever the workspace root and the map order. */
  lemma NoRivalIsSafe(ix: Index, key: string, root: string)
    requires Ordered(ix) && key in ix.byFile
    requires "/" <= key || forall other :: other in ix.byFile ==> !Rival(other, key)
    ensures KeyFor(ix, JoinPath(root, key)) == Some(key)
  {
    hide EndsWith, Rival, FirstMatch;
    var p := JoinPath(root, key);
    if p != key {
      JoinEnds(root, key);
      FirstMatchMeaning(ix.order, p);
      forall k | k in ix.byFile && Matches(p, k) ensures k == key
      {
        MatchIsKeyOrRival(p, key, k);
      }
      assert Matches(p, key);
      KeyIndexed(ix, p);
    }
  }

  /** A rival that is a longer path is found instead of `key` under some root. */
  lemma LongerRivalWins(ix: Index, key: string, other: string)
    requires other in ix.byFile && other != key && EndsWith(other, "/" + key) && !("/" <= key)
    ensures exists root :: KeyFor(ix, JoinPath(root, key)) == Some(other)
  {
    var root := other[..|other| - |key|];
    assert other[|other| - |key| - 1..][0] == '/';
    assert root[|root| - 1] == '/';
    assert other[|other| - |key| - 1..][1..] == other[|other| - |key|..];
    assert root + key == other;
    assert JoinPath(root, key) == other;
  }

  function LongerThan(keys: seq<string>): nat
  {
    if keys == [] then 0
    else var n := LongerThan(keys[1..]); if |keys[0]| < n then n else |keys[0]| + 1
  }

  lemma {:induction false} KeysAreShorter(keys: seq<string>, k: string)
    requires k in keys
    ensures |k| < LongerThan(keys)
  {
    if k != keys[0] { KeysAreShorter(keys[1..], k); }
  }

  function LongRoot(n: nat): string { seq(n + 1, _ => 'r') }

  lemma LongRootIsLong(n: nat, key: string)
    requires !("/" <= key)
    ensures |JoinPath(LongRoot(n), key)| > n
  {
  }

  /** A rival that is a suffix of `key` is found instead under some root and some map order. */
  lemma ShorterRivalWins(ix: Index, key: string, other: string)
    requires Ordered(ix) && other in ix.byFile && other != key && EndsWith(key, other) && !("/" <= key)
    ensures exists root, order ::
      Ordered(Index(ix.byFile, order)) && KeyFor(Index(ix.byFile, order), JoinPath(root, key)) == Some(other)
  {
    hide EndsWith, JoinPath;
    var root := LongRoot(LongerThan(ix.order));
    var order := [other] + ix.order;
    var p := JoinPath(root, key);
    JoinEnds(root, key);
    LongRootIsLong(LongerThan(ix.order), key);
    SuffixesCompose(p, key, other);
    if p in ix.order { KeysAreShorter(ix.order, p); }
    assert p !in ix.byFile;
    assert Ordered(Index(ix.byFile, order));
    assert FirstMatch(order, p) == Some(other);
  }

  /** Looking up the uri of `root/key` leads to `key` under every workspace root and every map
      order if and only if `key` is absolute, or no other indexed path is a suffix of it or ends
      with `/key`. */
  lemma SuffixLookupIsSafeIff(ix: Index, key: string)
    requires Ordered(ix) && key in ix.byFile
    ensures (forall root, order :: Ordered(Index(ix.byFile, order)) ==>
               KeyFor(Index(ix.byFile, order), JoinPath(root, key)) == Some(key))
        <==> "/" <= key || (forall other :: other in ix.byFile ==> !Rival(other, key))
  {
    if "/" <= key || forall other :: other in ix.byFile ==> !Rival(other, key) {
      forall root, order | Ordered(Index(ix.byFile, order))
        ensures KeyFor(Index(ix.byFile, order), JoinPath(root, key)) == Some(key)
      {
        NoRivalIsSafe(Index(ix.byFile, order), key, root);
      }
    } else {
      var other :| other in ix.byFile && Rival(other, key);
      if EndsWith(other, "/" + key) {
        LongerRivalWins(ix, key, other);
        assert ix == Index(ix.byFile, ix.order);
      } else {
        ShorterRivalWins(ix, key, other);
      }
    }
  }

  /** The hypothesis in the simplest form a caller can check: no indexed path is a suffix of another. */
  lemma NoSuffixNoRival(ix: Index, key: string, other: string)
    requires other != key && !EndsWith(key, other) && !EndsWith(other, key)
    ensures !Rival(other, key)
  {
    if EndsWith(other, "/" + key) {
      assert EndsWith("/" + key, key);
      SuffixesCompose(other, "/" + key, key);
    }
  }
}
