/** The server's view of document lifetimes, read off a sequence of bodies, and what the queue
    promises about it ("DidOpenTextDocument Notification", LSP 3.17 specification). */
module Documents {
  import opened Utf8
  import opened ClientCore
  import opened Client
  import opened Correlation

  /** What a reader of the bodies knows: the documents now open, whether some document was ever
      opened while open, and the closes that met no open document. */
  datatype View = View(open: set<Uri>, doubled: bool, stray: multiset<Uri>)

  function See(v: View, tag: Tag): View
  {
    match tag
    case DidOpen(u) => v.(open := v.open + {u}, doubled := v.doubled || u in v.open)
    case DidClose(u) => v.(open := v.open - {u}, stray := v.stray + if u in v.open then multiset{} else multiset{u})
    case Request(_) => v
    case Plain => v
  }

  function SeeAll(bodies: seq<Body>): View
  {
    if bodies == [] then View({}, false, multiset{})
    else See(SeeAll(bodies[..|bodies| - 1]), bodies[|bodies| - 1].tag)
  }

  // ---- reading the view as a statement about positions ----------------------

  /** Between any two opens of one document there is a close of it. */
  ghost predicate Balanced(bodies: seq<Body>)
  {
    forall i, j :: 0 <= i < j < |bodies| && bodies[i].tag.DidOpen? && bodies[j].tag == bodies[i].tag ==>
      exists k :: i < k < j && bodies[k].tag == DidClose(bodies[i].tag.uri)
  }

  ghost predicate OpenSince(bodies: seq<Body>, uri: Uri, i: nat)
  {
    && i < |bodies| && bodies[i].tag == DidOpen(uri)
    && forall k :: i < k < |bodies| ==> bodies[k].tag != DidClose(uri)
  }

  lemma {:induction false} OpenMeaning(bodies: seq<Body>, uri: Uri)
    ensures uri in SeeAll(bodies).open <==> exists i :: OpenSince(bodies, uri, i)
  {
    if bodies != [] {
      var n := |bodies| - 1;
      var init := bodies[..n];
      OpenMeaning(init, uri);
      if bodies[n].tag == DidOpen(uri) {
        assert OpenSince(bodies, uri, n);
      } else if bodies[n].tag == DidClose(uri) {
      } else if uri in SeeAll(init).open {
        var i :| OpenSince(init, uri, i);
        assert OpenSince(bodies, uri, i);
      } else if exists i :: OpenSince(bodies, uri, i) {
        var i :| OpenSince(bodies, uri, i);
        assert OpenSince(init, uri, i);
      }
    }
  }

  /** The view reports a double open exactly when two opens lack a close between them. */
  lemma {:induction false} DoubledMeaning(bodies: seq<Body>)
    ensures !SeeAll(bodies).doubled <==> Balanced(bodies)
  {
    if bodies != [] {
      var n := |bodies| - 1;
      var init := bodies[..n];
      DoubledMeaning(init);
      if bodies[n].tag.DidOpen? {
        OpenMeaning(init, bodies[n].tag.uri);
      }
      BalancedSnoc(bodies);
    }
  }

  lemma BalancedSnoc(bodies: seq<Body>)
    requires bodies != []
    ensures var n := |bodies| - 1;
      Balanced(bodies) <==>
        Balanced(bodies[..n]) &&
        (bodies[n].tag.DidOpen? ==> !exists i :: OpenSince(bodies[..n], bodies[n].tag.uri, i))
  {
    var n := |bodies| - 1;
    var init := bodies[..n];
    if Balanced(bodies) {
      forall i, j | 0 <= i < j < n && init[i].tag.DidOpen? && init[j].tag == init[i].tag
        ensures exists k :: i < k < j && init[k].tag == DidClose(init[i].tag.uri)
      {
        var k :| i < k < j && bodies[k].tag == DidClose(bodies[i].tag.uri);
        assert init[k].tag == DidClose(init[i].tag.uri);
      }
    } else {
      var i, j :| 0 <= i < j < |bodies| && bodies[i].tag.DidOpen? && bodies[j].tag == bodies[i].tag
                  && !exists k :: i < k < j && bodies[k].tag == DidClose(bodies[i].tag.uri);
      if j < n {
        assert init[i].tag.DidOpen? && init[j].tag == init[i].tag;
      } else {
        assert OpenSince(init, bodies[n].tag.uri, i);
      }
    }
  }

  /** A double open stays visible however the sequence goes on. */
  lemma {:induction false} DoubledPersists(bodies: seq<Body>, n: nat)
    requires n <= |bodies| && !SeeAll(bodies).doubled
    ensures !SeeAll(bodies[..n]).doubled
  {
    if n == |bodies| {
      assert bodies[..n] == bodies;
    } else {
      var init := bodies[..|bodies| - 1];
      DoubledPersists(init, n);
      assert init[..n] == bodies[..n];
    }
  }

  function Count(bodies: seq<Body>, tag: Tag): nat
  {
    if bodies == [] then 0
    else Count(bodies[..|bodies| - 1], tag) + if bodies[|bodies| - 1].tag == tag then 1 else 0
  }

  /** Unless a document was opened twice over, its closes are its opens less the one still
      pending, plus the stray ones. */
  lemma {:induction false} CountMeaning(bodies: seq<Body>, uri: Uri)
    requires !SeeAll(bodies).doubled
    ensures Count(bodies, DidClose(uri)) + (if uri in SeeAll(bodies).open then 1 else 0)
         == Count(bodies, DidOpen(uri)) + SeeAll(bodies).stray[uri]
  {
    if bodies != [] {
      CountMeaning(bodies[..|bodies| - 1], uri);
    }
  }

  // ---- appending to the queue -----------------------------------------------

  lemma SeeSnoc(bodies: seq<Body>, b: Body)
    ensures SeeAll(bodies + [b]) == See(SeeAll(bodies), b.tag)
  {
    assert (bodies + [b])[..|bodies|] == bodies;
  }

  lemma AllBodiesSnoc(items: seq<Item>, item: Item)
    ensures AllBodies(items + [item]) == AllBodies(items) + item.Bodies()
  {
    assert (items + [item])[..|items|] == items;
  }

  /** Dropping the last close of a drain leaves a drain of the other documents. */
  lemma DrainsInit(batch: seq<Body>)
    requires Drains(batch, Uris(batch)) && batch != []
    ensures var n := |batch| - 1;
      Drains(batch[..n], Uris(batch[..n])) && batch[n].tag.DidClose?
      && batch[n].tag.uri !in Uris(batch[..n]) && Uris(batch) == Uris(batch[..n]) + {batch[n].tag.uri}
  {
    assert batch == batch[..|batch| - 1] + [batch[|batch| - 1]];
  }

  /** A view after the documents `us` were closed in turn. */
  ghost function Closed(v: View, us: set<Uri>): View
  {
    View(v.open - us, v.doubled, v.stray + multiset(us - v.open))
  }

  lemma CloseOneMore(v: View, us: set<Uri>, u: Uri)
    requires u !in us
    ensures See(Closed(v, us), DidClose(u)) == Closed(v, us + {u})
  {
    assert v.open - us - {u} == v.open - (us + {u});
    if u in v.open {
      assert us + {u} - v.open == us - v.open;
    } else {
      assert us + {u} - v.open == (us - v.open) + {u};
      assert multiset((us - v.open) + {u}) == multiset(us - v.open) + multiset{u};
    }
  }

  /** A cleanup batch closes each of its documents once. */
  lemma {:induction false} SeeBatch(bodies: seq<Body>, batch: seq<Body>)
    requires Drains(batch, Uris(batch))
    ensures SeeAll(bodies + batch) == Closed(SeeAll(bodies), Uris(batch))
  {
    hide SeeAll;
    if batch == [] {
      assert bodies + batch == bodies;
      assert Uris(batch) == {};
    } else {
      var n := |batch| - 1;
      DrainsInit(batch);
      SeeBatch(bodies, batch[..n]);
      assert bodies + batch == (bodies + batch[..n]) + [batch[n]];
      SeeSnoc(bodies + batch[..n], batch[n]);
      CloseOneMore(SeeAll(bodies), Uris(batch[..n]), batch[n].tag.uri);
    }
  }

  // ---- the invariant --------------------------------------------------------

  /** The documents the queue leaves open, as the scope's own fields tell it. */
  ghost function Owned(s: State): set<Uri>
  {
    match s.scope
    case NoScope => {}
    case InScope(open, lost, pc) =>
      match pc
      case Working => open - lost
      case AwaitClose(_) => open - lost
      case Opening(c, uri) => open - lost - if c in s.callers && s.callers[c].queued then {} else {uri}
      case Closing(batch, _) => Uris(batch) - lost
      case Sending(batch, _) => Uris(batch) - lost
      case FailingClose(_) => {}
  }

  ghost predicate ScopeShape(s: State)
  {
    match s.scope
    case NoScope => true
    case InScope(open, lost, pc) =>
      match pc
      case Working => lost <= open
      case AwaitClose(_) => open == {} && lost == {}
      case Opening(c, uri) => lost <= open && uri in open && uri !in lost && c in s.callers
                              && !s.callers[c].isRequest && s.callers[c].body.tag == DidOpen(uri)
      case Closing(batch, _) => open == {} && lost <= Uris(batch) && Drains(batch, Uris(batch))
      case Sending(batch, _) => open == {} && lost <= Uris(batch) && Drains(batch, Uris(batch))
      case FailingClose(_) => open == {} && lost == {}
  }

  /** Only the scope speaks about its documents: other callers' bodies name none. */
  predicate OnlyScope(s: State)
  {
    forall c :: c in s.callers && (s.callers[c].body.tag.DidOpen? || s.callers[c].body.tag.DidClose?) ==>
      IsOpening(s, c)
  }

  /** After a batch was lost, the scope cannot queue anything about documents any more. */
  predicate Muted(s: State)
  {
    && (s.core.failed || (s.scope.InScope? && s.scope.pc.FailingClose?))
    && (s.scope.InScope? ==> !s.scope.pc.Sending?)
    && (s.scope.InScope? && s.scope.pc.Opening? && s.scope.pc.c in s.callers ==>
          s.callers[s.scope.pc.c].pc != Ready)
  }

  ghost predicate Tidy(s: State, v: View)
  {
    && !v.doubled
    && v.stray == s.orphans
    && (if s.leaked then Muted(s) else v.open == Owned(s))
    && (s.scope.InScope? && s.scope.pc.FailingClose? ==> s.leaked)
  }

  ghost predicate DocsOk(s: State)
  {
    ScopeShape(s) && OnlyScope(s) && Tidy(s, SeeAll(AllBodies(s.core.enqueued)))
  }

  // ---- preservation ---------------------------------------------------------

  lemma CoreDocs(s: State, d: Core)
    requires DocsOk(s) && d.enqueued == s.core.enqueued && (s.core.failed ==> d.failed)
    ensures DocsOk(s.(core := d))
  {
    hide SeeAll, AllBodies, Drains, Uris;
  }

  ghost predicate CorrelatedCaller(s: State, c: nat) { c in s.callers ==> CallerOk(s.core, s.callers[c]) }

  lemma MoveDocs(s: State, t: State, c: nat)
    requires DocsOk(s) && c in s.callers && c in t.callers
    requires t == s.(core := t.core, callers := s.callers[c := t.callers[c]])
    requires t.callers[c] == s.callers[c].(pc := t.callers[c].pc)
    requires t.callers[c].pc == Ready ==> !s.core.failed
    requires t.core.enqueued == s.core.enqueued && (s.core.failed ==> t.core.failed)
    ensures DocsOk(t)
  {
    hide SeeAll, AllBodies, Drains, Uris;
  }

  lemma DropDocs(s: State, c: nat)
    requires DocsOk(s) && c in s.callers && !IsOpening(s, c)
    ensures DocsOk(DropCaller(s, c))
  {
    hide SeeAll, AllBodies, Drains, Uris;
  }

  /** A caller's step that queues nothing. */
  lemma QuietDocs(s: State, c: nat, step: CallerStep)
    requires DocsOk(s) && CallerEnabled(s, c, step)
    requires step == TrySend ==> !CanSend(s.core)
    ensures DocsOk(CallerApply(s, c, step))
  {
    hide DocsOk;
    if step == Cancel {
      DropDocs(s, c);
    } else {
      MoveDocs(s, CallerApply(s, c, step), c);
    }
  }

  lemma MessageView(items: seq<Item>, body: Body)
    ensures SeeAll(AllBodies(items + [Message(body)])) == See(SeeAll(AllBodies(items)), body.tag)
  {
    hide SeeAll;
    AllBodiesSnoc(items, Message(body));
    SeeSnoc(AllBodies(items), body);
  }

  lemma SendDocs(s: State, c: nat)
    requires DocsOk(s) && CallerEnabled(s, c, TrySend) && CanSend(s.core) && CorrelatedCaller(s, c)
    ensures DocsOk(CallerApply(s, c, TrySend))
  {
    hide SeeAll, AllBodies, Drains, Uris;
    MessageView(s.core.enqueued, s.callers[c].body);
  }

  lemma SpawnDocs(s: State, x: Caller)
    requires DocsOk(s) && s.nextCaller !in s.callers && !x.body.tag.DidOpen? && !x.body.tag.DidClose?
    ensures DocsOk(Spawn(s, x))
  {
    hide SeeAll, AllBodies, Drains, Uris;
  }

  lemma OpenDocs(s: State, uri: Uri, bytes: seq<byte>)
    requires DocsOk(s) && s.nextCaller !in s.callers && ScopeEnabled(s, Open(uri, bytes))
    ensures DocsOk(ScopeApply(s, Open(uri, bytes)))
  {
    hide SeeAll, AllBodies, Drains, Uris;
    assert s.scope.open + {uri} - s.scope.lost - {uri} == s.scope.open - s.scope.lost;
  }

  /** Leaving `ensure_open`: a frame that was never queued makes its document lost. */
  lemma LeaveDocs(s: State, t: State)
    requires DocsOk(s) && s.scope.InScope? && s.scope.pc.Opening? && s.scope.pc.c in s.callers
    requires t == s.(core := t.core, callers := s.callers - {s.scope.pc.c}, scope := LeaveOpen(s))
    requires t.core.enqueued == s.core.enqueued && t.core.failed == s.core.failed
    ensures DocsOk(t)
  {
    hide SeeAll, AllBodies, Drains, Uris;
    assert s.scope.open - (s.scope.lost + {s.scope.pc.uri}) == s.scope.open - s.scope.lost - {s.scope.pc.uri};
  }

  lemma BatchView(items: seq<Item>, batch: seq<Body>)
    requires Drains(batch, Uris(batch))
    ensures SeeAll(AllBodies(items + [CloseDocuments(batch)])) == Closed(SeeAll(AllBodies(items)), Uris(batch))
  {
    hide SeeAll, Drains, Uris;
    AllBodiesSnoc(items, CloseDocuments(batch));
    SeeBatch(AllBodies(items), batch);
  }

  lemma SendCloseDocs(s: State)
    requires DocsOk(s) && ScopeEnabled(s, SendClose)
    ensures DocsOk(ScopeApply(s, SendClose))
  {
    hide SeeAll, AllBodies, Drains, Uris;
    if CanSend(s.core) {
      var batch := s.scope.pc.batch;
      BatchView(s.core.enqueued, batch);
      assert Uris(batch) - (Uris(batch) - s.scope.lost) == s.scope.lost;
      assert Uris(batch) - s.scope.lost - Uris(batch) == {};
    }
  }

  /** Scope steps that queue nothing and touch no caller. */
  lemma QuietScopeDocs(s: State, step: ScopeStep)
    requires DocsOk(s) && ScopeEnabled(s, step)
    requires step.Begin? || step.CloseAll? || step.Drop? || step.CheckClose? || step.GiveUpClose? || step.TakeClose?
    ensures DocsOk(ScopeApply(s, step))
  {
    hide SeeAll, AllBodies, Uris;
    match step {
      case Begin =>
      case CloseAll(_) =>
      case Drop(_) =>
      case CheckClose =>
      case GiveUpClose =>
      case TakeClose =>
    }
  }

  lemma ScopeDocs(s: State, step: ScopeStep)
    requires DocsOk(s) && ScopeEnabled(s, step) && s.nextCaller !in s.callers
    ensures DocsOk(ScopeApply(s, step))
  {
    hide DocsOk, Drains, Uris;
    match step {
      case Open(uri, bytes) => OpenDocs(s, uri, bytes);
      case Opened => LeaveDocs(s, ScopeApply(s, step));
      case AbandonOpen => LeaveDocs(s, ScopeApply(s, step));
      case SendClose => SendCloseDocs(s);
      case Begin => QuietScopeDocs(s, step);
      case CloseAll(_) => QuietScopeDocs(s, step);
      case Drop(_) => QuietScopeDocs(s, step);
      case CheckClose => QuietScopeDocs(s, step);
      case GiveUpClose => QuietScopeDocs(s, step);
      case TakeClose => QuietScopeDocs(s, step);
    }
  }
}
