/** Requests about a scope's documents, end to end: the peer decodes them between the document's open
    and its close. */
module ClientDocuments {
  import Permit
  import Codec
  import opened ClientCore
  import opened CoreInvariant
  import opened Client
  import opened Correlation
  import opened Documents
  import opened ClientSafety
  import opened ClientTheorems
  import opened ClientFailure

  // ---- the queue only grows -------------------------------------------------

  lemma StepGrows(s: State, a: Action)
    requires Enabled(s, a)
    ensures s.core.enqueued <= Apply(s, a).core.enqueued
  {
    hide CallerApply, ScopeApply, WriterApply, CallerEnabled, ScopeEnabled, WriterEnabled;
    if a.OfWriter? {
      WriterQueuesNothing(s.core, a.w);
    } else {
      OthersLeaveWriterAlone(s, a);
    }
  }

  lemma {:induction false} RunGrows(s: State, run: seq<Action>)
    requires Runs(s, run)
    ensures s.core.enqueued <= After(s, run).core.enqueued
    decreases |run|
  {
    hide Enabled, Apply;
    if run != [] {
      StepGrows(s, run[0]);
      RunGrows(Apply(s, run[0]), run[1..]);
    }
  }

  // ---- an accepted open -----------------------------------------------------

  /** When `ensure_open` returns with its notification sent, the scope holds the document. */
  lemma AcceptedOpenIsOwned(s: State)
    requires Reachable(s) && s.scope.InScope? && s.scope.pc.Opening? && s.scope.pc.c in s.callers
    requires s.callers[s.scope.pc.c].pc == Finished(Sent)
    ensures Enabled(s, OfScope(Opened)) && s.scope.pc.uri in Owned(Apply(s, OfScope(Opened)))
  {
    ReachableInv(s);
    ShapeOf(s);
    CallerOf(s, s.scope.pc.c);
    hide Inv, Reachable, CallerOk;
  }

  lemma CallerOf(s: State, c: nat)
    requires Inv(s) && c in s.callers
    ensures CallerOk(s.core, s.callers[c])
    ensures s.callers[c].pc == Finished(Sent) ==> s.callers[c].queued
  {
    hide CoreInv, Permit.Conserved, DocsOk, ItemsOk;
  }

  // ---- a request after it ---------------------------------------------------

  /** The document is open when the peer comes to body `k`, since body `i`. */
  ghost predicate OpenAt(bodies: seq<Body>, uri: Uri, i: nat, k: nat)
  {
    && i < k < |bodies| && bodies[i].tag == DidOpen(uri)
    && forall m :: i < m < k ==> bodies[m].tag != DidClose(uri)
  }

  /** A frame sent while the scope holds a document, whatever happens afterwards, has its place in
      the queue behind the document's open with no close of it between; and a peer that decodes the
      frame has decoded that open before it, and no close since. */
  lemma RequestFindsDocumentOpen(s: State, c: nat, run: seq<Action>, uri: Uri)
    requires Reachable(s) && !s.leaked && uri in Owned(s)
    requires Enabled(s, OfCaller(c, TrySend)) && CanSend(s.core)
    requires Runs(Apply(s, OfCaller(c, TrySend)), run)
    ensures var t := After(Apply(s, OfCaller(c, TrySend)), run);
      var bodies, k := AllBodies(t.core.enqueued), |AllBodies(s.core.enqueued)|;
      var decoded := Codec.ReadAll(t.core.wire).bodies;
      && k < |bodies| && bodies[k] == s.callers[c].body
      && exists i :: OpenAt(bodies, uri, i, k)
           && (k < |decoded| ==> decoded[..k + 1] == BytesOf(bodies)[..k + 1])
  {
    hide Inv, Enabled, Apply, Runs, After, Reachable, SeeAll, Owned, AllBodies, OpenAt, CanSend;
    var sent := Apply(s, OfCaller(c, TrySend));
    var t := After(sent, run);
    SentIsNext(s, c);
    RunGrows(sent, run);
    QueueBodies(s.core.enqueued, Message(s.callers[c].body), t.core.enqueued);
    ScopeOwnsWhatIsOpen(s);
    OpenStays(AllBodies(s.core.enqueued), AllBodies(t.core.enqueued), uri);
    DecodedIsQueued(s, c, run);
  }

  lemma OpenStays(before: seq<Body>, bodies: seq<Body>, uri: Uri)
    requires uri in SeeAll(before).open && before < bodies
    ensures exists i :: OpenAt(bodies, uri, i, |before|)
  {
    OpenMeaning(before, uri);
    hide SeeAll;
    var i :| OpenSince(before, uri, i);
    assert forall m :: 0 <= m < |before| ==> bodies[m] == before[m];
    assert OpenAt(bodies, uri, i, |before|);
  }

  lemma SentIsNext(s: State, c: nat)
    requires Enabled(s, OfCaller(c, TrySend)) && CanSend(s.core)
    ensures c in s.callers
    ensures Apply(s, OfCaller(c, TrySend)).core.enqueued == s.core.enqueued + [Message(s.callers[c].body)]
  {
  }

  lemma QueueBodies(items: seq<Item>, item: Item, all: seq<Item>)
    requires items + [item] <= all && item.Message?
    ensures AllBodies(items) + [item.body] <= AllBodies(all)
  {
    AllBodiesSnoc(items, item);
    AllBodiesSplit(all, |items| + 1);
    assert all[..|items| + 1] == items + [item];
  }

  lemma DecodedIsQueued(s: State, c: nat, run: seq<Action>)
    requires Reachable(s) && Enabled(s, OfCaller(c, TrySend)) && Runs(Apply(s, OfCaller(c, TrySend)), run)
    ensures var t := After(Apply(s, OfCaller(c, TrySend)), run);
      Codec.ReadAll(t.core.wire).bodies <= BytesOf(AllBodies(t.core.enqueued))
  {
    var a := OfCaller(c, TrySend);
    var t := After(Apply(s, a), run);
    hide Enabled, Apply, SeeAll;
    ReachableOn(s, [a] + run) by {
      assert ([a] + run)[0] == a && ([a] + run)[1..] == run;
    }
    assert ([a] + run)[0] == a && ([a] + run)[1..] == run;
    hide Runs, After, Reachable;
    PeerSeesBalancedPrefix(t);
  }

  lemma ReachableOn(s: State, run: seq<Action>)
    requires Reachable(s) && Runs(s, run)
    ensures Reachable(After(s, run))
  {
    hide Enabled, Apply;
    var first :| Runs(INIT, first) && After(INIT, first) == s;
    RunsOn(INIT, first, run);
  }

  lemma {:induction false} RunsOn(s: State, a: seq<Action>, b: seq<Action>)
    requires Runs(s, a) && Runs(After(s, a), b)
    ensures Runs(s, a + b) && After(s, a + b) == After(After(s, a), b)
    decreases |a|
  {
    hide Enabled, Apply;
    if a == [] {
      assert a + b == b;
    } else {
      assert (a + b)[0] == a[0] && (a + b)[1..] == a[1..] + b;
      RunsOn(Apply(s, a[0]), a[1..], b);
    }
  }
}
