/** What the client promises, over every run from a fresh one. */
module ClientTheorems {
  import Codec
  import opened Utf8
  import opened ClientCore
  import opened CoreInvariant
  import opened Client
  import opened Permit
  import opened Correlation
  import opened Documents
  import opened ClientSafety

  // ---- the wire and the acknowledgments -------------------------------------

  lemma {:induction false} AllBytesMonotone(items: seq<Item>, j: nat, k: nat)
    requires j <= k <= |items|
    ensures AllBytes(items[..j]) <= AllBytes(items[..k])
    decreases k - j
  {
    if j < k {
      AllBytesSnoc(items, j);
      AllBytesMonotone(items, j + 1, k);
    }
  }

  /** The wire carries the items written so far, complete and in queue order, and then at most a
      part of the next. */
  lemma WireIsQueuePrefix(s: State)
    requires Reachable(s)
    ensures s.core.written <= |s.core.enqueued|
    ensures AllBytes(s.core.enqueued[..s.core.written]) <= s.core.wire
    ensures s.core.written < |s.core.enqueued| ==>
              s.core.wire <= AllBytes(s.core.enqueued[..s.core.written + 1])
    ensures s.core.wire <= AllBytes(s.core.enqueued)
  {
    ReachableInv(s);
    WireShape(s.core);
  }

  lemma WireShape(c: Core)
    requires CoreInv(c)
    ensures AllBytes(c.enqueued[..c.written]) <= c.wire && c.wire <= AllBytes(c.enqueued[..c.head])
    ensures c.written < |c.enqueued| ==> c.wire <= AllBytes(c.enqueued[..c.written + 1])
    ensures c.wire <= AllBytes(c.enqueued)
  {
    hide AllBytes, ItemBytes, Acknowledged, Flagged, Registered;
    WireBelowHead(c);
    AllBytesMonotone(c.enqueued, c.head, |c.enqueued|);
    assert c.enqueued[..|c.enqueued|] == c.enqueued;
    if c.written < |c.enqueued| { AllBytesMonotone(c.enqueued, c.head, c.written + 1); }
  }

  lemma WireBelowHead(c: Core)
    requires CoreInv(c)
    ensures c.wire <= AllBytes(c.enqueued[..c.head])
  {
    hide AllBytes, ItemBytes;
    if c.written < c.head { AllBytesSnoc(c.enqueued, c.written); }
  }

  lemma AckOkMeansWritten(c: Core, k: nat)
    requires CoreInv(c) && k < |c.acks| && c.acks[k] == AckOk
    ensures k < c.written && c.written <= |c.enqueued|
  {
    hide Wired, Flagged, Registered;
  }

  /** An Ok acknowledgment is a barrier: everything queued up to and including its item is on the wire. */
  lemma AcknowledgedIsBarrier(s: State, k: nat)
    requires Reachable(s) && k < |s.core.acks| && s.core.acks[k] == AckOk
    ensures k < |s.core.enqueued| && AllBytes(s.core.enqueued[..k + 1]) <= s.core.wire
  {
    hide AllBytes, Reachable, CoreInv, Conserved, Correlated, DocsOk;
    ReachableInv(s);
    AckOkMeansWritten(s.core, k);
    WireShape(s.core);
    AllBytesMonotone(s.core.enqueued, k + 1, s.core.written);
  }

  // ---- what the peer decodes ------------------------------------------------

  lemma {:induction false} AllBytesAreFrames(items: seq<Item>)
    ensures AllBytes(items) == Codec.Frames(BytesOf(AllBodies(items)))
  {
    hide Codec.Frame;
    if items == [] {
      assert BytesOf(AllBodies(items)) == [];
    } else {
      var n := |items| - 1;
      AllBytesAreFrames(items[..n]);
      Codec.FramesAppend(BytesOf(AllBodies(items[..n])), BytesOf(items[n].Bodies()));
      assert BytesOf(AllBodies(items)) == BytesOf(AllBodies(items[..n])) + BytesOf(items[n].Bodies());
    }
  }

  lemma {:induction false} AllSendable(c: Core, items: seq<Item>)
    requires forall k :: 0 <= k < |items| ==> ItemOk(c, items[k])
    ensures forall b :: b in AllBodies(items) ==> Sendable(b.bytes)
  {
    if items != [] {
      AllSendable(c, items[..|items| - 1]);
      assert ItemOk(c, items[|items| - 1]);
    }
  }

  /** How many queued bodies reached the peer whole. */
  function Delivered(s: State): (n: nat)
    ensures n <= |AllBodies(s.core.enqueued)|
  {
    Codec.WholeFrames(BytesOf(AllBodies(s.core.enqueued)), |s.core.wire|)
  }

  /** Whatever failed or was cancelled, the peer decodes exactly a prefix of the queued bodies,
      and that prefix never opens a document twice without closing it in between. */
  lemma PeerSeesBalancedPrefix(s: State)
    requires Reachable(s)
    ensures Codec.ReadAll(s.core.wire).bodies == BytesOf(AllBodies(s.core.enqueued))[..Delivered(s)]
    ensures Balanced(AllBodies(s.core.enqueued)[..Delivered(s)])
  {
    ReachableInv(s);
    WireShape(s.core);
    var bodies := AllBodies(s.core.enqueued);
    AllBytesAreFrames(s.core.enqueued);
    AllSendable(s.core, s.core.enqueued);
    CutQueue(bodies, s.core.wire);
    DoubledPersists(bodies, Delivered(s));
    DoubledMeaning(bodies[..Delivered(s)]);
  }

  lemma CutQueue(bodies: seq<Body>, wire: seq<byte>)
    requires wire <= Codec.Frames(BytesOf(bodies))
    requires forall b :: b in bodies ==> Sendable(b.bytes)
    ensures Codec.ReadAll(wire).bodies == BytesOf(bodies)[..Codec.WholeFrames(BytesOf(bodies), |wire|)]
  {
    hide Codec.Frames, Codec.WholeFrames, Codec.ReadAll;
    forall i | 0 <= i < |bodies| ensures Sendable(BytesOf(bodies)[i])
    {
      assert bodies[i] in bodies;
    }
    Codec.CutStream(BytesOf(bodies), wire);
  }

  /** The barrier as the peer observes it: once item `k` was acknowledged Ok, every body queued
      up to it has been decoded. */
  lemma AcknowledgedIsDelivered(s: State, k: nat)
    requires Reachable(s) && k < |s.core.acks| && s.core.acks[k] == AckOk
    ensures k < |s.core.enqueued| && Delivered(s) >= |AllBodies(s.core.enqueued[..k + 1])|
  {
    AcknowledgedIsBarrier(s, k);
    var e := s.core.enqueued;
    AllBodiesSplit(e, k + 1);
    AllBytesAreFrames(e[..k + 1]);
    var all := BytesOf(AllBodies(e));
    var head := BytesOf(AllBodies(e[..k + 1]));
    assert all == head + all[|head|..];
    Codec.WholeFramesReach(head, all[|head|..], |s.core.wire|);
  }

  lemma {:induction false} AllBodiesSplit(items: seq<Item>, k: nat)
    requires k <= |items|
    ensures AllBodies(items[..k]) <= AllBodies(items)
  {
    if k == |items| {
      assert items[..k] == items;
    } else {
      var init := items[..|items| - 1];
      AllBodiesSplit(init, k);
      assert init[..k] == items[..k];
    }
  }

  // ---- documents ------------------------------------------------------------

  /** While a scope works and no batch was lost, the queue leaves open exactly its documents
      whose frame was queued. */
  lemma ScopeOwnsWhatIsOpen(s: State)
    requires Reachable(s) && !s.leaked
    ensures SeeAll(AllBodies(s.core.enqueued)).open == Owned(s)
  {
    ReachableInv(s);
  }

  /** A close that meets no open document is one whose `ensure_open` was cancelled or failed
      before its frame entered the queue, failures of the writer included. */
  lemma StrayClosesAreOrphans(s: State)
    requires Reachable(s)
    ensures SeeAll(AllBodies(s.core.enqueued)).stray == s.orphans
  {
    ReachableInv(s);
  }

  /** The step leaves an `ensure_open` of `uri` whose frame never entered the queue. */
  predicate Misses(s: State, a: Action, uri: Uri)
  {
    && (a == OfScope(Opened) || a == OfScope(AbandonOpen))
    && s.scope.InScope? && s.scope.pc.Opening? && s.scope.pc.uri == uri
    && s.scope.pc.c in s.callers && !s.callers[s.scope.pc.c].queued
  }

  ghost function MissedOpens(s: State, run: seq<Action>, uri: Uri): nat
    requires Runs(s, run)
    decreases |run|
  {
    if run == [] then 0
    else (if Misses(s, run[0], uri) then 1 else 0) + MissedOpens(Apply(s, run[0]), run[1..], uri)
  }

  /** Stray closes so far, and the one still to come. */
  function Debt(s: State, uri: Uri): nat
  {
    s.orphans[uri] + if s.scope.InScope? && uri in s.scope.lost then 1 else 0
  }

  lemma StepDebt(s: State, a: Action, uri: Uri)
    requires Enabled(s, a)
    ensures Debt(Apply(s, a), uri) <= Debt(s, uri) + if Misses(s, a, uri) then 1 else 0
  {
    hide CallerApply, WriterApply, Drains, Uris;
    match a {
      case OfCaller(c, step) => CallerKeepsScope(s, c, step);
      case OfScope(step) => ScopeDebt(s, step, uri);
      case OfWriter(_) =>
      case Issue(_) =>
      case Notify(_) =>
      case RunDrain =>
      case Reply(_, _) =>
      case ReaderFails =>
    }
  }

  lemma CallerKeepsScope(s: State, c: nat, step: CallerStep)
    requires CallerEnabled(s, c, step)
    ensures var t := CallerApply(s, c, step);
      t.scope == s.scope && t.orphans == s.orphans && t.leaked == s.leaked
  {
  }

  lemma ScopeDebt(s: State, step: ScopeStep, uri: Uri)
    requires ScopeEnabled(s, step)
    ensures Debt(ScopeApply(s, step), uri)
         <= Debt(s, uri) + if Misses(s, OfScope(step), uri) then 1 else 0
  {
    hide Drains, Uris;
    match step {
      case Begin =>
      case Open(_, _) =>
      case Opened =>
      case AbandonOpen =>
      case CloseAll(_) =>
      case Drop(_) =>
      case CheckClose =>
      case SendClose =>
      case GiveUpClose =>
      case TakeClose =>
    }
  }

  lemma {:induction false} RunDebt(s: State, run: seq<Action>, uri: Uri)
    requires Runs(s, run)
    ensures Debt(After(s, run), uri) <= Debt(s, uri) + MissedOpens(s, run, uri)
    decreases |run|
  {
    hide Debt, Misses;
    if run != [] {
      StepDebt(s, run[0], uri);
      RunDebt(Apply(s, run[0]), run[1..], uri);
    }
  }

  /** While no batch is lost, missed opens and stray closes balance exactly. */
  lemma ScopePaysDebt(s: State, step: ScopeStep, uri: Uri)
    requires ScopeEnabled(s, step) && ScopeShape(s)
    ensures s.leaked ==> ScopeApply(s, step).leaked
    ensures !ScopeApply(s, step).leaked ==>
      Debt(ScopeApply(s, step), uri) == Debt(s, uri) + if Misses(s, OfScope(step), uri) then 1 else 0
  {
    hide Drains, Uris;
    match step {
      case Begin =>
      case Open(_, _) =>
      case Opened =>
      case AbandonOpen =>
      case CloseAll(_) =>
      case Drop(_) =>
      case CheckClose =>
      case SendClose =>
      case GiveUpClose =>
      case TakeClose =>
    }
  }

  lemma StepPaysDebt(s: State, a: Action, uri: Uri)
    requires Enabled(s, a) && ScopeShape(s)
    ensures s.leaked ==> Apply(s, a).leaked
    ensures !Apply(s, a).leaked ==>
      Debt(Apply(s, a), uri) == Debt(s, uri) + if Misses(s, a, uri) then 1 else 0
  {
    hide CallerApply, WriterApply, ScopeApply, ScopeShape, Drains, Uris;
    match a {
      case OfCaller(c, step) => CallerKeepsScope(s, c, step);
      case OfScope(step) => ScopePaysDebt(s, step, uri);
      case OfWriter(_) =>
      case Issue(_) =>
      case Notify(_) =>
      case RunDrain =>
      case Reply(_, _) =>
      case ReaderFails =>
    }
  }

  lemma ShapeOf(s: State)
    requires Inv(s)
    ensures ScopeShape(s)
  {
  }

  lemma {:induction false} RunPaysDebt(s: State, run: seq<Action>, uri: Uri)
    requires Inv(s) && Runs(s, run)
    ensures s.leaked ==> After(s, run).leaked
    ensures !After(s, run).leaked ==> Debt(After(s, run), uri) == Debt(s, uri) + MissedOpens(s, run, uri)
    decreases |run|
  {
    hide Debt, Misses, Inv, Enabled, Apply, ScopeShape;
    if run != [] {
      ShapeOf(s);
      StepPaysDebt(s, run[0], uri);
      StepInv(s, run[0]);
      RunPaysDebt(Apply(s, run[0]), run[1..], uri);
    }
  }

  /** A close reaches the queue without its open only if, earlier in the run, an `ensure_open` of
      that document was cancelled or failed before its frame was queued; and unless a batch was
      lost, every such miss costs exactly one stray close by the time its scope is gone. So no
      close of the document is a stray if and only if no open of it was missed. */
  lemma StrayCloseNeedsMissedOpen(run: seq<Action>, uri: Uri)
    requires Runs(INIT, run)
    ensures var t := After(INIT, run);
      var stray := SeeAll(AllBodies(t.core.enqueued)).stray[uri];
      && stray <= MissedOpens(INIT, run, uri)
      && (t.scope == NoScope && !t.leaked ==>
            stray == MissedOpens(INIT, run, uri) && (stray == 0 <==> MissedOpens(INIT, run, uri) == 0))
  {
    var t := After(INIT, run);
    assert Reachable(t);
    StrayClosesAreOrphans(t);
    RunDebt(INIT, run, uri);
    InitInv();
    RunPaysDebt(INIT, run, uri);
  }

  function Close(uri: Uri): Body { Body(DidClose(uri), [0]) }

  function CancelledOpen(uri: Uri): seq<Action>
  {
    [OfScope(Begin)] + ([OfScope(Open(uri, [0]))] + ([OfScope(AbandonOpen)]
      + ([OfScope(Drop([Close(uri)]))] + ([OfScope(CheckClose)] + ([OfScope(SendClose)] + [])))))
  }

  /** A scope that owns `uri`, whose open was missed, in an otherwise fresh client. */
  function Holding(uri: Uri, pc: ScopePc): State
  {
    State(INITIAL, map[], 1, InScope(if pc == Working then {uri} else {}, {uri}, pc), multiset{}, false)
  }

  lemma AbandonedBeforePermit(uri: Uri)
    ensures Enabled(INIT, OfScope(Begin))
    ensures Enabled(Apply(INIT, OfScope(Begin)), OfScope(Open(uri, [0])))
    ensures Enabled(Apply(Apply(INIT, OfScope(Begin)), OfScope(Open(uri, [0]))), OfScope(AbandonOpen))
    ensures Apply(Apply(Apply(INIT, OfScope(Begin)), OfScope(Open(uri, [0]))), OfScope(AbandonOpen))
         == Holding(uri, Working)
    ensures !Misses(INIT, OfScope(Begin), uri)
    ensures !Misses(Apply(INIT, OfScope(Begin)), OfScope(Open(uri, [0])), uri)
    ensures Misses(Apply(Apply(INIT, OfScope(Begin)), OfScope(Open(uri, [0]))), OfScope(AbandonOpen), uri)
  {
    hide Drains, Uris;
    var t := Apply(Apply(INIT, OfScope(Begin)), OfScope(Open(uri, [0])));
    assert t.callers - {0} == map[];
    assert {} + {uri} == {uri};
  }

  lemma DroppedAfterwards(uri: Uri)
    ensures var close := [Close(uri)];
      var s, t, u := Holding(uri, Working), Holding(uri, Closing(close, true)), Holding(uri, Sending(close, true));
      && Enabled(s, OfScope(Drop(close))) && Apply(s, OfScope(Drop(close))) == t
      && Enabled(t, OfScope(CheckClose)) && Apply(t, OfScope(CheckClose)) == u
      && Enabled(u, OfScope(SendClose))
      && Apply(u, OfScope(SendClose))
         == State(Enqueue(INITIAL, CloseDocuments(close)), map[], 1, NoScope, multiset{uri}, false)
  {
    assert Uris([Close(uri)]) == {uri};
    hide Drains, Uris;
  }

  lemma Prepend(s: State, a: Action, rest: seq<Action>, uri: Uri)
    requires Enabled(s, a) && Runs(Apply(s, a), rest)
    ensures Runs(s, [a] + rest) && After(s, [a] + rest) == After(Apply(s, a), rest)
    ensures MissedOpens(s, [a] + rest, uri)
         == (if Misses(s, a, uri) then 1 else 0) + MissedOpens(Apply(s, a), rest, uri)
  {
    hide Enabled, Apply, Misses;
    assert ([a] + rest)[0] == a && ([a] + rest)[1..] == rest;
  }

  /** It does happen: a scope dropped while its only `ensure_open` waited for the permit queues a
      close of a document nobody opened, and nothing has failed. */
  lemma StrayCloseHappens(uri: Uri)
    ensures Runs(INIT, CancelledOpen(uri)) && MissedOpens(INIT, CancelledOpen(uri), uri) == 1
    ensures var t := After(INIT, CancelledOpen(uri));
      && t.scope == NoScope && !t.core.failed && !t.leaked
      && AllBodies(t.core.enqueued) == [Close(uri)]
      && SeeAll(AllBodies(t.core.enqueued)).stray[uri] == 1
  {
    AbandonedBeforePermit(uri);
    DroppedAfterwards(uri);
    hide Enabled, Apply, Misses;
    var close := [Close(uri)];
    var s1 := Apply(INIT, OfScope(Begin));
    var s2 := Apply(s1, OfScope(Open(uri, [0])));
    var s3, s4, s5 := Holding(uri, Working), Holding(uri, Closing(close, true)), Holding(uri, Sending(close, true));
    var t := Apply(s5, OfScope(SendClose));
    assert Runs(t, []) && After(t, []) == t && MissedOpens(t, [], uri) == 0;
    var r5 := [OfScope(SendClose)] + [];
    var r4 := [OfScope(CheckClose)] + r5;
    var r3 := [OfScope(Drop(close))] + r4;
    var r2 := [OfScope(AbandonOpen)] + r3;
    var r1 := [OfScope(Open(uri, [0]))] + r2;
    hide Runs, After, MissedOpens;
    Prepend(s5, OfScope(SendClose), [], uri);
    Prepend(s4, OfScope(CheckClose), r5, uri);
    Prepend(s3, OfScope(Drop(close)), r4, uri);
    Prepend(s2, OfScope(AbandonOpen), r3, uri);
    Prepend(s1, OfScope(Open(uri, [0])), r2, uri);
    Prepend(INIT, OfScope(Begin), r1, uri);
    assert CancelledOpen(uri) == [OfScope(Begin)] + r1;
    StrayCloseNeedsMissedOpen(CancelledOpen(uri), uri);
    OneBatch(close);
  }

  lemma OneBatch(close: seq<Body>)
    ensures AllBodies(Enqueue(INITIAL, CloseDocuments(close)).enqueued) == close
  {
    AllBodiesSnoc([], CloseDocuments(close));
    assert [] + [CloseDocuments(close)] == [CloseDocuments(close)];
    assert AllBodies([]) + close == close;
  }

  /** A scope between two moments without one, `run` leading from the first to the second, closes
      what it opened: of what was queued meanwhile, each document has as many closes as opens, plus
      one per open that was missed meanwhile. */
  lemma ScopeClosesItsOwn(s: State, run: seq<Action>, uri: Uri)
    requires Reachable(s) && s.scope == NoScope && Runs(s, run)
    requires After(s, run).scope == NoScope && !After(s, run).leaked
    ensures var before, after := AllBodies(s.core.enqueued), AllBodies(After(s, run).core.enqueued);
      Count(after, DidClose(uri)) - Count(before, DidClose(uri))
      == Count(after, DidOpen(uri)) - Count(before, DidOpen(uri)) + MissedOpens(s, run, uri)
  {
    hide Inv, Count, SeeAll, MissedOpens;
    var t := After(s, run);
    ReachableInv(s);
    RunInv(s, run);
    RunPaysDebt(s, run, uri);
    RestingCounts(s, uri);
    RestingCounts(t, uri);
  }

  lemma RestingCounts(s: State, uri: Uri)
    requires Inv(s) && s.scope == NoScope && !s.leaked
    ensures var bodies := AllBodies(s.core.enqueued);
      Count(bodies, DidClose(uri)) == Count(bodies, DidOpen(uri)) + Debt(s, uri)
  {
    hide CoreInv, Conserved, Correlated;
    CountMeaning(AllBodies(s.core.enqueued), uri);
  }

  /** The close at `j` is the next word about `uri` after `i`. */
  ghost predicate NextIsClose(bodies: seq<Body>, uri: Uri, i: nat, j: nat)
  {
    && i < j < |bodies| && bodies[j].tag == DidClose(uri)
    && forall m :: i < m < j ==> bodies[m].tag != DidOpen(uri) && bodies[m].tag != DidClose(uri)
  }

  lemma {:induction false} FirstClose(bodies: seq<Body>, uri: Uri, i: nat, j: nat)
    requires Balanced(bodies) && i < j < |bodies|
    requires bodies[i].tag == DidOpen(uri) && bodies[j].tag == DidClose(uri)
    ensures exists k :: NextIsClose(bodies, uri, i, k)
    decreases j
  {
    if m :| i < m < j && bodies[m].tag == DidClose(uri) {
      FirstClose(bodies, uri, i, m);
    } else {
      assert NextIsClose(bodies, uri, i, j);
    }
  }

  /** With the scope gone, a batch can have been lost only to a failure of the client. */
  lemma LossMeansFailure(s: State)
    requires Reachable(s) && s.scope == NoScope && s.leaked
    ensures s.core.failed
  {
    ReachableInv(s);
    hide CoreInv, Conserved, Correlated;
  }

  /** With the scope gone and no batch lost no document is open: each open in the queue has its
      own close, the next word about that document, and beyond these there are exactly as many
      closes as opens were missed in the run. */
  lemma ClosedScopeLeavesNothingOpen(run: seq<Action>, uri: Uri)
    requires Runs(INIT, run)
    requires After(INIT, run).scope == NoScope && !After(INIT, run).leaked
    ensures var bodies := AllBodies(After(INIT, run).core.enqueued);
      && uri !in SeeAll(bodies).open
      && Balanced(bodies)
      && (forall i :: 0 <= i < |bodies| && bodies[i].tag == DidOpen(uri) ==>
            exists j :: NextIsClose(bodies, uri, i, j))
      && Count(bodies, DidClose(uri)) == Count(bodies, DidOpen(uri)) + MissedOpens(INIT, run, uri)
  {
    hide CoreInv, Conserved, Correlated, MissedOpens, NextIsClose, Count;
    var t := After(INIT, run);
    var bodies := AllBodies(t.core.enqueued);
    InitInv();
    RunInv(INIT, run);
    RunPaysDebt(INIT, run, uri);
    RestingCounts(t, uri);
    DoubledMeaning(bodies);
    OpenMeaning(bodies, uri);
    forall i | 0 <= i < |bodies| && bodies[i].tag == DidOpen(uri) ensures exists j :: NextIsClose(bodies, uri, i, j)
    {
      assert !OpenSince(bodies, uri, i);
      var j :| i < j < |bodies| && bodies[j].tag == DidClose(uri);
      FirstClose(bodies, uri, i, j);
    }
  }

  // ---- the permit -----------------------------------------------------------

  lemma PermitIsConserved(s: State)
    requires Reachable(s)
    ensures s.core.permits + |Holders(s.callers)| + Normals(s.core) == 1
  {
    ReachableInv(s);
  }

  lemma {:induction false} NoNormals(items: seq<Item>, k: nat)
    requires NormalCount(items) == 0 && k < |items|
    ensures items[k].CloseDocuments?
  {
    if k > 0 { NoNormals(items[1..], k - 1); }
  }

  /** A caller about to send finds no other message queued or being written, so the queue can
      be full of cleanup batches only. */
  lemma SenderMeetsOnlyCleanup(s: State, c: nat)
    requires Reachable(s) && c in s.callers && s.callers[c].pc == Ready
    ensures forall k :: 0 <= k < |s.core.queue| ==> s.core.queue[k].CloseDocuments?
    ensures s.core.writer.Holding? ==> s.core.writer.item.CloseDocuments?
    ensures !CanSend(s.core) ==> s.core.writer == Dead || |s.core.queue| == CAPACITY
  {
    ReachableInv(s);
    assert c in Holders(s.callers);
    assert |Holders(s.callers)| >= 1 by { assert Holders(s.callers) != {}; }
    forall k | 0 <= k < |s.core.queue| ensures s.core.queue[k].CloseDocuments?
    {
      NoNormals(s.core.queue, k);
    }
  }
}
