/** Safety of the client over every run. */
module ClientSafety {
  import opened ClientCore
  import opened CoreInvariant
  import opened Client
  import opened Permit
  import opened Correlation
  import opened Documents

  ghost predicate Inv(s: State)
  {
    CoreInv(s.core) && Conserved(s) && Correlated(s) && DocsOk(s)
  }

  lemma InitInv()
    ensures Inv(INIT)
  {
    InitialKeeps();
    assert Holders(INIT.callers) == {};
  }

  // ---- every step keeps the invariant ---------------------------------------

  lemma CallerCoreKeeps(s: State, c: nat, step: CallerStep)
    requires CoreInv(s.core) && CallersOk(s) && CallerEnabled(s, c, step)
    ensures CoreInv(CallerApply(s, c, step).core)
  {
    hide Queued, Acknowledged, Wired, Flagged, Registered, NormalCount;
    var x := s.callers[c];
    assert CallerOk(s.core, x);
    PermitsKeep(s.core);
    if step == Register { RegisterKeeps(s.core, x.id); }
    if step == TrySend && CanSend(s.core) { EnqueueKeeps(s.core, Message(x.body)); }
    FailWriterKeeps(s.core);
    RemoveKeeps(s.core, x.id);
  }

  lemma PermitsKeep(c: Core)
    requires CoreInv(c)
    ensures forall p: nat :: CoreInv(c.(permits := p))
  {
    hide AllBytes, ItemBytes;
  }

  lemma StepCore(s: State, a: Action)
    requires CoreInv(s.core) && CallersOk(s) && Enabled(s, a)
    ensures CoreInv(Apply(s, a).core)
  {
    hide CoreInv, CallersOk, Drains, Uris;
    match a {
      case Issue(_) => IssueKeeps(s.core);
      case Notify(_) =>
      case OfCaller(c, step) => CallerCoreKeeps(s, c, step);
      case OfWriter(w) => WriterKeeps(s.core, w);
      case RunDrain => DrainFlag(s.core); DrainKeeps(s.core);
      case Reply(id, reply) => DispatchKeeps(s.core, id, reply);
      case ReaderFails => ReaderDiesKeeps(s.core);
      case OfScope(step) =>
        FailWriterKeeps(s.core);
        PermitsKeep(s.core);
        if step.SendClose? && CanSend(s.core) { EnqueueKeeps(s.core, CloseDocuments(s.scope.pc.batch)); }
    }
  }

  lemma DrainFlag(c: Core)
    requires CoreInv(c) && c.drainPending
    ensures c.failed
  {
  }

  lemma BatchItem(s: State)
    requires DocsOk(s) && s.scope.InScope? && s.scope.pc.Sending?
    ensures ItemOk(s.core, CloseDocuments(s.scope.pc.batch))
  {
    hide SeeAll, AllBodies;
  }

  lemma StepCorrelated(s: State, a: Action)
    requires CoreInv(s.core) && Correlated(s) && DocsOk(s) && Enabled(s, a)
    ensures Correlated(Apply(s, a))
  {
    hide CoreInv, Correlated, DocsOk, Preserves, CallerApply, WriterApply, ScopeApply, Drains, Uris;
    match a {
      case Issue(_) => SpawnRequestCorrelates(s, Apply(s, a).callers[s.nextCaller]);
      case Notify(_) => SpawnNotificationCorrelates(s, Apply(s, a).callers[s.nextCaller], s.scope);
      case OfCaller(c, step) => CallerCorrelates(s, c, step);
      case OfWriter(w) =>
        WriterPreserves(s.core, w);
        WriterFacts(s.core, w);
        CoreStepCorrelates(s, WriterApply(s.core, w));
      case RunDrain =>
        DrainPreserves(s.core, Apply(s, a).core);
        CoreStepCorrelates(s, Apply(s, a).core);
      case Reply(id, reply) =>
        RegisteredOf(s.core);
        DispatchPreserves(s.core, id, reply);
        CoreStepCorrelates(s, Apply(s, a).core);
      case ReaderFails =>
        ReaderDiesPreserves(s.core);
        CoreStepCorrelates(s, Apply(s, a).core);
      case OfScope(step) =>
        if step.SendClose? { BatchItem(s); }
        ScopeCorrelates(s, step);
    }
  }

  lemma RegisteredOf(c: Core)
    requires CoreInv(c)
    ensures Registered(c)
  {
  }

  lemma CallerDocs(s: State, c: nat, step: CallerStep)
    requires CallersOk(s) && DocsOk(s) && CallerEnabled(s, c, step)
    ensures DocsOk(CallerApply(s, c, step))
  {
    hide DocsOk, CallerOk;
    if step == TrySend && CanSend(s.core) {
      assert CorrelatedCaller(s, c);
      SendDocs(s, c);
    } else {
      QuietDocs(s, c, step);
    }
  }

  lemma WriterFacts(c: Core, w: WriterStep)
    requires WriterEnabled(c, w)
    ensures var d := WriterApply(c, w);
      d.enqueued == c.enqueued && (c.failed ==> d.failed) && c.written <= d.written && c.head <= d.head
      && d.nextId == c.nextId
  {
    hide ItemBytes, NormalCount, CloseFrom, WakeAll;
    match w {
      case Recv =>
      case CheckFailed =>
      case Write(n) =>
      case Finish =>
      case Fail =>
      case WakeWaiters =>
      case AckError =>
      case Release =>
      case Leave =>
      case Abort =>
    }
  }

  lemma StepDocs(s: State, a: Action)
    requires CallersOk(s) && DocsOk(s) && Enabled(s, a)
    ensures DocsOk(Apply(s, a))
  {
    assert s.nextCaller !in s.callers;
    hide DocsOk, CallersOk, Drains, Uris, WriterApply, ScopeApply, CallerApply;
    match a {
      case Issue(_) =>
        var t := Spawn(s, Apply(s, a).callers[s.nextCaller]);
        SpawnDocs(s, Apply(s, a).callers[s.nextCaller]);
        CoreDocs(t, Apply(s, a).core);
      case Notify(_) => SpawnDocs(s, Apply(s, a).callers[s.nextCaller]);
      case OfCaller(c, step) => CallerDocs(s, c, step);
      case OfScope(step) => ScopeDocs(s, step);
      case OfWriter(w) =>
        WriterFacts(s.core, w);
        CoreDocs(s, WriterApply(s.core, w));
      case RunDrain => CoreDocs(s, Apply(s, a).core);
      case Reply(_, _) => CoreDocs(s, Apply(s, a).core);
      case ReaderFails => CoreDocs(s, Apply(s, a).core);
    }
  }

  lemma StepInv(s: State, a: Action)
    requires Inv(s) && Enabled(s, a)
    ensures Inv(Apply(s, a))
  {
    assert s.nextCaller !in s.callers;
    hide CoreInv, Conserved, DocsOk;
    StepCore(s, a);
    Conserves(s, a);
    StepCorrelated(s, a);
    StepDocs(s, a);
  }

  lemma {:induction false} RunInv(s: State, run: seq<Action>)
    requires Inv(s) && Runs(s, run)
    ensures Inv(After(s, run))
    decreases |run|
  {
    hide Inv;
    if run != [] {
      StepInv(s, run[0]);
      RunInv(Apply(s, run[0]), run[1..]);
    }
  }

  lemma ReachableInv(s: State)
    requires Reachable(s)
    ensures Inv(s)
  {
    var run :| Runs(INIT, run) && After(INIT, run) == s;
    InitInv();
    RunInv(INIT, run);
  }
}
