/** The write path cannot get stuck: the writer's own steps answer everything outstanding, and
    a caller waiting for the permit can always be served. */
module ClientProgress {
  import opened ClientCore
  import opened CoreInvariant
  import opened Client
  import opened Permit
  import opened Correlation
  import opened ClientSafety

  // ---- a measure of the writer's work ---------------------------------------

  function QueueWork(items: seq<Item>): nat
  {
    if items == [] then 0 else |ItemBytes(items[0])| + 8 + QueueWork(items[1..])
  }

  /** Queued items plus unwritten bytes, with room for the steps around each write. */
  function Work(c: Core): nat
  {
    QueueWork(c.queue) +
    match c.writer
    case Idle => 1
    case Dead => 0
    case Holding(item, stage) =>
      match stage
      case Received => |ItemBytes(item)| + 8
      case Writing(n) => if n <= |ItemBytes(item)| then |ItemBytes(item)| - n + 7 else 7
      case Erring => 5
      case Drained => 4
      case Releasing => 2
      case Leaving => 3
  }

  lemma WriterWorks(c: Core, w: WriterStep)
    requires CoreInv(c) && WriterEnabled(c, w)
    ensures Work(WriterApply(c, w)) < Work(c)
  {
    hide AllBytes, ItemBytes, Acknowledged, Flagged, Registered, NormalCount, WakeAll, CloseFrom;
    match w {
      case Recv =>
      case CheckFailed =>
      case Write(n) =>
      case Finish =>
      case Fail =>
      case WakeWaiters =>
      case AckError =>
      case Release =>
      case Leave =>
      case Abort =>
    }
  }

  predicate Busy(c: Core) { c.writer.Holding? || (c.writer == Idle && c.queue != []) }

  /** What the writer does next when the pipe accepts everything. */
  function NextStep(c: Core): WriterStep
    requires Busy(c)
  {
    match c.writer
    case Idle => Recv
    case Holding(item, stage) =>
      match stage
      case Received => CheckFailed
      case Writing(n) => if n < |ItemBytes(item)| then Write(|ItemBytes(item)| - n) else Finish
      case Erring => WakeWaiters
      case Drained => AckError
      case Releasing => Release
      case Leaving => Leave
  }

  lemma NextStepEnabled(c: Core)
    requires CoreInv(c) && Busy(c)
    ensures WriterEnabled(c, NextStep(c))
    ensures !c.failed ==> !WriterApply(c, NextStep(c)).failed
  {
    hide AllBytes, ItemBytes, Acknowledged, Registered, NormalCount, WakeAll, CloseFrom;
  }

  // ---- runs of the writer alone ---------------------------------------------

  ghost predicate WriterOnly(run: seq<Action>) { forall i :: 0 <= i < |run| ==> run[i].OfWriter? }

  lemma RunCons(s: State, a: Action, run: seq<Action>)
    requires Enabled(s, a) && Runs(Apply(s, a), run)
    ensures Runs(s, [a] + run) && After(s, [a] + run) == After(Apply(s, a), run)
  {
    assert ([a] + run)[1..] == run;
  }

  /** From any reachable state the writer's own steps, no more of them than `Work`, bring it to
      rest; the callers and the queue's history are as they were, and a sound writer stays sound. */
  lemma {:induction false} WriterComesToRest(s: State) returns (run: seq<Action>)
    requires Inv(s)
    ensures WriterOnly(run) && |run| <= Work(s.core) && Runs(s, run)
    ensures var t := After(s, run);
      && Inv(t) && !Busy(t.core) && t.callers == s.callers && t.core.enqueued == s.core.enqueued
      && (!s.core.failed ==> !t.core.failed)
    decreases Work(s.core)
  {
    hide Inv, Work, NextStep;
    if Busy(s.core) {
      assert CoreInv(s.core) by { CoreOf(s); }
      NextStepEnabled(s.core);
      var w := NextStep(s.core);
      var t := Apply(s, OfWriter(w));
      WriterWorks(s.core, w);
      WriterFacts(s.core, w);
      StepInv(s, OfWriter(w));
      var rest := WriterComesToRest(t);
      run := [OfWriter(w)] + rest;
      RunCons(s, OfWriter(w), rest);
    } else {
      run := [];
    }
  }

  lemma CoreOf(s: State)
    requires Inv(s)
    ensures CoreInv(s.core) && Conserved(s) && Correlated(s)
  {
  }

  /** A writer at rest owes nobody: nothing is outstanding, and if it did not fail everything
      queued was acknowledged Ok. */
  lemma RestAnswersAll(c: Core)
    requires CoreInv(c) && !Busy(c)
    ensures forall k :: 0 <= k < |c.acks| ==> c.acks[k] != Pending
    ensures !c.failed ==> forall k :: 0 <= k < |c.acks| ==> c.acks[k] == AckOk
    ensures Normals(c) == 0
  {
    hide Wired, Registered;
  }

  /** Every outstanding acknowledgment is resolved by writer steps alone, and resolved Ok if the
      pipe holds and `failed` was not set. */
  lemma AckIsAnswered(s: State, k: nat)
    requires Reachable(s) && k < |s.core.acks|
    ensures exists run :: WriterOnly(run) && |run| <= Work(s.core) && Runs(s, run)
              && k < |After(s, run).core.acks|
              && After(s, run).core.acks[k] != Pending
              && (!s.core.failed ==> After(s, run).core.acks[k] == AckOk)
  {
    ReachableInv(s);
    var run := WriterComesToRest(s);
    var t := After(s, run);
    CoreOf(s);
    CoreOf(t);
    RestAnswersAll(t.core);
    hide Inv, Conserved, Correlated, Wired, Acknowledged;
    assert |t.core.acks| == |s.core.acks|;
  }

  /** A terminated writer has given back every permit it had and closed every acknowledgment. */
  lemma DeadWriterReleasesAll(s: State)
    requires Reachable(s) && s.core.writer == Dead
    ensures forall k :: 0 <= k < |s.core.acks| ==> s.core.acks[k] != Pending
    ensures s.core.permits + |Holders(s.callers)| == 1
  {
    ReachableInv(s);
    RestAnswersAll(s.core);
  }

  // ---- waiting for the permit -----------------------------------------------

  /** How far the permit's holder, if a caller, is from its `try_send`. */
  ghost function HolderRank(callers: map<nat, Caller>): nat
  {
    if exists h :: h in callers && callers[h].pc == Granted then 2
    else if exists h :: h in callers && callers[h].pc == Ready then 1
    else 0
  }

  lemma OnlyHolder(s: State, h: nat)
    requires Conserved(s) && h in Holders(s.callers)
    ensures Holders(s.callers) == {h}
  {
    var rest := Holders(s.callers) - {h};
    assert Holders(s.callers) == rest + {h};
    assert |rest| == 0;
  }

  lemma HolderAdvances(s: State, h: nat, step: CallerStep)
    requires Conserved(s) && CallerEnabled(s, h, step)
    requires (step == Check && s.callers[h].pc == Granted) || (step == TrySend && s.callers[h].pc == Ready)
    ensures HolderRank(CallerApply(s, h, step).callers) < HolderRank(s.callers)
    ensures forall d :: d in s.callers && d != h ==>
              d in CallerApply(s, h, step).callers && CallerApply(s, h, step).callers[d] == s.callers[d]
  {
    OnlyHolder(s, h);
    var t := CallerApply(s, h, step);
    forall d | d in t.callers && d != h ensures !HoldsPermit(t.callers[d].pc)
    {
      assert d !in Holders(s.callers);
    }
    if step == TrySend {
      assert forall d :: d in s.callers && s.callers[d].pc == Granted ==> d in Holders(s.callers);
    }
  }

  /** The steps that may be needed before caller `c` has the permit. */
  predicate Serving(a: Action, c: nat)
  {
    a.OfWriter? || (a.OfCaller? && (a.step in {Check, TrySend} || a == OfCaller(c, Grant)))
  }

  /** While the permit is taken, some step of its holder or of the writer is enabled, and brings
      the permit closer. */
  lemma HolderOrWriterSteps(s: State, c: nat) returns (a: Action)
    requires CoreInv(s.core) && Conserved(s)
    requires c in s.callers && s.callers[c].pc == NeedPermit && s.core.permits == 0
    ensures Enabled(s, a) && Serving(a, c)
    ensures c in Apply(s, a).callers && Apply(s, a).callers[c] == s.callers[c]
    ensures var t := Apply(s, a);
      HolderRank(t.callers) < HolderRank(s.callers)
      || (t.callers == s.callers && Work(t.core) < Work(s.core))
  {
    hide CoreInv, Conserved, Work, NextStep, HolderRank, CallerApply, WriterApply;
    if h :| h in Holders(s.callers) {
      var step := if s.callers[h].pc == Granted then Check else TrySend;
      HolderAdvances(s, h, step);
      a := OfCaller(h, step);
    } else {
      PermitWithWriter(s);
      NextStepEnabled(s.core);
      WriterWorks(s.core, NextStep(s.core));
      a := OfWriter(NextStep(s.core));
    }
  }

  lemma {:induction false} Serve(s: State, c: nat) returns (run: seq<Action>)
    requires Inv(s) && c in s.callers && s.callers[c].pc == NeedPermit
    ensures (forall i :: 0 <= i < |run| ==> Serving(run[i], c)) && Runs(s, run)
    ensures c in After(s, run).callers && After(s, run).callers[c].pc == Granted
    decreases HolderRank(s.callers), Work(s.core)
  {
    hide Inv, CoreInv, Conserved, Correlated, Work, HolderRank, Enabled, Apply;
    if s.core.permits > 0 {
      GrantRun(s, c);
      run := [OfCaller(c, Grant)];
    } else {
      CoreOf(s);
      var a := HolderOrWriterSteps(s, c);
      StepInv(s, a);
      var rest := Serve(Apply(s, a), c);
      run := [a] + rest;
      RunCons(s, a, rest);
    }
  }

  lemma GrantRun(s: State, c: nat)
    requires c in s.callers && s.callers[c].pc == NeedPermit && s.core.permits > 0
    ensures var run := [OfCaller(c, Grant)];
      Runs(s, run) && c in After(s, run).callers && After(s, run).callers[c].pc == Granted
  {
    RunCons(s, OfCaller(c, Grant), []);
  }

  lemma PermitWithWriter(s: State)
    requires Conserved(s) && CoreInv(s.core) && s.core.permits == 0 && Holders(s.callers) == {}
    ensures Busy(s.core)
  {
    hide Wired, Acknowledged, Registered;
  }

  /** Whoever holds the permit, a caller that waits for it can be served by the holder's and the
      writer's own steps: the write path has no deadlock. */
  lemma PermitCanBeGranted(s: State, c: nat)
    requires Reachable(s) && c in s.callers && s.callers[c].pc == NeedPermit
    ensures exists run :: Runs(s, run) && (forall i :: 0 <= i < |run| ==> Serving(run[i], c))
              && c in After(s, run).callers && After(s, run).callers[c].pc == Granted
  {
    ReachableInv(s);
    var run := Serve(s, c);
  }
}
