/** Failure is absorbing: what a run can still do once `failed` is set. */
module ClientFailure {
  import Permit
  import opened Wrappers
  import opened ClientCore
  import opened CoreInvariant
  import opened Client
  import opened Correlation
  import opened Documents
  import opened ClientSafety
  import opened ClientTheorems

  /** Where a caller that started after the failure can be. */
  predicate Doomed(pc: Pc)
  {
    pc in {MustRegister, NeedPermit, Granted, Undoing, Finished(SendFailed)}
  }

  /** `t` is a state of a run that passed through the failed core `c`, when callers from `first`
      on did not exist yet. */
  ghost predicate Sealed(c: Core, first: nat, t: State)
  {
    && t.core.failed
    && c.enqueued <= t.core.enqueued
    && first <= t.nextCaller
    && c.head <= |c.enqueued| && c.head <= t.core.head
    && t.core.written <= c.head
    && (t.core.head > c.head ==>
          t.core.writer == Dead || AtStage(t.core, Received) || AtStage(t.core, Leaving))
    && t.core.wire <= AllBytes(c.enqueued[..c.head])
    && (forall d :: d in t.callers && d >= first ==> Doomed(t.callers[d].pc))
  }

  lemma SealedNow(s: State)
    requires Inv(s) && s.core.failed
    ensures Sealed(s.core, s.nextCaller, s)
  {
    hide AllBytes;
    WireShape(s.core);
  }

  /** Nothing outside the writer task moves the wire. */
  ghost predicate WriterUntouched(c: Core, d: Core)
  {
    d.written == c.written && d.head == c.head && d.wire == c.wire && d.writer == c.writer
    && (c.failed ==> d.failed) && c.enqueued <= d.enqueued
  }

  lemma OthersLeaveWriterAlone(s: State, a: Action)
    requires Enabled(s, a) && !a.OfWriter?
    ensures WriterUntouched(s.core, Apply(s, a).core)
  {
    hide Drains, Uris, WakeAll;
    match a {
      case OfCaller(c, step) => CallerLeavesWriterAlone(s, c, step);
      case OfScope(step) => ScopeLeavesWriterAlone(s, step);
      case Issue(_) =>
      case Notify(_) =>
      case RunDrain =>
      case Reply(_, _) =>
      case ReaderFails =>
    }
  }

  lemma CallerLeavesWriterAlone(s: State, c: nat, step: CallerStep)
    requires CallerEnabled(s, c, step)
    ensures WriterUntouched(s.core, CallerApply(s, c, step).core)
  {
    match step {
      case Register =>
      case Grant =>
      case Check =>
      case TrySend =>
      case GiveUp =>
      case TakeAck =>
      case Undo =>
      case TakeReply =>
      case Timeout =>
      case Expire =>
      case Cancel =>
    }
  }

  lemma ScopeLeavesWriterAlone(s: State, step: ScopeStep)
    requires ScopeEnabled(s, step)
    ensures WriterUntouched(s.core, ScopeApply(s, step).core)
  {
    hide Drains, Uris;
  }

  /** Every caller that is new, and every old one that moves, is doomed or was before. */
  ghost predicate StaysDoomed(s: State, t: State, first: nat)
  {
    && s.nextCaller <= t.nextCaller
    && (forall d :: d in t.callers && d >= first ==>
          Doomed(t.callers[d].pc) || (d in s.callers && t.callers[d] == s.callers[d]))
  }

  lemma CallerStaysDoomed(t: State, first: nat, d: nat, step: CallerStep)
    requires t.core.failed && CallerEnabled(t, d, step) && CallerOk(t.core, t.callers[d])
    requires d >= first ==> Doomed(t.callers[d].pc)
    ensures StaysDoomed(t, CallerApply(t, d, step), first)
  {
  }

  lemma StepStaysDoomed(t: State, first: nat, a: Action)
    requires t.core.failed && Enabled(t, a) && CallersOk(t)
    requires forall d :: d in t.callers && d >= first ==> Doomed(t.callers[d].pc)
    ensures StaysDoomed(t, Apply(t, a), first)
  {
    hide Drains, Uris, CallerOk, CallerApply;
    match a {
      case OfCaller(c, step) => CallerStaysDoomed(t, first, c, step);
      case OfScope(step) =>
      case OfWriter(_) =>
      case Issue(_) =>
      case Notify(_) =>
      case RunDrain =>
      case Reply(_, _) =>
      case ReaderFails =>
    }
  }

  lemma WriterStaysSealed(c: Core, first: nat, t: State, w: WriterStep)
    requires Sealed(c, first, t) && CoreInv(t.core) && WriterEnabled(t.core, w)
    ensures Sealed(c, first, t.(core := WriterApply(t.core, w)))
  {
    hide AllBytes, ItemBytes, Acknowledged, Flagged, Registered, NormalCount, WakeAll;
    match w {
      case Recv =>
      case CheckFailed =>
      case Write(n) =>
        WriteKeeps(t.core, n);
        WireShape(WriterApply(t.core, w));
        assert t.core.enqueued[..t.core.head] == c.enqueued[..c.head] by {
          WritingHead(c, first, t);
        }
      case Finish =>
      case Fail =>
      case WakeWaiters =>
      case AckError =>
      case Release =>
      case Leave =>
      case Abort =>
    }
  }

  lemma WritingHead(c: Core, first: nat, t: State)
    requires Sealed(c, first, t) && CoreInv(t.core) && IsWriting(t.core)
    ensures t.core.enqueued[..t.core.head] == c.enqueued[..c.head]
  {
  }

  lemma StepStaysSealed(c: Core, first: nat, t: State, a: Action)
    requires Sealed(c, first, t) && Inv(t) && Enabled(t, a)
    ensures Sealed(c, first, Apply(t, a))
  {
    hide AllBytes, CoreInv, Permit.Conserved, CallersOk, ItemsOk, DocsOk, CallerApply, ScopeApply, WriterApply;
    if a.OfWriter? {
      WriterStaysSealed(c, first, t, a.w);
    } else {
      OthersLeaveWriterAlone(t, a);
      StepStaysDoomed(t, first, a);
    }
  }

  lemma {:induction false} RunStaysSealed(c: Core, first: nat, t: State, run: seq<Action>)
    requires Sealed(c, first, t) && Inv(t) && Runs(t, run)
    ensures Sealed(c, first, After(t, run)) && Inv(After(t, run))
    decreases |run|
  {
    hide Sealed, Inv;
    if run != [] {
      StepStaysSealed(c, first, t, run[0]);
      StepInv(t, run[0]);
      RunStaysSealed(c, first, Apply(t, run[0]), run[1..]);
    }
  }

  /** From a failed state on: `failed` stays; an item still queued then, or queued later, is never
      acknowledged Ok and puts nothing on the wire; a caller that starts after it never succeeds. */
  lemma FailureIsAbsorbing(s: State, run: seq<Action>)
    requires Reachable(s) && s.core.failed && Runs(s, run)
    ensures var t := After(s, run);
      && t.core.failed
      && s.core.head <= |s.core.enqueued|
      && t.core.wire <= AllBytes(s.core.enqueued[..s.core.head])
      && (forall k :: s.core.head <= k < |t.core.acks| ==> t.core.acks[k] != AckOk)
      && (forall c :: c in t.callers && c >= s.nextCaller && t.callers[c].pc.Finished? ==>
            t.callers[c].pc == Finished(SendFailed))
  {
    hide Reachable, Runs, After, CoreInv, AllBytes, AtStage, Permit.Conserved, Correlated, DocsOk;
    ReachableInv(s);
    SealedNow(s);
    RunStaysSealed(s.core, s.nextCaller, s, run);
    NeverAcknowledged(s.core, s.nextCaller, After(s, run));
  }

  lemma NeverAcknowledged(c: Core, first: nat, t: State)
    requires Sealed(c, first, t) && CoreInv(t.core)
    ensures forall k :: c.head <= k < |t.core.acks| ==> t.core.acks[k] != AckOk
  {
    hide Wired, Flagged, Registered;
  }

  /** A writer that left its loop has set `failed`: while the client lives nothing else ends it. */
  lemma DeadWriterMeansFailed(s: State)
    requires Reachable(s)
    ensures s.core.writer == Dead || AtStage(s.core, Leaving) ==> s.core.failed
  {
    ReachableInv(s);
  }

  /** The acknowledgment the scope awaits, if it awaits one. */
  function Awaited(s: State): Option<nat>
  {
    if s.scope.InScope? && s.scope.pc.AwaitClose? then Some(s.scope.pc.k) else None
  }

  predicate MaySend(s: State) { s.scope.InScope? && s.scope.pc.Sending? }

  /** `t` lies on a run from the failed `s`, where no close was past its look at `failed`: no batch
      was queued since, and the scope awaits no acknowledgment it did not await then. */
  ghost predicate ClosesRefused(s: State, t: State)
  {
    && t.core.failed && !MaySend(t)
    && s.core.enqueued <= t.core.enqueued
    && (forall k :: |s.core.enqueued| <= k < |t.core.enqueued| ==> t.core.enqueued[k].Message?)
    && (Awaited(t).Some? ==> Awaited(t) == Awaited(s))
  }

  /** Nothing is queued but at most one message, `failed` stays, and no close gets past its look. */
  ghost predicate QueuesNoBatch(s: State, t: State)
  {
    && (s.core.failed ==> t.core.failed)
    && (s.core.failed && MaySend(t) ==> MaySend(s))
    && (Awaited(t).Some? ==> Awaited(t) == Awaited(s))
    && (t.core.enqueued == s.core.enqueued
        || (|t.core.enqueued| == |s.core.enqueued| + 1 && s.core.enqueued <= t.core.enqueued
            && t.core.enqueued[|s.core.enqueued|].Message?))
  }

  lemma CallerQueuesNoBatch(s: State, c: nat, step: CallerStep)
    requires CallerEnabled(s, c, step)
    ensures QueuesNoBatch(s, CallerApply(s, c, step))
  {
    hide WakeAll;
    match step {
      case Register =>
      case Grant =>
      case Check =>
      case TrySend =>
      case GiveUp =>
      case TakeAck =>
      case Undo =>
      case TakeReply =>
      case Timeout =>
      case Expire =>
      case Cancel =>
    }
  }

  lemma WriterQueuesNothing(c: Core, w: WriterStep)
    requires WriterEnabled(c, w)
    ensures WriterApply(c, w).enqueued == c.enqueued && (c.failed ==> WriterApply(c, w).failed)
  {
    hide ItemBytes, NormalCount, CloseFrom, WakeAll;
    match w {
      case Recv =>
      case CheckFailed =>
      case Write(n) =>
      case Finish =>
      case Fail =>
      case WakeWaiters =>
      case AckError =>
      case Release =>
      case Leave =>
      case Abort =>
    }
  }

  lemma ScopeQueuesNoBatch(s: State, step: ScopeStep)
    requires ScopeEnabled(s, step) && !step.SendClose?
    ensures QueuesNoBatch(s, ScopeApply(s, step))
  {
    hide Drains, Uris;
    match step {
      case Begin =>
      case Open(_, _) =>
      case Opened =>
      case AbandonOpen =>
      case CloseAll(_) =>
      case Drop(_) =>
      case CheckClose =>
      case GiveUpClose =>
      case TakeClose =>
    }
  }

  lemma StepQueuesNoBatch(s: State, a: Action)
    requires Enabled(s, a) && a != OfScope(SendClose)
    ensures QueuesNoBatch(s, Apply(s, a))
  {
    hide Drains, Uris, WakeAll, CallerApply, ScopeApply, WriterApply, ScopeEnabled, CallerEnabled, WriterEnabled;
    match a {
      case OfCaller(c, step) => CallerQueuesNoBatch(s, c, step);
      case OfScope(step) => ScopeQueuesNoBatch(s, step);
      case OfWriter(w) => WriterQueuesNothing(s.core, w);
      case Issue(_) =>
      case Notify(_) =>
      case RunDrain =>
      case Reply(_, _) =>
      case ReaderFails =>
    }
  }

  lemma NotSending(s: State, a: Action)
    requires Enabled(s, a) && !MaySend(s)
    ensures a != OfScope(SendClose)
  {
  }

  lemma StepRefuses(first: State, s: State, a: Action)
    requires ClosesRefused(first, s) && Enabled(s, a)
    ensures ClosesRefused(first, Apply(s, a))
  {
    hide Enabled, Apply, QueuesNoBatch;
    NotSending(s, a);
    StepQueuesNoBatch(s, a);
    RefusedCarries(first, s, Apply(s, a));
  }

  lemma RefusedCarries(first: State, s: State, t: State)
    requires ClosesRefused(first, s) && QueuesNoBatch(s, t)
    ensures ClosesRefused(first, t)
  {
  }

  lemma {:induction false} RunRefuses(first: State, s: State, run: seq<Action>)
    requires ClosesRefused(first, s) && Runs(s, run)
    ensures ClosesRefused(first, After(s, run))
    decreases |run|
  {
    hide ClosesRefused, Enabled, Apply;
    if run != [] {
      StepRefuses(first, s, run[0]);
      RunRefuses(first, Apply(s, run[0]), run[1..]);
    }
  }

  /** Once the client failed, every close that starts is refused: with no close past its look at
      `failed`, whatever a run still queues are messages, and no scope comes to await the
      acknowledgment of another batch. */
  lemma ClosesAfterFailureAreRefused(s: State, run: seq<Action>)
    requires s.core.failed && !MaySend(s) && Runs(s, run)
    ensures var t := After(s, run);
      && s.core.enqueued <= t.core.enqueued
      && (forall k :: |s.core.enqueued| <= k < |t.core.enqueued| ==> t.core.enqueued[k].Message?)
      && (t.scope.InScope? && t.scope.pc.AwaitClose? ==> s.scope.InScope? && s.scope.pc == t.scope.pc)
  {
    RunRefuses(s, s, run);
  }
}
