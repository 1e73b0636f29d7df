/** What a caller is told, against what became of its frame. */
module ClientOutcomes {
  import opened ClientCore
  import opened CoreInvariant
  import opened Client
  import opened Correlation
  import opened ClientSafety
  import opened ClientTheorems
  import opened ClientFailure
  import opened ClientReplies

  // ---- outcomes -------------------------------------------------------------

  predicate IsFailure(a: Ack) { a == AckErr || a == Closed }

  /** The caller was told that its frame went out. */
  predicate PastAck(pc: Pc)
  {
    pc == AwaitReply || pc == Expiring || (pc.Finished? && pc.outcome != SendFailed)
  }

  /** The caller was told that it did not. */
  predicate Refused(pc: Pc) { pc == Undoing || pc == Finished(SendFailed) }

  /** Item `k` is the frame, acknowledged Ok. */
  ghost predicate AckedAt(c: Core, body: Body, k: nat)
  {
    k < |c.enqueued| && k < |c.acks| && c.enqueued[k] == Message(body) && c.acks[k] == AckOk
  }

  ghost predicate Acked(c: Core, body: Body) { exists k: nat :: AckedAt(c, body, k) }

  /** The oneshot has come to something, and stays at it. */
  predicate Settled(c: Core, id: Id) { id in c.slots && c.slots[id] != Waiting }

  ghost predicate OutcomeOk(c: Core, x: Caller)
  {
    && (PastAck(x.pc) ==> Acked(c, x.body))
    && (Refused(x.pc) ==> c.failed)
    && (x.pc == Finished(Sent) ==> !x.isRequest)
    && (x.pc.Finished? && x.pc.outcome.Answered? ==>
          x.isRequest && Settled(c, x.id) && c.slots[x.id] == x.pc.outcome.slot && c.slots[x.id] != Withdrawn)
    && (x.pc == Finished(TimedOut) ==> x.isRequest && Settled(c, x.id))
  }

  /** Only a failed client has negative acknowledgments. */
  ghost predicate FailuresFlagged(c: Core) { forall k :: 0 <= k < |c.acks| && IsFailure(c.acks[k]) ==> c.failed }

  /** The acknowledgment a scope awaits is that of the last batch queued. */
  ghost predicate AwaitsOwnBatch(s: State)
  {
    s.scope.InScope? && s.scope.pc.AwaitClose? ==>
      var k := s.scope.pc.k;
      && k < |s.core.enqueued| && s.core.enqueued[k].CloseDocuments?
      && forall j :: k < j < |s.core.enqueued| ==> s.core.enqueued[j].Message?
  }

  ghost predicate OutcomeInv(s: State)
  {
    && FailuresFlagged(s.core) && AwaitsOwnBatch(s)
    && forall c :: c in s.callers ==> OutcomeOk(s.core, s.callers[c])
  }

  // ---- how a step moves the core --------------------------------------------

  /** Acknowledgments that came stay, and a negative one comes with a failure. */
  ghost predicate Settles(c: Core, d: Core)
  {
    && |c.acks| <= |d.acks| && (c.failed ==> d.failed)
    && (forall k :: 0 <= k < |c.acks| && c.acks[k] != Pending ==> d.acks[k] == c.acks[k])
    && (forall k :: 0 <= k < |d.acks| && IsFailure(d.acks[k]) ==> d.failed || (k < |c.acks| && IsFailure(c.acks[k])))
  }

  /** Nothing comes but a new pending acknowledgment. */
  ghost predicate OnlyGrows(c: Core, d: Core)
  {
    && c.acks <= d.acks && (c.failed ==> d.failed)
    && forall k :: |c.acks| <= k < |d.acks| ==> d.acks[k] == Pending
  }

  lemma CallerOnlyGrows(s: State, c: nat, step: CallerStep)
    requires CallerEnabled(s, c, step)
    ensures OnlyGrows(s.core, CallerApply(s, c, step).core)
  {
    hide WakeAll;
    match step {
      case Register =>
      case Grant =>
      case Check =>
      case TrySend =>
      case GiveUp =>
      case TakeAck =>
      case Undo =>
      case TakeReply =>
      case Timeout =>
      case Expire =>
      case Cancel =>
    }
  }

  lemma ScopeOnlyGrows(s: State, step: ScopeStep)
    requires ScopeEnabled(s, step)
    ensures OnlyGrows(s.core, ScopeApply(s, step).core)
  {
    hide Drains, Uris;
    match step {
      case Begin =>
      case Open(_, _) =>
      case Opened =>
      case AbandonOpen =>
      case CloseAll(_) =>
      case Drop(_) =>
      case CheckClose =>
      case SendClose =>
      case GiveUpClose =>
      case TakeClose =>
    }
  }

  /** The answer a finished or failed item gets, it gets while still waiting for one. */
  lemma HandIsPending(c: Core)
    requires CoreInv(c) && Owes(c)
    ensures 0 < c.head <= |c.acks| && c.acks[c.head - 1] == Pending
  {
    hide Wired, Flagged, Registered;
  }

  lemma FlagsOf(c: Core)
    requires CoreInv(c)
    ensures Flagged(c)
  {
    hide Queued, Acknowledged, Wired, Registered;
  }

  lemma WriterSettles(c: Core, w: WriterStep)
    requires CoreInv(c) && WriterEnabled(c, w)
    ensures Settles(c, WriterApply(c, w))
  {
    hide CoreInv, ItemBytes, NormalCount, WakeAll;
    FlagsOf(c);
    match w {
      case Recv =>
      case CheckFailed =>
      case Write(n) =>
      case Finish => HandIsPending(c);
      case Fail =>
      case WakeWaiters =>
      case AckError => HandIsPending(c);
      case Release =>
      case Leave =>
      case Abort =>
    }
  }

  lemma CoreOf(s: State)
    requires Inv(s)
    ensures CoreInv(s.core) && CallersOk(s)
  {
  }

  lemma StepSettles(s: State, a: Action)
    requires Inv(s) && Enabled(s, a)
    ensures Settles(s.core, Apply(s, a).core)
  {
    CoreOf(s);
    hide Inv, CoreInv, CallersOk, WakeAll, CallerApply, ScopeApply, WriterApply, CallerEnabled, ScopeEnabled, WriterEnabled,
         Settles, OnlyGrows;
    GrowthSettles(s.core, Apply(s, a).core);
    match a {
      case OfCaller(c, step) => CallerOnlyGrows(s, c, step);
      case OfScope(step) => ScopeOnlyGrows(s, step);
      case OfWriter(w) => WriterSettles(s.core, w);
      case Issue(_) =>
      case Notify(_) =>
      case RunDrain =>
      case Reply(_, _) =>
      case ReaderFails =>
    }
  }

  lemma GrowthSettles(c: Core, d: Core)
    ensures OnlyGrows(c, d) ==> Settles(c, d)
    ensures c.acks == d.acks && (c.failed ==> d.failed) ==> Settles(c, d)
  {
  }

  lemma StepEnqueues(s: State, a: Action)
    requires Enabled(s, a)
    ensures s.core.enqueued <= Apply(s, a).core.enqueued
  {
    hide CallerApply, ScopeApply, WriterApply, CallerEnabled, ScopeEnabled, WriterEnabled;
    if a.OfWriter? {
      WriterQueuesNothing(s.core, a.w);
    } else {
      OthersLeaveWriterAlone(s, a);
    }
  }

  // ---- who moves ------------------------------------------------------------

  predicate IsNew(pc: Pc) { pc == MustRegister || pc == NeedPermit }

  /** Only the acting caller moves; others are as they were, or new. */
  ghost predicate OneMoves(s: State, a: Action, t: State)
  {
    forall d :: d in t.callers ==>
      || (d in s.callers && t.callers[d] == s.callers[d])
      || IsNew(t.callers[d].pc)
      || (a.OfCaller? && a.c == d && d in s.callers)
  }

  lemma StepMovesOne(s: State, a: Action)
    requires Enabled(s, a)
    ensures OneMoves(s, a, Apply(s, a))
  {
    hide Drains, Uris, WakeAll, WriterApply;
    match a {
      case OfCaller(c, step) => CallerMovesOnly(s, c, step);
      case OfScope(step) => ScopeMovesNone(s, step);
      case OfWriter(_) =>
      case Issue(_) =>
      case Notify(_) =>
      case RunDrain =>
      case Reply(_, _) =>
      case ReaderFails =>
    }
  }

  lemma CallerMovesOnly(s: State, c: nat, step: CallerStep)
    requires CallerEnabled(s, c, step)
    ensures forall d :: d in CallerApply(s, c, step).callers && d != c ==>
      d in s.callers && CallerApply(s, c, step).callers[d] == s.callers[d]
    ensures c in CallerApply(s, c, step).callers ==> c in s.callers
  {
  }

  lemma ScopeMovesNone(s: State, step: ScopeStep)
    requires ScopeEnabled(s, step)
    ensures OneMoves(s, OfScope(step), ScopeApply(s, step))
  {
    hide Drains, Uris;
    match step {
      case Begin =>
      case Open(_, _) =>
      case Opened =>
      case AbandonOpen =>
      case CloseAll(_) =>
      case Drop(_) =>
      case CheckClose =>
      case SendClose =>
      case GiveUpClose =>
      case TakeClose =>
    }
  }

  // ---- the invariant --------------------------------------------------------

  /** A caller that stays put is told nothing that ceases to be so. */
  lemma OutcomeStays(c: Core, d: Core, x: Caller)
    requires OutcomeOk(c, x) && Settles(c, d) && c.enqueued <= d.enqueued
    requires forall id :: Settled(c, id) ==> Settled(d, id) && d.slots[id] == c.slots[id]
    ensures OutcomeOk(d, x)
  {
    if k: nat :| AckedAt(c, x.body, k) { assert AckedAt(d, x.body, k); }
  }

  /** The acknowledgment taken decides what the caller is told. */
  lemma TakeAckTells(s: State, c: nat)
    requires CallerEnabled(s, c, TakeAck)
    ensures var x, y := s.callers[c], CallerApply(s, c, TakeAck).callers[c];
      var ok := s.core.acks[x.pc.k] == AckOk;
      y.pc == if x.isRequest then (if ok then AwaitReply else Undoing) else Finished(if ok then Sent else SendFailed)
  {
  }

  /** The acting caller is told what is so. */
  lemma MoverIsTold(s: State, c: nat, step: CallerStep)
    requires FailuresFlagged(s.core) && Registered(s.core) && CallerEnabled(s, c, step)
    requires CallerOk(s.core, s.callers[c]) && OutcomeOk(s.core, s.callers[c])
    ensures var t := CallerApply(s, c, step); c in t.callers ==> OutcomeOk(t.core, t.callers[c])
  {
    hide WakeAll, Acked, Registered, FailuresFlagged;
    var x := s.callers[c];
    var t := CallerApply(s, c, step);
    WaiterFacts(s.core);
    match step {
      case Register =>
      case Grant =>
      case Check =>
      case TrySend =>
      case GiveUp =>
      case TakeAck => TakerIsTold(s, c);
      case Undo => SameAcked(s.core, t.core, x.body);
      case TakeReply => SameAcked(s.core, t.core, x.body);
      case Timeout => SameAcked(s.core, t.core, x.body);
      case Expire => SameAcked(s.core, t.core, x.body);
      case Cancel =>
    }
  }

  lemma WaiterFacts(c: Core)
    requires Registered(c)
    ensures forall id :: id in c.waiters <==> id in c.slots && c.slots[id] == Waiting
  {
  }

  lemma TakerIsTold(s: State, c: nat)
    requires FailuresFlagged(s.core) && CallerEnabled(s, c, TakeAck) && CallerOk(s.core, s.callers[c])
    ensures var t := CallerApply(s, c, TakeAck); c in t.callers && OutcomeOk(t.core, t.callers[c])
  {
    hide Acked;
    var x := s.callers[c];
    TakeAckTells(s, c);
    if s.core.acks[x.pc.k] == AckOk {
      AckedHere(s.core, x.body, x.pc.k);
    } else {
      assert IsFailure(s.core.acks[x.pc.k]);
    }
  }

  lemma AckedHere(c: Core, body: Body, k: nat)
    requires AckedAt(c, body, k)
    ensures Acked(c, body)
  {
  }

  lemma SameAcked(c: Core, d: Core, body: Body)
    requires c.enqueued == d.enqueued && c.acks == d.acks
    ensures Acked(c, body) <==> Acked(d, body)
  {
    if k: nat :| AckedAt(c, body, k) { assert AckedAt(d, body, k); }
    if k: nat :| AckedAt(d, body, k) { assert AckedAt(c, body, k); }
  }

  lemma StepSlots(s: State, a: Action)
    requires Inv(s) && Enabled(s, a)
    ensures forall id :: Settled(s.core, id) ==>
      Settled(Apply(s, a).core, id) && Apply(s, a).core.slots[id] == s.core.slots[id]
  {
    hide Inv, Enabled, Apply;
    StepResolvesOnce(s, a);
  }

  lemma StepOutcomes(s: State, a: Action)
    requires Inv(s) && OutcomeInv(s) && Enabled(s, a)
    ensures forall c :: c in Apply(s, a).callers ==> OutcomeOk(Apply(s, a).core, Apply(s, a).callers[c])
  {
    var t := Apply(s, a);
    CoreOf(s);
    RegisteredOf(s.core);
    StepSettles(s, a);
    StepEnqueues(s, a);
    StepSlots(s, a);
    StepMovesOne(s, a);
    hide Inv, CoreInv, Registered, OutcomeOk, FailuresFlagged, AwaitsOwnBatch, Settles, Settled;
    forall c | c in t.callers ensures OutcomeOk(t.core, t.callers[c])
    {
      if a.OfCaller? && a.c == c && c in s.callers {
        ActorIsTold(s, a);
      } else if c in s.callers && t.callers[c] == s.callers[c] {
        hide Apply, Enabled;
        OutcomeStays(s.core, t.core, s.callers[c]);
      } else {
        NewIsTold(t.core, t.callers[c]);
      }
    }
  }

  lemma NewIsTold(c: Core, x: Caller)
    requires IsNew(x.pc)
    ensures OutcomeOk(c, x)
  {
  }

  lemma ActorIsTold(s: State, a: Action)
    requires Enabled(s, a) && a.OfCaller? && a.c in s.callers && a.c in Apply(s, a).callers
    requires FailuresFlagged(s.core) && Registered(s.core) && CallersOk(s) && OutcomeOk(s.core, s.callers[a.c])
    ensures OutcomeOk(Apply(s, a).core, Apply(s, a).callers[a.c])
  {
    hide CallerApply, CallerEnabled, OutcomeOk, Registered, FailuresFlagged, CallerOk, NotForgotten;
    MoverIsTold(s, a.c, a.step);
  }

  lemma StepAwaits(s: State, a: Action)
    requires AwaitsOwnBatch(s) && Enabled(s, a)
    ensures AwaitsOwnBatch(Apply(s, a))
  {
    hide Enabled, Apply, QueuesNoBatch, AwaitsOwnBatch;
    if a == OfScope(SendClose) {
      SendCloseAwaits(s);
    } else {
      StepQueuesNoBatch(s, a);
      StillAwaits(s, Apply(s, a));
    }
  }

  lemma SendCloseAwaits(s: State)
    requires Enabled(s, OfScope(SendClose))
    ensures AwaitsOwnBatch(Apply(s, OfScope(SendClose)))
  {
    hide Drains, Uris;
  }

  lemma StillAwaits(s: State, t: State)
    requires AwaitsOwnBatch(s) && QueuesNoBatch(s, t)
    ensures AwaitsOwnBatch(t)
  {
  }

  lemma StepOutcomeInv(s: State, a: Action)
    requires Inv(s) && OutcomeInv(s) && Enabled(s, a)
    ensures OutcomeInv(Apply(s, a))
  {
    hide Inv, Enabled, Apply, OutcomeOk, AwaitsOwnBatch;
    StepOutcomes(s, a);
    StepSettles(s, a);
    StepAwaits(s, a);
  }

  lemma {:induction false} RunOutcomeInv(s: State, run: seq<Action>)
    requires Inv(s) && OutcomeInv(s) && Runs(s, run)
    ensures OutcomeInv(After(s, run))
    decreases |run|
  {
    hide Inv, OutcomeInv, Enabled, Apply;
    if run != [] {
      StepInv(s, run[0]);
      StepOutcomeInv(s, run[0]);
      RunOutcomeInv(Apply(s, run[0]), run[1..]);
    }
  }

  lemma ReachableOutcomes(s: State)
    requires Reachable(s)
    ensures OutcomeInv(s)
  {
    hide Inv;
    var run :| Runs(INIT, run) && After(INIT, run) == s;
    InitInv();
    RunOutcomeInv(INIT, run);
  }

  // ---- what callers may rely on ---------------------------------------------

  /** A caller told that its frame went out - a notification that returned, a request that awaits its
      reply, has it, or gave up on it - has the frame in the queue, acknowledged Ok, and on the wire
      behind everything queued before it. */
  lemma SentIsOnTheWire(s: State, c: nat)
    requires Reachable(s) && c in s.callers && PastAck(s.callers[c].pc)
    ensures exists k: nat :: AckedAt(s.core, s.callers[c].body, k) && AllBytes(s.core.enqueued[..k + 1]) <= s.core.wire
  {
    ReachableOutcomes(s);
    hide Reachable, AllBytes;
    var k: nat :| AckedAt(s.core, s.callers[c].body, k);
    AcknowledgedIsBarrier(s, k);
  }

  /** A caller is told that its frame did not go out only by a client that failed. */
  lemma RefusedMeansFailed(s: State, c: nat)
    requires Reachable(s) && c in s.callers && Refused(s.callers[c].pc)
    ensures s.core.failed
  {
    ReachableOutcomes(s);
  }

  /** A request returns what its own oneshot came to, and a notification never an answer. */
  lemma AnswerIsTheSlot(s: State, c: nat)
    requires Reachable(s) && c in s.callers && s.callers[c].pc.Finished?
    ensures var x := s.callers[c];
      match x.pc.outcome
      case Sent => !x.isRequest
      case Answered(slot) => x.isRequest && x.id in s.core.slots && s.core.slots[x.id] == slot && (slot.Replied? || slot == Died)
      case SendFailed => true
      case TimedOut => x.isRequest && x.id in s.core.slots && s.core.slots[x.id] != Waiting
  {
    ReachableOutcomes(s);
  }

  /** Where a caller whose frame is item `k` stands, by the item's acknowledgment. */
  ghost predicate ToldBy(t: State, c: nat, k: nat)
  {
    c in t.callers ==>
      var pc := t.callers[c].pc;
      || pc == AwaitAck(k)
      || (k < |t.core.acks| && t.core.acks[k] == AckOk && PastAck(pc))
      || (k < |t.core.acks| && IsFailure(t.core.acks[k]) && Refused(pc))
  }

  lemma CallerStaysTold(s: State, c: nat, step: CallerStep, k: nat)
    requires CallerEnabled(s, c, step) && ToldBy(s, c, k) && CallerOk(s.core, s.callers[c])
    ensures ToldBy(CallerApply(s, c, step), c, k)
  {
    hide WakeAll;
    match step {
      case Register =>
      case Grant =>
      case Check =>
      case TrySend =>
      case GiveUp =>
      case TakeAck =>
      case Undo =>
      case TakeReply =>
      case Timeout =>
      case Expire =>
      case Cancel =>
    }
  }

  lemma StepStaysTold(s: State, a: Action, c: nat, k: nat)
    requires Inv(s) && Enabled(s, a) && c < s.nextCaller && ToldBy(s, c, k)
    ensures ToldBy(Apply(s, a), c, k) && c < Apply(s, a).nextCaller
  {
    CoreOf(s);
    StepSettles(s, a);
    StepRenews(s, a);
    OldCallers(s, a, c);
    if a.OfCaller? && a.c == c {
      hide Inv, CoreInv, Settles;
      CallerStaysTold(s, c, a.step, k);
    } else {
      hide Inv, CoreInv, CallersOk, Enabled, Apply;
    }
  }

  /** Whoever was there and is not the one acting, is as it was or gone. */
  lemma OldCallers(s: State, a: Action, c: nat)
    requires Enabled(s, a) && c < s.nextCaller
    ensures c in Apply(s, a).callers ==> c in s.callers
    ensures c in Apply(s, a).callers && !(a.OfCaller? && a.c == c) ==> Apply(s, a).callers[c] == s.callers[c]
  {
    hide Drains, Uris, WakeAll, WriterApply, WriterEnabled;
    match a {
      case OfCaller(d, step) => CallerMovesOnly(s, d, step);
      case OfScope(step) => OldUnderScope(s, step, c);
      case OfWriter(_) =>
      case Issue(_) =>
      case Notify(_) =>
      case RunDrain =>
      case Reply(_, _) =>
      case ReaderFails =>
    }
  }

  lemma OldUnderScope(s: State, step: ScopeStep, c: nat)
    requires ScopeEnabled(s, step) && c < s.nextCaller
    ensures c in ScopeApply(s, step).callers ==> c in s.callers && ScopeApply(s, step).callers[c] == s.callers[c]
  {
    hide Drains, Uris;
    match step {
      case Begin =>
      case Open(_, _) =>
      case Opened =>
      case AbandonOpen =>
      case CloseAll(_) =>
      case Drop(_) =>
      case CheckClose =>
      case SendClose =>
      case GiveUpClose =>
      case TakeClose =>
    }
  }

  lemma {:induction false} RunStaysTold(s: State, run: seq<Action>, c: nat, k: nat)
    requires Inv(s) && Runs(s, run) && c < s.nextCaller && ToldBy(s, c, k)
    ensures ToldBy(After(s, run), c, k)
    decreases |run|
  {
    hide Inv, ToldBy, Enabled, Apply;
    if run != [] {
      StepInv(s, run[0]);
      StepStaysTold(s, run[0], c, k);
      RunStaysTold(Apply(s, run[0]), run[1..], c, k);
    }
  }

  /** From the moment a caller awaits the acknowledgment of item `k`, over any run, unless it is
      cancelled: it is told that its frame went out exactly when that acknowledgment is Ok, and that it
      did not exactly when the acknowledgment is an error or was dropped. */
  lemma AckDecides(s: State, run: seq<Action>, c: nat, k: nat)
    requires Reachable(s) && Runs(s, run) && c in s.callers && s.callers[c].pc == AwaitAck(k)
    requires c in After(s, run).callers && After(s, run).callers[c].pc != AwaitAck(k)
    ensures var t := After(s, run);
      && k < |t.core.acks|
      && (PastAck(t.callers[c].pc) <==> t.core.acks[k] == AckOk)
      && (Refused(t.callers[c].pc) <==> IsFailure(t.core.acks[k]))
  {
    ReachableInv(s);
    CoreOf(s);
    hide Inv, Reachable, CoreInv, CallerOk, NotForgotten;
    RunStaysTold(s, run, c, k);
  }

  // ---- a scope's closes -----------------------------------------------------

  /** When the acknowledgment that `close_all` awaits is Ok, the peer has decoded its batch, the last
      one queued, and everything before it. */
  lemma ClosesAreDelivered(s: State)
    requires Reachable(s) && s.scope.InScope? && s.scope.pc.AwaitClose?
    ensures var k := s.scope.pc.k;
      && k < |s.core.enqueued| && s.core.enqueued[k].CloseDocuments?
      && (forall j :: k < j < |s.core.enqueued| ==> s.core.enqueued[j].Message?)
      && (k < |s.core.acks| && s.core.acks[k] == AckOk ==> Delivered(s) >= |AllBodies(s.core.enqueued[..k + 1])|)
  {
    ReachableOutcomes(s);
    hide Reachable, AllBodies, Delivered;
    var k := s.scope.pc.k;
    if k < |s.core.acks| && s.core.acks[k] == AckOk { AcknowledgedIsDelivered(s, k); }
  }

  // ---- the reader's exit ----------------------------------------------------

  lemma ReaderDiesWakes(c: Core)
    requires Registered(c)
    ensures var d := ReaderDies(c);
      && d.waiters == {} && d.slots.Keys == c.slots.Keys
      && (forall id :: id in c.slots ==> d.slots[id] == if id in c.waiters then Died else c.slots[id])
      && (forall id :: id in d.slots ==> d.slots[id] != Waiting)
  {
  }

  lemma WaiterIsThere(s: State, c: nat)
    requires CallersOk(s) && c in s.callers && s.callers[c].pc == AwaitReply
    ensures s.callers[c].id in s.core.slots && s.core.slots[s.callers[c].id] != Withdrawn
  {
    assert CallerOk(s.core, s.callers[c]);
  }

  /** When the reader stops, every waiter is answered with the error at once: the map is empty, the
      oneshots that were in it are dead and no other changed, and every request in its reply wait can
      return. */
  lemma ReaderExitAnswersAll(s: State)
    requires Reachable(s) && Enabled(s, ReaderFails)
    ensures var t := Apply(s, ReaderFails);
      && t.core.waiters == {}
      && t.core.slots.Keys == s.core.slots.Keys
      && (forall id :: id in s.core.slots ==>
            t.core.slots[id] == if id in s.core.waiters then Died else s.core.slots[id])
      && (forall c :: c in t.callers && t.callers[c].pc == AwaitReply ==> Answerable(t, t.callers[c]))
  {
    hide Inv, CoreInv, Reachable, CallersOk, Registered, ReaderDies;
    ReachableInv(s);
    CoreOf(s);
    RegisteredOf(s.core);
    ReaderDiesWakes(s.core);
    var t := Apply(s, ReaderFails);
    forall c | c in t.callers && t.callers[c].pc == AwaitReply ensures Answerable(t, t.callers[c])
    {
      WaiterIsThere(s, c);
    }
  }

  // ---- the writer can be stopped --------------------------------------------

  lemma FailWriterStops(c: Core)
    requires Flagged(c) && !c.failed
    ensures var d := FailWriter(c);
      && d.failed && d.drainPending
      && (d.writer == Dead || WriterEnabled(d, Abort) || WriterEnabled(d, CheckFailed) || WriterEnabled(d, Release))
  {
  }

  /** The first failure of a caller's send aborts the writer: whatever the pipe does, the writer is
      gone, or its abort is enabled, or it stands at no await and has its next step; and the drain of
      the waiters is enabled. */
  lemma GiveUpStopsWriter(s: State, c: nat)
    requires Reachable(s) && Enabled(s, OfCaller(c, GiveUp)) && !s.core.failed
    ensures var t := Apply(s, OfCaller(c, GiveUp));
      && t.core.failed && Enabled(t, RunDrain)
      && (t.core.writer == Dead || Enabled(t, OfWriter(Abort)) || Enabled(t, OfWriter(CheckFailed))
          || Enabled(t, OfWriter(Release)))
  {
    hide Inv, CoreInv, Reachable, CallersOk, Flagged, FailWriter, WriterEnabled;
    ReachableInv(s);
    CoreOf(s);
    FlagsOf(s.core);
    FailWriterStops(s.core);
    assert Apply(s, OfCaller(c, GiveUp)).core == FailWriter(s.core);
  }
}
