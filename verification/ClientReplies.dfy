/** Replies reach the request that owns their id, once, and none is lost to a failure.
    A frame with an integer id is taken to be a reply (section 5 of the JSON-RPC 2.0
    specification). */
module ClientReplies {
  import Documents
  import Permit
  import opened ClientCore
  import opened CoreInvariant
  import opened Client
  import opened Correlation
  import opened ClientSafety

  // ---- ids and registration -------------------------------------------------

  /** No two requests of a state share an id, and an id that was ever registered is below the counter. */
  lemma IdsAreUnique(s: State, c: nat, d: nat)
    requires Reachable(s) && c in s.callers && d in s.callers && c != d
    requires s.callers[c].isRequest && s.callers[d].isRequest
    ensures s.callers[c].id != s.callers[d].id
    ensures s.callers[c].id.n < s.core.nextId
    ensures forall id :: id in s.core.slots ==> id.n < s.core.nextId
  {
    ReachableInv(s);
  }

  /** `id` belongs to caller `c`, present or gone: nobody else will have it. */
  ghost predicate Taken(s: State, c: nat, id: Id)
  {
    && id.n < s.core.nextId && c < s.nextCaller
    && forall d :: d in s.callers && s.callers[d].isRequest && s.callers[d].id == id ==> d == c
  }

  /** The step keeps who the requests are, adds at most one, with a fresh key and a fresh id, and
      moves the counter on only then. */
  ghost predicate Renews(s: State, t: State)
  {
    && s.core.nextId <= t.core.nextId && s.nextCaller <= t.nextCaller
    && forall d :: d in t.callers && t.callers[d].isRequest ==>
         || (d in s.callers && s.callers[d].isRequest && s.callers[d].id == t.callers[d].id)
         || (d == s.nextCaller && t.callers[d].id == NextId(s.core))
  }

  lemma CallerRenews(s: State, c: nat, step: CallerStep)
    requires CallerEnabled(s, c, step)
    ensures Renews(s, CallerApply(s, c, step))
  {
    hide WakeAll, Enqueue;
    EnqueueKeepsCounter(s.core, Message(s.callers[c].body));
    match step {
      case Register =>
      case Grant =>
      case Check =>
      case TrySend =>
      case GiveUp =>
      case TakeAck =>
      case Undo =>
      case TakeReply =>
      case Timeout =>
      case Expire =>
      case Cancel =>
    }
  }

  lemma EnqueueKeepsCounter(c: Core, item: Item)
    ensures Enqueue(c, item).nextId == c.nextId && Enqueue(c, item).slots == c.slots
  {
  }

  lemma ScopeRenews(s: State, step: ScopeStep)
    requires ScopeEnabled(s, step)
    ensures Renews(s, ScopeApply(s, step))
  {
    hide Drains, Uris;
    match step {
      case Begin =>
      case Open(_, _) =>
      case Opened =>
      case AbandonOpen =>
      case CloseAll(_) =>
      case Drop(_) =>
      case CheckClose =>
      case SendClose =>
      case GiveUpClose =>
      case TakeClose =>
    }
  }

  lemma WriterKeepsCounter(c: Core, w: WriterStep)
    requires WriterEnabled(c, w)
    ensures WriterApply(c, w).nextId == c.nextId
  {
    hide ItemBytes, NormalCount, CloseFrom, WakeAll;
    match w {
      case Recv =>
      case CheckFailed =>
      case Write(n) =>
      case Finish =>
      case Fail =>
      case WakeWaiters =>
      case AckError =>
      case Release =>
      case Leave =>
      case Abort =>
    }
  }

  lemma StepRenews(s: State, a: Action)
    requires Enabled(s, a)
    ensures Renews(s, Apply(s, a))
    ensures a.Issue? ==> Apply(s, a).core.nextId == s.core.nextId + 1
  {
    hide WakeAll, CallerApply, ScopeApply, WriterApply, ScopeEnabled, CallerEnabled, WriterEnabled;
    match a {
      case OfCaller(c, step) => CallerRenews(s, c, step);
      case OfScope(step) => ScopeRenews(s, step);
      case OfWriter(w) => WriterKeepsCounter(s.core, w);
      case Issue(_) =>
      case Notify(_) =>
      case RunDrain =>
      case Reply(_, _) =>
      case ReaderFails =>
    }
  }

  lemma {:induction false} RunKeepsTaken(s: State, run: seq<Action>, c: nat, id: Id)
    requires Runs(s, run) && Taken(s, c, id)
    ensures Taken(After(s, run), c, id)
    decreases |run|
  {
    hide Enabled, Apply;
    if run != [] {
      StepRenews(s, run[0]);
      RunKeepsTaken(Apply(s, run[0]), run[1..], c, id);
    }
  }

  lemma {:induction false} CounterGrows(s: State, run: seq<Action>)
    requires Runs(s, run)
    ensures s.core.nextId <= After(s, run).core.nextId
    decreases |run|
  {
    hide Enabled, Apply;
    if run != [] {
      StepRenews(s, run[0]);
      CounterGrows(Apply(s, run[0]), run[1..]);
    }
  }

  /** Ids are never reused: a request met anywhere later in the run with the id of one met earlier,
      which may have returned or been cancelled since, is that same request. */
  lemma IdsAreNeverReused(s: State, run: seq<Action>, c: nat, d: nat)
    requires Reachable(s) && Runs(s, run) && c in s.callers && s.callers[c].isRequest
    requires d in After(s, run).callers && After(s, run).callers[d].isRequest
    ensures After(s, run).callers[d].id == s.callers[c].id ==> d == c
  {
    ReachableInv(s);
    assert CallerOk(s.core, s.callers[c]);
    hide Inv, CallerOk;
    assert Taken(s, c, s.callers[c].id) by {
      forall e | e in s.callers && e != c && s.callers[e].isRequest ensures s.callers[e].id != s.callers[c].id
      {
        IdsAreUnique(s, c, e);
      }
      CallersAreOld(s, c);
    }
    RunKeepsTaken(s, run, c, s.callers[c].id);
  }

  lemma CallersAreOld(s: State, c: nat)
    requires Reachable(s) && c in s.callers
    ensures c < s.nextCaller && CallerOk(s.core, s.callers[c])
  {
    ReachableInv(s);
  }

  /** A run is its first part, and then the rest. */
  lemma {:induction false} RunSplit(s: State, a: seq<Action>, b: seq<Action>)
    requires Runs(s, a + b)
    ensures Runs(s, a) && Runs(After(s, a), b) && After(After(s, a), b) == After(s, a + b)
    decreases |a|
  {
    hide Enabled, Apply;
    if a == [] {
      assert a + b == b;
    } else {
      assert (a + b)[0] == a[0] && (a + b)[1..] == a[1..] + b;
      RunSplit(Apply(s, a[0]), a[1..], b);
    }
  }

  /** Two requests issued anywhere in one run take different ids. */
  lemma IssuedIdsDiffer(run: seq<Action>, i: nat, j: nat)
    requires Runs(INIT, run) && i < j < |run| && run[i].Issue? && run[j].Issue?
    ensures Runs(INIT, run[..i]) && Runs(INIT, run[..j])
    ensures NextId(After(INIT, run[..i]).core) != NextId(After(INIT, run[..j]).core)
  {
    hide Enabled, Apply, Runs, After;
    assert run == run[..j] + run[j..];
    RunSplit(INIT, run[..j], run[j..]);
    assert run[..j] == run[..i] + run[i..j];
    RunSplit(INIT, run[..i], run[i..j]);
    IssueMovesOn(After(INIT, run[..i]), run[i..j]);
  }

  lemma IssueMovesOn(s: State, run: seq<Action>)
    requires Runs(s, run) && run != [] && run[0].Issue?
    ensures s.core.nextId < After(s, run).core.nextId
  {
    hide Enabled, Apply;
    StepRenews(s, run[0]);
    CounterGrows(Apply(s, run[0]), run[1..]);
  }

  /** Every request frame that entered the queue, and so every one on the wire, had its waiter
      registered, and entered once. */
  lemma RegisteredBeforeQueued(s: State, k: nat, id: Id)
    requires Reachable(s) && k < |s.core.enqueued| && IsRequestItem(s.core.enqueued[k], id)
    ensures id in s.core.slots
    ensures forall j :: 0 <= j < |s.core.enqueued| && IsRequestItem(s.core.enqueued[j], id) ==> j == k
  {
    ReachableInv(s);
    assert ItemOk(s.core, s.core.enqueued[k]);
    forall j | 0 <= j < |s.core.enqueued| && IsRequestItem(s.core.enqueued[j], id) ensures j == k
    {
      assert j < k ==> !SameRequest(s.core.enqueued[j], s.core.enqueued[k]);
      assert k < j ==> !SameRequest(s.core.enqueued[k], s.core.enqueued[j]);
    }
  }

  // ---- one resolution, by the right reply -----------------------------------

  /** The only ways one step can change what a registered request's oneshot has come to. */
  ghost predicate Resolves(s: State, a: Action, id: Id, slot: Slot)
  {
    match slot
    case Waiting => false
    case Replied(reply) => a == Reply(id, reply)
    case Died => a == OfWriter(WakeWaiters) || a == RunDrain || a == ReaderFails
    case Withdrawn => a.OfCaller? && a.step in {Undo, Expire} && a.c in s.callers && s.callers[a.c].id == id
  }

  ghost predicate SlotsAdvance(s: State, a: Action, d: Core)
  {
    forall id :: id in s.core.slots ==>
      && id in d.slots
      && (d.slots[id] == s.core.slots[id]
          || (s.core.slots[id] == Waiting && Resolves(s, a, id, d.slots[id])))
  }

  lemma CallerSlots(s: State, c: nat, step: CallerStep)
    requires Registered(s.core) && CallersOk(s) && CallerEnabled(s, c, step)
    ensures SlotsAdvance(s, OfCaller(c, step), CallerApply(s, c, step).core)
  {
    assert CallerOk(s.core, s.callers[c]);
    hide CallersOk;
    match step {
      case Register =>
      case Grant =>
      case Check =>
      case TrySend =>
      case GiveUp =>
      case TakeAck =>
      case Undo =>
      case TakeReply =>
      case Timeout =>
      case Expire =>
      case Cancel =>
    }
  }

  lemma WriterSlots(s: State, w: WriterStep)
    requires Registered(s.core) && WriterEnabled(s.core, w)
    ensures SlotsAdvance(s, OfWriter(w), WriterApply(s.core, w))
  {
    hide ItemBytes, NormalCount, CloseFrom;
    match w {
      case Recv =>
      case CheckFailed =>
      case Write(n) =>
      case Finish =>
      case Fail =>
      case WakeWaiters =>
      case AckError =>
      case Release =>
      case Leave =>
      case Abort =>
    }
  }

  lemma ScopeSlots(s: State, step: ScopeStep)
    requires ScopeEnabled(s, step)
    ensures ScopeApply(s, step).core.slots == s.core.slots
  {
    hide Drains, Uris;
    match step {
      case Begin =>
      case Open(_, _) =>
      case Opened =>
      case AbandonOpen =>
      case CloseAll(_) =>
      case Drop(_) =>
      case CheckClose =>
      case SendClose =>
      case GiveUpClose =>
      case TakeClose =>
    }
  }

  /** A resolved request stays as it is; an unresolved one changes only by a reply carrying its
      own id, by a failure path, or by its owner giving up. */
  lemma StepResolvesOnce(s: State, a: Action)
    requires Inv(s) && Enabled(s, a)
    ensures SlotsAdvance(s, a, Apply(s, a).core)
  {
    hide Wired, Queued, Acknowledged, Flagged, Permit.Conserved, Documents.DocsOk, ItemsOk,
      CallerApply, WriterApply, ScopeApply, Drains, Uris;
    match a {
      case OfCaller(c, step) => CallerSlots(s, c, step);
      case OfWriter(w) => WriterSlots(s, w);
      case OfScope(step) => ScopeSlots(s, step);
      case Issue(_) =>
      case Notify(_) =>
      case RunDrain =>
      case Reply(_, _) =>
      case ReaderFails =>
    }
  }

  /** A request resolves at most once in any run, and only a reply with its id gives it a value. */
  lemma {:induction false} ResolvedOnce(s: State, run: seq<Action>, id: Id)
    requires Inv(s) && Runs(s, run) && id in s.core.slots
    ensures var t := After(s, run);
      && id in t.core.slots
      && (s.core.slots[id] != Waiting ==> t.core.slots[id] == s.core.slots[id])
      && (s.core.slots[id] == Waiting && t.core.slots[id].Replied? ==> Reply(id, t.core.slots[id].reply) in run)
    decreases |run|
  {
    hide Inv;
    if run != [] {
      StepResolvesOnce(s, run[0]);
      StepInv(s, run[0]);
      ResolvedOnce(Apply(s, run[0]), run[1..], id);
    }
  }

  /** What a caller gets back is what came for its own id: `request` returns a reply only if the
      reader was given that reply under the id the request was sent with. */
  lemma AnswerIsOwn(run: seq<Action>, c: nat)
    requires Runs(INIT, run)
    requires var s := After(INIT, run);
      c in s.callers && s.callers[c].isRequest && s.callers[c].pc == AwaitReply
      && Answerable(s, s.callers[c]) && s.core.slots[s.callers[c].id].Replied?
    ensures var s := After(INIT, run);
      Reply(s.callers[c].id, s.core.slots[s.callers[c].id].reply) in run
  {
    var s := After(INIT, run);
    InitInv();
    RepliedFromRun(INIT, run, s.callers[c].id);
  }

  lemma {:induction false} RepliedFromRun(s: State, run: seq<Action>, id: Id)
    requires Inv(s) && Runs(s, run)
    requires id !in s.core.slots || s.core.slots[id] == Waiting
    ensures var t := After(s, run);
      id in t.core.slots && t.core.slots[id].Replied? ==> Reply(id, t.core.slots[id].reply) in run
    decreases |run|
  {
    hide Inv;
    if run != [] {
      var t := Apply(s, run[0]);
      StepResolvesOnce(s, run[0]);
      StepInv(s, run[0]);
      if id in t.core.slots && t.core.slots[id] != Waiting {
        if id !in s.core.slots { FreshSlotWaits(s, run[0], id); }
        ResolvedOnce(t, run[1..], id);
      } else {
        RepliedFromRun(t, run[1..], id);
      }
    }
  }

  lemma FreshSlotWaits(s: State, a: Action, id: Id)
    requires Inv(s) && Enabled(s, a) && id !in s.core.slots && id in Apply(s, a).core.slots
    ensures Apply(s, a).core.slots[id] == Waiting
  {
    hide Wired, Queued, Acknowledged, Flagged, Permit.Conserved, Documents.DocsOk, ItemsOk,
      CallerApply, WriterApply, ScopeApply, Drains, Uris;
    match a {
      case OfCaller(c, step) => CallerFreshSlots(s, c, step, id);
      case OfWriter(w) => WriterFreshSlots(s.core, w);
      case OfScope(step) => ScopeSlots(s, step);
      case Issue(_) =>
      case Notify(_) =>
      case RunDrain =>
      case Reply(_, _) =>
      case ReaderFails =>
    }
  }

  lemma WaitersHaveSlots(c: Core)
    requires Registered(c)
    ensures forall id :: id in c.waiters ==> id in c.slots
  {
  }

  lemma CallerFreshSlots(s: State, c: nat, step: CallerStep, id: Id)
    requires CallerEnabled(s, c, step) && id !in s.core.slots && id in CallerApply(s, c, step).core.slots
    requires Registered(s.core)
    ensures CallerApply(s, c, step).core.slots[id] == Waiting
  {
    hide Registered, Enqueue;
    WaitersHaveSlots(s.core);
    EnqueueKeepsCounter(s.core, Message(s.callers[c].body));
    match step {
      case Register =>
      case Grant =>
      case Check =>
      case TrySend =>
      case GiveUp =>
      case TakeAck =>
      case Undo =>
      case TakeReply =>
      case Timeout =>
      case Expire =>
      case Cancel =>
    }
  }

  lemma WriterFreshSlots(c: Core, w: WriterStep)
    requires WriterEnabled(c, w)
    ensures WriterApply(c, w).slots.Keys == c.slots.Keys
  {
    hide ItemBytes, NormalCount, CloseFrom;
    match w {
      case Recv =>
      case CheckFailed =>
      case Write(n) =>
      case Finish =>
      case Fail =>
      case WakeWaiters =>
      case AckError =>
      case Release =>
      case Leave =>
      case Abort =>
    }
  }

  // ---- no reply wait outlives a failure -------------------------------------

  /** A registered request is resolved, or still in the waiter map for the next drain to wake. */
  lemma DrainAnswers(c: Core, id: Id)
    requires Registered(c) && id in c.slots && c.slots[id] != Withdrawn
    ensures if id in c.waiters then WakeAll(c)[id] == Died
            else WakeAll(c)[id] == c.slots[id] && (c.slots[id].Replied? || c.slots[id] == Died)
  {
  }

  /** Once the writer failed, a request in its reply wait is answerable, or a drain that makes it
      so is enabled; after a drain every such request is answerable. */
  lemma ReplyWaitEnds(s: State, c: nat)
    requires Reachable(s) && s.core.failed && c in s.callers && s.callers[c].pc == AwaitReply
    ensures s.core.drained ==> Answerable(s, s.callers[c])
    ensures || Answerable(s, s.callers[c])
            || (Enabled(s, RunDrain) && Answerable(Apply(s, RunDrain), s.callers[c]))
            || (Enabled(s, OfWriter(WakeWaiters))
                && Answerable(Apply(s, OfWriter(WakeWaiters)), s.callers[c]))
  {
    hide Inv, Registered, Reachable, CallerApply, ScopeApply, NormalCount, ItemBytes;
    ReachableInv(s);
    WaitingFacts(s, c);
    DrainAnswers(s.core, s.callers[c].id);
    if s.core.drainPending {
      assert Apply(s, RunDrain).core.slots == WakeAll(s.core);
    } else if AtStage(s.core, Erring) {
      assert Apply(s, OfWriter(WakeWaiters)).core.slots == WakeAll(s.core);
    }
  }

  lemma WaitingFacts(s: State, c: nat)
    requires Inv(s) && s.core.failed && c in s.callers && s.callers[c].pc == AwaitReply
    ensures Registered(s.core)
    ensures var id := s.callers[c].id;
      id in s.core.slots && s.core.slots[id] != Withdrawn && (s.core.drained ==> id !in s.core.waiters)
    ensures s.core.drained || s.core.drainPending || AtStage(s.core, Erring)
  {
    hide Wired, Queued, Acknowledged, Permit.Conserved, Documents.DocsOk, ItemsOk;
    assert CallerOk(s.core, s.callers[c]) && NotForgotten(s.core, s.callers[c]);
  }
}
