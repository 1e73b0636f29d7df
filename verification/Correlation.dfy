/** Requests, their ids, their waiters and their frames. */
module Correlation {
  import opened ClientCore
  import opened CoreInvariant
  import opened Client

  predicate BeforeQueue(pc: Pc)
  {
    pc in {MustRegister, NeedPermit, Granted, Ready, GivingUp}
  }

  /** A registered caller that can still look at its oneshot. */
  predicate Listening(pc: Pc) { pc != MustRegister && !pc.Finished? }

  predicate IsRequestItem(item: Item, id: Id) { item.Message? && item.body.tag == Request(id) }

  /** What a single caller's record says, relative to the client. */
  ghost predicate CallerOk(c: Core, x: Caller)
  {
    && Sendable(x.body.bytes)
    && (x.isRequest ==> x.body.tag == Request(x.id) && x.id.n < c.nextId)
    && (!x.isRequest ==> !x.body.tag.Request?
                         && x.pc !in {MustRegister, Undoing, AwaitReply, Expiring})
    && (x.isRequest ==> (x.pc == MustRegister <==> x.id !in c.slots))
    && (x.isRequest && Listening(x.pc) ==> x.id in c.slots && c.slots[x.id] != Withdrawn)
    && (BeforeQueue(x.pc) ==> !x.queued)
    && (x.pc.AwaitAck? ==> x.queued && x.pc.k < |c.enqueued| && c.enqueued[x.pc.k] == Message(x.body))
    && (x.pc in {AwaitReply, Expiring, Finished(Sent)} ==> x.queued)
  }

  /** The item at `k` was, or may still be, acknowledged Ok. */
  predicate MayBeOk(c: Core, k: nat)
  {
    (k < |c.acks| && c.acks[k] == AckOk) || (k + 1 == c.head && IsWriting(c))
  }

  /** Once the waiters were woken, no request whose frame made it is still waiting. */
  predicate NotForgotten(c: Core, x: Caller)
  {
    c.drained && x.isRequest && (x.pc == AwaitReply || (x.pc.AwaitAck? && MayBeOk(c, x.pc.k))) ==>
      x.id !in c.waiters
  }

  ghost predicate CallersOk(s: State)
  {
    && (forall c :: c in s.callers ==>
          c < s.nextCaller && CallerOk(s.core, s.callers[c]) && NotForgotten(s.core, s.callers[c]))
    && (forall c, d :: c in s.callers && d in s.callers && c != d
                       && s.callers[c].isRequest && s.callers[d].isRequest ==>
                         s.callers[c].id != s.callers[d].id)
  }

  ghost predicate ItemOk(c: Core, item: Item)
  {
    && (forall b :: b in item.Bodies() ==> Sendable(b.bytes))
    && (item.Message? && item.body.tag.Request? ==> item.body.tag.id in c.slots)
    && (item.CloseDocuments? ==> forall b :: b in item.closes ==> b.tag.DidClose?)
  }

  predicate SameRequest(a: Item, b: Item)
  {
    a.Message? && a.body.tag.Request? && IsRequestItem(b, a.body.tag.id)
  }

  /** Every request's waiter was registered before its frame was queued, and its frame is
      queued at most once. */
  ghost predicate ItemsOk(s: State)
  {
    && (forall k :: 0 <= k < |s.core.enqueued| ==> ItemOk(s.core, s.core.enqueued[k]))
    && (forall j, k :: 0 <= j < k < |s.core.enqueued| ==> !SameRequest(s.core.enqueued[j], s.core.enqueued[k]))
    && (forall c :: c in s.callers && s.callers[c].isRequest && BeforeQueue(s.callers[c].pc) ==>
          NotQueued(s.core, s.callers[c].id))
  }

  ghost predicate NotQueued(c: Core, id: Id)
  {
    forall k :: 0 <= k < |c.enqueued| ==> !IsRequestItem(c.enqueued[k], id)
  }

  ghost predicate Correlated(s: State) { CallersOk(s) && ItemsOk(s) }

  // ---- frames ---------------------------------------------------------------

  /** A step of the core that disturbs no caller but the owner of request `own`. */
  ghost predicate Preserves(c: Core, d: Core, own: Id)
  {
    && c.nextId <= d.nextId
    && c.enqueued <= d.enqueued
    && (forall id :: id in c.slots ==> id in d.slots)
    && (forall id :: id in d.slots && id != own ==> id in c.slots)
    && (forall id :: id in c.slots && id != own && c.slots[id] != Withdrawn ==> d.slots[id] != Withdrawn)
    && (forall id :: id in d.waiters && id != own ==> id in c.waiters)
    && (d.drained ==> c.drained || d.waiters == {})
    && (c.drained ==> forall k: nat :: k < |c.enqueued| && MayBeOk(d, k) ==> MayBeOk(c, k))
  }

  lemma OthersUndisturbed(c: Core, d: Core, own: Id, x: Caller)
    requires CallerOk(c, x) && NotForgotten(c, x) && Preserves(c, d, own)
    requires x.isRequest ==> x.id != own
    ensures CallerOk(d, x) && NotForgotten(d, x)
  {
  }

  /** A step of caller `c` (or of nobody, when `t.callers == s.callers`). */
  lemma CallerFrame(s: State, t: State, c: nat, own: Id)
    requires CallersOk(s) && c in s.callers && c in t.callers
    requires t.callers == s.callers[c := t.callers[c]] && t.nextCaller == s.nextCaller
    requires t.callers[c].isRequest == s.callers[c].isRequest && t.callers[c].id == s.callers[c].id
    requires own == if s.callers[c].isRequest then s.callers[c].id else NextId(s.core)
    requires Preserves(s.core, t.core, own)
    requires CallerOk(t.core, t.callers[c]) && NotForgotten(t.core, t.callers[c])
    ensures CallersOk(t)
  {
    forall d | d in t.callers && d != c ensures CallerOk(t.core, t.callers[d]) && NotForgotten(t.core, t.callers[d])
    {
      OthersUndisturbed(s.core, t.core, own, s.callers[d]);
    }
  }

  lemma CoreFrame(s: State, t: State)
    requires CallersOk(s) && t.nextCaller >= s.nextCaller
    requires forall c :: c in t.callers ==> c in s.callers && t.callers[c] == s.callers[c]
    requires Preserves(s.core, t.core, NextId(s.core))
    ensures CallersOk(t)
  {
    forall d | d in t.callers ensures CallerOk(t.core, t.callers[d]) && NotForgotten(t.core, t.callers[d])
    {
      OthersUndisturbed(s.core, t.core, NextId(s.core), s.callers[d]);
    }
  }

  lemma ItemsFrame(s: State, t: State)
    requires ItemsOk(s) && t.core.enqueued == s.core.enqueued
    requires forall id :: id in s.core.slots ==> id in t.core.slots
    requires forall c :: c in t.callers && t.callers[c].isRequest && BeforeQueue(t.callers[c].pc) ==>
               c in s.callers && s.callers[c].isRequest && BeforeQueue(s.callers[c].pc) && s.callers[c].id == t.callers[c].id
    ensures ItemsOk(t)
  {
  }

  // ---- preservation ---------------------------------------------------------

  lemma QuietPreserves(c: Core, d: Core)
    requires d.slots == c.slots && d.waiters == c.waiters && d.drained == c.drained
    requires d.nextId == c.nextId && c.enqueued <= d.enqueued
    requires c.drained ==> forall k: nat :: k < |c.enqueued| && MayBeOk(d, k) ==> MayBeOk(c, k)
    ensures Preserves(c, d, NextId(c))
  {
  }

  lemma QuietPreservesAny(c: Core, d: Core, own: Id)
    requires Preserves(c, d, NextId(c)) && d.slots == c.slots && d.waiters == c.waiters
    ensures Preserves(c, d, own)
  {
  }

  lemma DrainPreserves(c: Core, d: Core)
    requires d.slots == WakeAll(c) && d.waiters == {} && d.nextId == c.nextId && d.enqueued == c.enqueued
    requires d.acks == c.acks && d.head == c.head && (IsWriting(d) ==> IsWriting(c))
    ensures Preserves(c, d, NextId(c))
  {
  }

  lemma WriterPreserves(c: Core, w: WriterStep)
    requires CoreInv(c) && WriterEnabled(c, w)
    ensures Preserves(c, WriterApply(c, w), NextId(c))
  {
    hide AllBytes, ItemBytes, NormalCount, Wired, Registered, Preserves;
    match w {
      case Recv => QuietPreserves(c, WriterApply(c, w));
      case CheckFailed => QuietPreserves(c, WriterApply(c, w));
      case Write(n) => QuietPreserves(c, WriterApply(c, w));
      case Finish => QuietPreserves(c, WriterApply(c, w));
      case Fail => QuietPreserves(c, WriterApply(c, w));
      case WakeWaiters => DrainPreserves(c, WriterApply(c, w));
      case AckError => QuietPreserves(c, WriterApply(c, w));
      case Release => QuietPreserves(c, WriterApply(c, w));
      case Leave => QuietPreserves(c, WriterApply(c, w));
      case Abort => QuietPreserves(c, WriterApply(c, w));
    }
  }

  /** Steps of a caller that touch neither the waiter map nor the queue. */
  ghost predicate Quiet(s: State, step: CallerStep)
  {
    step in {Grant, Check, GiveUp, TakeAck, TakeReply, Timeout} || (step == TrySend && !CanSend(s.core))
  }

  /** The moving caller's own record. */
  lemma QuietCallerOk(s: State, c: nat, step: CallerStep)
    requires CoreInv(s.core) && CallerEnabled(s, c, step) && Quiet(s, step)
    requires CallerOk(s.core, s.callers[c]) && NotForgotten(s.core, s.callers[c])
    ensures CallerOk(CallerApply(s, c, step).core, CallerApply(s, c, step).callers[c])
    ensures NotForgotten(CallerApply(s, c, step).core, CallerApply(s, c, step).callers[c])
  {
    hide Wired, Queued, Acknowledged, Registered, Flagged;
  }

  lemma QuietCore(s: State, c: nat, step: CallerStep, own: Id)
    requires CallerEnabled(s, c, step) && Quiet(s, step)
    ensures Preserves(s.core, CallerApply(s, c, step).core, own)
  {
    hide Preserves;
    var d := CallerApply(s, c, step).core;
    QuietPreserves(s.core, d);
    QuietPreservesAny(s.core, d, own);
  }

  lemma QuietShape(s: State, c: nat, step: CallerStep)
    requires CallerEnabled(s, c, step) && Quiet(s, step)
    ensures var t, x := CallerApply(s, c, step), s.callers[c];
      && c in t.callers && t.callers == s.callers[c := t.callers[c]]
      && t.callers[c] == x.(pc := t.callers[c].pc) && t.nextCaller == s.nextCaller
      && (x.isRequest && BeforeQueue(t.callers[c].pc) ==> BeforeQueue(x.pc))
      && t.core.enqueued == s.core.enqueued && t.core.slots == s.core.slots
  {
  }

  lemma CallerThere(s: State, c: nat, step: CallerStep)
    requires CallerEnabled(s, c, step)
    ensures c in s.callers
  {
  }

  lemma QuietCallerCorrelates(s: State, c: nat, step: CallerStep)
    requires CoreInv(s.core) && Correlated(s) && CallerEnabled(s, c, step) && Quiet(s, step)
    ensures Correlated(CallerApply(s, c, step))
  {
    hide Preserves, CallerOk, NotForgotten, ItemOk, NotQueued, CoreInv, CallerApply, CallerEnabled, Quiet;
    CallerThere(s, c, step);
    var t := CallerApply(s, c, step);
    var x := s.callers[c];
    var own := if x.isRequest then x.id else NextId(s.core);
    QuietCallerOk(s, c, step);
    QuietCore(s, c, step, own);
    QuietShape(s, c, step);
    CallerFrame(s, t, c, own);
    ItemsFrame(s, t);
  }

  lemma RegisterCorrelates(s: State, c: nat)
    requires CoreInv(s.core) && Correlated(s) && CallerEnabled(s, c, Register)
    ensures Correlated(CallerApply(s, c, Register))
  {
    hide Wired, Queued, Acknowledged, Flagged;
    var t := CallerApply(s, c, Register);
    var x := s.callers[c];
    assert CallerOk(s.core, x);
    assert Preserves(s.core, t.core, x.id);
    CallerFrame(s, t, c, x.id);
    ItemsFrame(s, t);
  }

  lemma RemovePreserves(c: Core, id: Id)
    ensures Preserves(c, RemoveWaiter(c, id), id)
  {
  }

  /** Withdrawing a waiter ends the caller's interest in it. */
  lemma WithdrawCorrelates(s: State, c: nat, step: CallerStep)
    requires CoreInv(s.core) && Correlated(s) && CallerEnabled(s, c, step) && step in {Undo, Expire}
    ensures Correlated(CallerApply(s, c, step))
  {
    hide Wired, Queued, Acknowledged, Flagged;
    var t := CallerApply(s, c, step);
    var x := s.callers[c];
    assert CallerOk(s.core, x);
    RemovePreserves(s.core, x.id);
    hide Preserves, ItemOk, NotQueued;
    CallerFrame(s, t, c, x.id);
    ItemsFrame(s, t);
  }

  lemma EnqueuePreserves(c: Core, item: Item, own: Id)
    requires Queued(c)
    ensures Preserves(c, Enqueue(c, item), own)
  {
  }

  lemma EnqueueItems(s: State, t: State, item: Item)
    requires ItemsOk(s) && t.core == Enqueue(s.core, item)
    requires ItemOk(s.core, item)
    requires item.Message? && item.body.tag.Request? ==> NotQueued(s.core, item.body.tag.id)
    requires forall c :: c in t.callers && t.callers[c].isRequest && BeforeQueue(t.callers[c].pc) ==>
               c in s.callers && s.callers[c] == t.callers[c] && !IsRequestItem(item, t.callers[c].id)
    ensures ItemsOk(t)
  {
    var e := s.core.enqueued;
    forall j, k | 0 <= j < k < |t.core.enqueued| ensures !SameRequest(t.core.enqueued[j], t.core.enqueued[k])
    {
      if k == |e| {
        assert item.Message? && item.body.tag.Request? ==> !IsRequestItem(e[j], item.body.tag.id);
      }
    }
  }

  /** The sent caller's own record, and its item. */
  lemma SentCallerOk(s: State, c: nat)
    requires CoreInv(s.core) && CallerEnabled(s, c, TrySend) && CanSend(s.core) && CallerOk(s.core, s.callers[c])
    ensures var t := CallerApply(s, c, TrySend);
      && c in t.callers && CallerOk(t.core, t.callers[c]) && NotForgotten(t.core, t.callers[c])
      && ItemOk(s.core, Message(s.callers[c].body))
  {
    hide Wired, Flagged, Registered;
  }

  lemma SentShape(s: State, c: nat)
    requires CallerEnabled(s, c, TrySend) && CanSend(s.core)
    ensures var t, x := CallerApply(s, c, TrySend), s.callers[c];
      && t.core == Enqueue(s.core, Message(x.body)) && t.nextCaller == s.nextCaller && c in t.callers
      && t.callers == s.callers[c := t.callers[c]] && BeforeQueue(x.pc) && !BeforeQueue(t.callers[c].pc)
      && t.callers[c].isRequest == x.isRequest && t.callers[c].id == x.id
  {
  }

  /** Nobody still on the way to the queue shares the sent frame's request. */
  lemma SentIsOthers(s: State, c: nat)
    requires CallersOk(s) && c in s.callers
    ensures var x := s.callers[c];
      && CallerOk(s.core, x)
      && (x.body.tag.Request? <==> x.isRequest) && (x.isRequest ==> x.body.tag == Request(x.id))
      && forall d :: d in s.callers && d != c && s.callers[d].isRequest ==>
           !IsRequestItem(Message(x.body), s.callers[d].id)
  {
  }

  lemma SendCorrelates(s: State, c: nat)
    requires CoreInv(s.core) && Correlated(s) && CallerEnabled(s, c, TrySend) && CanSend(s.core)
    ensures Correlated(CallerApply(s, c, TrySend))
  {
    var t := CallerApply(s, c, TrySend);
    var x := s.callers[c];
    var own := if x.isRequest then x.id else NextId(s.core);
    SentIsOthers(s, c);
    SentCallerOk(s, c);
    SentShape(s, c);
    EnqueuePreserves(s.core, Message(x.body), own);
    hide Preserves, CallerOk, NotForgotten, ItemOk, CoreInv, NotQueued, CallerApply, CallerEnabled, Enqueue, CanSend;
    CallerFrame(s, t, c, own);
    EnqueueItems(s, t, Message(x.body));
  }

  lemma DropCorrelates(s: State, c: nat, scope: Scope)
    requires Correlated(s) && c in s.callers
    ensures Correlated(DropCaller(s, c).(scope := scope))
    ensures Correlated(s.(callers := s.callers - {c}, scope := scope))
  {
    var t := DropCaller(s, c).(scope := scope);
    QuietPreserves(s.core, t.core);
    QuietPreserves(s.core, s.core);
    hide Preserves, CallerOk, NotForgotten, ItemOk, NotQueued;
    CoreFrame(s, t);
    CoreFrame(s, s.(callers := s.callers - {c}, scope := scope));
    ItemsFrame(s, t);
  }

  lemma CallerCorrelates(s: State, c: nat, step: CallerStep)
    requires CoreInv(s.core) && Correlated(s) && CallerEnabled(s, c, step)
    ensures Correlated(CallerApply(s, c, step))
  {
    hide Correlated, CoreInv;
    if Quiet(s, step) {
      QuietCallerCorrelates(s, c, step);
    } else if step == Register {
      RegisterCorrelates(s, c);
    } else if step == TrySend {
      SendCorrelates(s, c);
    } else if step == Cancel {
      DropCorrelates(s, c, s.scope);
    } else {
      WithdrawCorrelates(s, c, step);
    }
  }

  /** A step of the core alone that queues nothing. */
  lemma CoreStepCorrelates(s: State, d: Core)
    requires Correlated(s) && Preserves(s.core, d, NextId(s.core)) && d.enqueued == s.core.enqueued
    ensures Correlated(s.(core := d))
  {
    CoreFrame(s, s.(core := d));
    ItemsFrame(s, s.(core := d));
  }

  lemma DispatchPreserves(c: Core, id: Id, reply: ClientCore.Reply)
    requires Registered(c)
    ensures Preserves(c, Dispatch(c, id, reply), NextId(c))
  {
  }

  lemma ReaderDiesPreserves(c: Core)
    ensures Preserves(c, ReaderDies(c), NextId(c))
  {
  }

  lemma SpawnRequestCorrelates(s: State, x: Caller)
    requires CoreInv(s.core) && Correlated(s)
    requires Sendable(x.body.bytes) && !x.queued && x.isRequest && x.pc == MustRegister
    requires x.id == NextId(s.core) && x.body.tag == Request(x.id)
    ensures Correlated(Spawn(s, x).(core := s.core.(nextId := s.core.nextId + 1)))
  {
    hide Wired, Queued, Acknowledged, Flagged;
    forall k | 0 <= k < |s.core.enqueued| ensures !IsRequestItem(s.core.enqueued[k], x.id)
    {
      assert ItemOk(s.core, s.core.enqueued[k]);
    }
    assert NotQueued(s.core, x.id);
  }

  lemma SpawnNotificationCorrelates(s: State, x: Caller, scope: Scope)
    requires Correlated(s)
    requires Sendable(x.body.bytes) && !x.queued && !x.isRequest && x.pc == NeedPermit && !x.body.tag.Request?
    ensures Correlated(Spawn(s, x).(scope := scope))
  {
  }

  lemma ScopeCorrelates(s: State, step: ScopeStep)
    requires CoreInv(s.core) && Correlated(s) && ScopeEnabled(s, step)
    requires step.SendClose? && CanSend(s.core) ==> ItemOk(s.core, CloseDocuments(s.scope.pc.batch))
    ensures Correlated(ScopeApply(s, step))
  {
    hide CoreInv, Correlated, Drains, Uris;
    var t := ScopeApply(s, step);
    match step {
      case Open(uri, bytes) =>
        SpawnNotificationCorrelates(s, t.callers[s.nextCaller], t.scope);
        assert t == Spawn(s, t.callers[s.nextCaller]).(scope := t.scope);
      case Opened => DropCorrelates(s, s.scope.pc.c, LeaveOpen(s));
      case AbandonOpen => DropCorrelates(s, s.scope.pc.c, LeaveOpen(s));
      case SendClose => CloseCorrelates(s, t);
      case _ => CloseCorrelates(s, t);
    }
  }

  /** A scope step that leaves the callers alone: it queues at most a cleanup batch. */
  lemma CloseCorrelates(s: State, t: State)
    requires CoreInv(s.core) && Correlated(s) && t.callers == s.callers && t.nextCaller == s.nextCaller
    requires || t.core == s.core || t.core == FailWriter(s.core)
             || (t.core.enqueued != [] &&
                 var item := t.core.enqueued[|t.core.enqueued| - 1];
                 item.CloseDocuments? && t.core == Enqueue(s.core, item) && ItemOk(s.core, item))
    ensures Correlated(t)
  {
    hide Wired;
    if t.core == s.core || t.core == FailWriter(s.core) {
      QuietPreserves(s.core, t.core);
      hide Preserves;
      CoreStepCorrelates(s, t.core);
    } else {
      var item := t.core.enqueued[|t.core.enqueued| - 1];
      EnqueuePreserves(s.core, item, NextId(s.core));
      hide Preserves;
      CoreFrame(s, t);
      EnqueueItems(s, t, item);
    }
  }
}
