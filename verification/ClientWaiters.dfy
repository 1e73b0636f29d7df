/** Who still waits: the waiter map holds live requests and what cancelled ones left behind. */
module ClientWaiters {
  import Documents
  import opened ClientCore
  import opened CoreInvariant
  import opened Client
  import opened Correlation
  import opened ClientSafety
  import opened ClientReplies

  /** Caller `c` is a request with this id that is registered and has not returned. */
  predicate Owns(s: State, c: nat, id: Id)
  {
    c in s.callers && s.callers[c].isRequest && s.callers[c].id == id && Listening(s.callers[c].pc)
  }

  ghost predicate Owned(s: State, id: Id) { exists c :: Owns(s, c, id) }

  /** The step cancels a request with this id. */
  predicate Cancels(s: State, a: Action, id: Id)
  {
    a.OfCaller? && a.step == Cancel && Owns(s, a.c, id)
  }

  /** The ids of the requests a run cancelled after they were registered. */
  ghost predicate Cancelled(s: State, run: seq<Action>, id: Id)
    requires Runs(s, run)
    decreases |run|
  {
    run != [] && (Cancels(s, run[0], id) || Cancelled(Apply(s, run[0]), run[1..], id))
  }

  /** A step leaves a waiter in the map only with its owner, or without one it never had, or
      because it cancelled the owner. */
  ghost predicate KeepsOwners(s: State, a: Action, t: State)
  {
    forall id :: id in t.core.waiters ==>
      Owned(t, id) || (id in s.core.waiters && (Owned(s, id) ==> Cancels(s, a, id)))
  }

  /** Callers other than `c` are untouched. */
  lemma OthersOwn(s: State, t: State, c: nat, d: nat, id: Id)
    requires Owns(s, d, id) && d != c && d in t.callers && t.callers[d] == s.callers[d]
    ensures Owned(t, id)
  {
    assert Owns(t, d, id);
  }

  /** What a caller's step does to its own waiter. */
  lemma OwnWaiter(s: State, c: nat, step: CallerStep)
    requires Registered(s.core) && CallersOk(s) && CallerEnabled(s, c, step) && step != Cancel
    requires s.callers[c].isRequest
    ensures var t := CallerApply(s, c, step);
      s.callers[c].id in t.core.waiters ==> Owns(t, c, s.callers[c].id)
  {
    assert CallerOk(s.core, s.callers[c]);
    hide CallersOk;
    match step {
      case Register =>
      case Grant =>
      case Check =>
      case TrySend =>
      case GiveUp =>
      case TakeAck =>
      case Undo =>
      case TakeReply =>
      case Timeout =>
      case Expire =>
    }
  }

  lemma CallerMoves(s: State, c: nat, step: CallerStep)
    requires CallerEnabled(s, c, step)
    ensures var t := CallerApply(s, c, step);
      && (forall d :: d in s.callers && d != c ==> d in t.callers && t.callers[d] == s.callers[d])
      && (step != Register ==> forall id :: id in t.core.waiters ==> id in s.core.waiters)
  {
  }

  lemma OnlyRequestsRegister(s: State, c: nat)
    requires CallersOk(s) && c in s.callers && s.callers[c].pc == MustRegister
    ensures s.callers[c].isRequest
    ensures forall id :: id in RegisterWaiter(s.core, s.callers[c].id).waiters ==>
      id in s.core.waiters || id == s.callers[c].id
  {
    assert CallerOk(s.core, s.callers[c]);
  }

  lemma CallerKeepsOwners(s: State, c: nat, step: CallerStep)
    requires Registered(s.core) && CallersOk(s) && CallerEnabled(s, c, step)
    ensures KeepsOwners(s, OfCaller(c, step), CallerApply(s, c, step))
  {
    var t := CallerApply(s, c, step);
    CallerMoves(s, c, step);
    if step == Register { OnlyRequestsRegister(s, c); }
    if step != Cancel && s.callers[c].isRequest { OwnWaiter(s, c, step); }
    hide CallersOk, Registered, CallerApply;
    forall id | id in t.core.waiters
      ensures Owned(t, id) || (id in s.core.waiters && (Owned(s, id) ==> Cancels(s, OfCaller(c, step), id)))
    {
      if d :| Owns(s, d, id) {
        if d != c { OthersOwn(s, t, c, d, id); }
      }
    }
  }

  /** Steps that add no waiter and leave every request where it was. */
  lemma CalmKeepsOwners(s: State, a: Action, t: State)
    requires t.core.waiters <= s.core.waiters
    requires forall c :: c in s.callers && s.callers[c].isRequest ==> c in t.callers && t.callers[c] == s.callers[c]
    ensures KeepsOwners(s, a, t)
  {
    forall id | id in t.core.waiters && Owned(s, id) ensures Owned(t, id)
    {
      var c :| Owns(s, c, id);
      assert Owns(t, c, id);
    }
  }

  lemma WriterIsCalm(c: Core, w: WriterStep)
    requires WriterEnabled(c, w)
    ensures WriterApply(c, w).waiters <= c.waiters
  {
    hide ItemBytes, NormalCount, CloseFrom, WakeAll, Terminate;
    TerminateKeepsWaiters(c);
    match w {
      case Recv =>
      case CheckFailed =>
      case Write(n) =>
      case Finish =>
      case Fail =>
      case WakeWaiters =>
      case AckError =>
      case Release =>
      case Leave =>
      case Abort =>
    }
  }

  lemma TerminateKeepsWaiters(c: Core)
    ensures Terminate(c).waiters == c.waiters
  {
  }

  lemma ScopeIsCalm(s: State, step: ScopeStep)
    requires CallersOk(s) && Documents.ScopeShape(s) && ScopeEnabled(s, step)
    ensures var t := ScopeApply(s, step);
      && t.core.waiters == s.core.waiters
      && forall c :: c in s.callers && s.callers[c].isRequest ==> c in t.callers && t.callers[c] == s.callers[c]
  {
    hide Drains, Uris, CallerOk, NotForgotten;
    match step {
      case Begin =>
      case Open(_, _) =>
      case Opened =>
      case AbandonOpen =>
      case CloseAll(_) =>
      case Drop(_) =>
      case CheckClose =>
      case SendClose =>
      case GiveUpClose =>
      case TakeClose =>
    }
  }

  lemma InvFacts(s: State)
    requires Inv(s)
    ensures Registered(s.core) && CallersOk(s) && Documents.ScopeShape(s)
  {
  }

  lemma StepKeepsOwners(s: State, a: Action)
    requires Inv(s) && Enabled(s, a)
    ensures KeepsOwners(s, a, Apply(s, a))
  {
    InvFacts(s);
    StepShape(s, a);
    hide Inv, KeepsOwners, Registered, Documents.ScopeShape, CallersOk, WriterApply, ScopeApply, CallerApply,
         Enabled, Apply;
    if a.OfCaller? {
      CallerKeepsOwners(s, a.c, a.step);
    } else {
      CalmKeepsOwners(s, a, Apply(s, a));
    }
  }

  lemma StepShape(s: State, a: Action)
    requires Registered(s.core) && CallersOk(s) && Documents.ScopeShape(s) && Enabled(s, a)
    ensures a.OfCaller? ==> CallerEnabled(s, a.c, a.step) && Apply(s, a) == CallerApply(s, a.c, a.step)
    ensures !a.OfCaller? ==>
      && Apply(s, a).core.waiters <= s.core.waiters
      && forall c :: c in s.callers && s.callers[c].isRequest ==>
           c in Apply(s, a).callers && Apply(s, a).callers[c] == s.callers[c]
  {
    hide WakeAll, WriterApply, ScopeApply, CallerApply, WriterEnabled, ScopeEnabled, CallerEnabled, CallerOk, NotForgotten;
    match a {
      case OfCaller(c, step) =>
      case OfWriter(w) => WriterIsCalm(s.core, w);
      case OfScope(step) => ScopeIsCalm(s, step);
      case Issue(_) =>
      case Notify(_) =>
      case RunDrain =>
      case Reply(_, _) =>
      case ReaderFails =>
    }
  }

  lemma {:induction false} RunKeepsOwners(s: State, run: seq<Action>)
    requires Inv(s) && Runs(s, run)
    ensures forall id :: id in After(s, run).core.waiters ==>
      Owned(After(s, run), id) || Cancelled(s, run, id) || (id in s.core.waiters && !Owned(s, id))
    decreases |run|
  {
    hide Inv, Owned, Cancels, Enabled, Apply;
    if run != [] {
      StepKeepsOwners(s, run[0]);
      StepInv(s, run[0]);
      RunKeepsOwners(Apply(s, run[0]), run[1..]);
    }
  }

  /** Over any run, a waiter left in the map belongs to a request still under way, or to one that was
      cancelled: a request that returns, with a reply, an error or a timeout, leaves none. */
  lemma WaitersAreOwned(run: seq<Action>)
    requires Runs(INIT, run)
    ensures forall id :: id in After(INIT, run).core.waiters ==>
      Owned(After(INIT, run), id) || Cancelled(INIT, run, id)
  {
    InitInv();
    RunKeepsOwners(INIT, run);
  }

  /** And cancellation does leave one: nobody owns it any more, only its reply or a failure takes it. */
  lemma CancelledLeavesWaiter(s: State, a: Action, id: Id)
    requires Reachable(s) && Enabled(s, a) && Cancels(s, a, id) && id in s.core.waiters
    ensures id in Apply(s, a).core.waiters && !Owned(Apply(s, a), id)
  {
    ReachableInv(s);
    InvFacts(s);
    hide Inv, Reachable, CallerOk, NotForgotten;
  }

  /** The id's request is gone for good. */
  ghost predicate Gone(s: State, id: Id)
  {
    exists c :: c !in s.callers && Taken(s, c, id)
  }

  lemma CancelGoes(s: State, a: Action, id: Id)
    requires Inv(s) && Enabled(s, a) && Cancels(s, a, id)
    ensures Gone(Apply(s, a), id)
  {
    InvFacts(s);
    hide Inv, NotForgotten, Registered, Documents.ScopeShape;
    assert CallerOk(s.core, s.callers[a.c]);
    assert Taken(Apply(s, a), a.c, id);
  }

  lemma {:induction false} RunStaysGone(s: State, run: seq<Action>, c: nat, id: Id)
    requires Runs(s, run) && c !in s.callers && Taken(s, c, id)
    ensures !Owned(After(s, run), id)
    decreases |run|
  {
    if run != [] {
      StepRenews(s, run[0]);
      StepStaysAbsent(s, run[0], c);
      hide Enabled, Apply;
      RunStaysGone(Apply(s, run[0]), run[1..], c, id);
    }
  }

  lemma StepStaysAbsent(s: State, a: Action, c: nat)
    requires Enabled(s, a) && c !in s.callers && c < s.nextCaller
    ensures c !in Apply(s, a).callers
  {
    hide WakeAll, WriterApply, WriterEnabled, Drains, Uris;
  }

  lemma {:induction false} CancelledHasNoOwner(s: State, run: seq<Action>, id: Id)
    requires Inv(s) && Runs(s, run) && Cancelled(s, run, id)
    ensures !Owned(After(s, run), id)
    decreases |run|
  {
    hide Inv, Owned, Cancels, Enabled, Apply;
    StepInv(s, run[0]);
    var t := Apply(s, run[0]);
    if Cancels(s, run[0], id) {
      CancelGoes(s, run[0], id);
      var c :| c !in t.callers && Taken(t, c, id);
      RunStaysGone(t, run[1..], c, id);
    } else {
      CancelledHasNoOwner(t, run[1..], id);
    }
  }

  /** A waiter in the map after a run has no owner exactly when its request was cancelled. */
  lemma OrphanedIffCancelled(run: seq<Action>, id: Id)
    requires Runs(INIT, run) && id in After(INIT, run).core.waiters
    ensures !Owned(After(INIT, run), id) <==> Cancelled(INIT, run, id)
  {
    hide Inv, Owned, Cancels, Enabled, Apply;
    InitInv();
    WaitersAreOwned(run);
    if Cancelled(INIT, run, id) { CancelledHasNoOwner(INIT, run, id); }
  }

  const CANCELLED_REQUEST: seq<Action> :=
    [Issue([0])] + ([OfCaller(0, Register)] + ([OfCaller(0, Cancel)] + []))

  /** It does happen: a request cancelled while it waits for the permit. */
  lemma OrphanHappens()
    ensures Runs(INIT, CANCELLED_REQUEST)
    ensures var t := After(INIT, CANCELLED_REQUEST);
      && !t.core.failed && t.core.waiters == {Id(1)} && t.callers == map[] && Cancelled(INIT, CANCELLED_REQUEST, Id(1))
  {
    OrphanSteps();
    hide Enabled, Apply, Cancels;
    assert Runs(ORPHANED, []) && After(ORPHANED, []) == ORPHANED;
    var r3 := [OfCaller(0, Cancel)] + [];
    var r2 := [OfCaller(0, Register)] + r3;
    hide Runs, After, Cancelled;
    Prepend(REGISTERED, OfCaller(0, Cancel), [], Id(1));
    Prepend(ISSUED, OfCaller(0, Register), r3, Id(1));
    Prepend(INIT, Issue([0]), r2, Id(1));
  }

  const FIRST := Caller(true, Id(1), Body(Request(Id(1)), [0]), MustRegister, false)
  const ISSUED := State(INITIAL.(nextId := 2), map[0 := FIRST], 1, NoScope, multiset{}, false)
  const REGISTERED :=
    State(RegisterWaiter(INITIAL.(nextId := 2), Id(1)), map[0 := FIRST.(pc := NeedPermit)], 1, NoScope, multiset{}, false)
  const ORPHANED := REGISTERED.(callers := map[])

  lemma OrphanSteps()
    ensures Enabled(INIT, Issue([0])) && Apply(INIT, Issue([0])) == ISSUED
    ensures Enabled(ISSUED, OfCaller(0, Register)) && Apply(ISSUED, OfCaller(0, Register)) == REGISTERED
    ensures Enabled(REGISTERED, OfCaller(0, Cancel)) && Apply(REGISTERED, OfCaller(0, Cancel)) == ORPHANED
    ensures Cancels(REGISTERED, OfCaller(0, Cancel), Id(1))
  {
    assert REGISTERED.callers - {0} == map[];
  }

  lemma Prepend(s: State, a: Action, rest: seq<Action>, id: Id)
    requires Enabled(s, a) && Runs(Apply(s, a), rest)
    ensures Runs(s, [a] + rest) && After(s, [a] + rest) == After(Apply(s, a), rest)
    ensures Cancelled(s, [a] + rest, id) <==> Cancels(s, a, id) || Cancelled(Apply(s, a), rest, id)
  {
    hide Enabled, Apply, Cancels;
    assert ([a] + rest)[0] == a && ([a] + rest)[1..] == rest;
  }
}
