/** The write permit is neither lost nor duplicated, whatever is cancelled or fails. */
module Permit {
  import opened ClientCore
  import opened Client

  function Holders(callers: map<nat, Caller>): set<nat>
  {
    set c | c in callers && HoldsPermit(callers[c].pc)
  }

  /** Free permits, callers holding one, and messages queued or in the writer's hand. */
  ghost predicate Conserved(s: State)
  {
    s.core.permits + |Holders(s.callers)| + Normals(s.core) == 1
  }

  lemma HoldersMove(callers: map<nat, Caller>, c: nat, x: Caller)
    ensures |Holders(callers[c := x])| ==
            |Holders(callers)| - (if c in Holders(callers) then 1 else 0) + (if HoldsPermit(x.pc) then 1 else 0)
  {
    var holders := Holders(callers);
    var rest := holders - {c};
    assert Holders(callers[c := x]) == if HoldsPermit(x.pc) then rest + {c} else rest;
    hide Holders;
    assert holders == if c in holders then rest + {c} else rest;
    assert |rest + {c}| == |rest| + 1;
  }

  lemma HoldersDrop(callers: map<nat, Caller>, c: nat)
    ensures |Holders(callers - {c})| == |Holders(callers)| - if c in Holders(callers) then 1 else 0
  {
    assert Holders(callers - {c}) == Holders(callers) - {c};
  }

  lemma {:induction false} NormalCountSnoc(items: seq<Item>, item: Item)
    ensures NormalCount(items + [item]) == NormalCount(items) + if item.Message? then 1 else 0
  {
    if items != [] {
      NormalCountSnoc(items[1..], item);
      assert (items + [item])[1..] == items[1..] + [item];
    }
  }

  function Weight(pc: Pc): nat { if HoldsPermit(pc) then 1 else 0 }

  /** A step of caller `c` conserves the permit if what it adds and removes elsewhere balances. */
  lemma MoveConserves(s: State, t: State, c: nat)
    requires Conserved(s) && c in s.callers && c in t.callers
    requires t.callers == s.callers[c := t.callers[c]]
    requires t.core.permits + Normals(t.core) + Weight(t.callers[c].pc)
          == s.core.permits + Normals(s.core) + Weight(s.callers[c].pc)
    ensures Conserved(t)
  {
    HoldersMove(s.callers, c, t.callers[c]);
  }

  lemma DropConserves(s: State, c: nat, scope: Scope)
    requires Conserved(s) && c in s.callers
    ensures Conserved(DropCaller(s, c).(scope := scope))
  {
    HoldersDrop(s.callers, c);
  }

  /** What a caller's step takes from one place it puts in another. */
  ghost predicate Balances(s: State, t: State, c: nat)
    requires c in s.callers
  {
    && c in t.callers && t.callers == s.callers[c := t.callers[c]]
    && t.core.permits + Normals(t.core) + Weight(t.callers[c].pc)
    == s.core.permits + Normals(s.core) + Weight(s.callers[c].pc)
  }

  lemma SendBalances(s: State, c: nat)
    requires CallerEnabled(s, c, TrySend)
    ensures Balances(s, CallerApply(s, c, TrySend), c)
  {
    hide NormalCount;
    var x := s.callers[c];
    if CanSend(s.core) {
      var y := x.(pc := AwaitAck(|s.core.enqueued|), queued := true);
      assert CallerApply(s, c, TrySend) == s.(core := Enqueue(s.core, Message(x.body)), callers := s.callers[c := y]);
      NormalCountSnoc(s.core.queue, Message(x.body));
    }
  }

  lemma StepBalances(s: State, c: nat, step: CallerStep)
    requires CallerEnabled(s, c, step) && step != Cancel && step != TrySend
    ensures Balances(s, CallerApply(s, c, step), c)
  {
    hide WakeAll, NormalCount;
    match step {
      case Register =>
      case Grant =>
      case Check =>
      case GiveUp =>
      case TakeAck =>
      case Undo =>
      case TakeReply =>
      case Timeout =>
      case Expire =>
    }
  }

  lemma CallerConserves(s: State, c: nat, step: CallerStep)
    requires Conserved(s) && CallerEnabled(s, c, step)
    ensures Conserved(CallerApply(s, c, step))
  {
    if step == Cancel {
      hide Conserved;
      DropConserves(s, c, s.scope);
    } else {
      if step == TrySend { SendBalances(s, c); } else { StepBalances(s, c, step); }
      hide CallerApply, CallerEnabled, NormalCount;
      MoveConserves(s, CallerApply(s, c, step), c);
    }
  }

  /** The writer's end returns the permits of its item and of every queued one. */
  lemma TerminateConserves(c: Core)
    requires c.writer != Dead
    ensures Terminate(c).permits + Normals(Terminate(c)) == c.permits + Normals(c)
  {
    hide CloseFrom;
  }

  lemma WriterBalances(c: Core, w: WriterStep)
    requires WriterEnabled(c, w)
    ensures WriterApply(c, w).permits + Normals(WriterApply(c, w)) == c.permits + Normals(c)
  {
    hide ItemBytes, CloseFrom, WakeAll, Terminate;
    match w {
      case Recv =>
      case CheckFailed =>
      case Write(n) =>
      case Finish =>
      case Fail =>
      case WakeWaiters =>
      case AckError =>
      case Release =>
      case Leave => TerminateConserves(c);
      case Abort => TerminateConserves(c);
    }
  }

  lemma WriterConserves(s: State, w: WriterStep)
    requires Conserved(s) && WriterEnabled(s.core, w)
    ensures Conserved(s.(core := WriterApply(s.core, w)))
  {
    hide WriterApply, WriterEnabled, Normals, Holders;
    WriterBalances(s.core, w);
  }

  /** A new caller holds nothing yet. */
  lemma SpawnConserves(s: State, x: Caller, scope: Scope)
    requires Conserved(s) && s.nextCaller !in s.callers && !HoldsPermit(x.pc)
    ensures Conserved(Spawn(s, x).(scope := scope))
  {
    HoldersMove(s.callers, s.nextCaller, x);
  }

  /** Scope steps that touch no caller: at most they queue a cleanup batch. */
  lemma QuietScopeConserves(s: State, step: ScopeStep)
    requires Conserved(s) && ScopeEnabled(s, step)
    requires !step.Open? && !step.Opened? && !step.AbandonOpen? && !step.SendClose?
    ensures Conserved(ScopeApply(s, step))
  {
    hide Holders, NormalCount, Drains, Uris;
    match step {
      case Begin =>
      case CloseAll(_) =>
      case Drop(_) =>
      case CheckClose =>
      case GiveUpClose =>
      case TakeClose =>
    }
  }

  lemma SendCloseConserves(s: State)
    requires Conserved(s) && ScopeEnabled(s, SendClose)
    ensures Conserved(ScopeApply(s, SendClose))
  {
    hide Holders, NormalCount, Drains, Uris;
    if CanSend(s.core) {
      NormalCountSnoc(s.core.queue, CloseDocuments(s.scope.pc.batch));
    }
  }

  lemma ScopeConserves(s: State, step: ScopeStep)
    requires Conserved(s) && ScopeEnabled(s, step) && s.nextCaller !in s.callers
    ensures Conserved(ScopeApply(s, step))
  {
    hide Conserved, Drains, Uris;
    match step {
      case Open(uri, bytes) =>
        var t := ScopeApply(s, step);
        SpawnConserves(s, t.callers[s.nextCaller], t.scope);
        assert t == Spawn(s, t.callers[s.nextCaller]).(scope := t.scope);
      case Opened =>
        assert !HoldsPermit(s.callers[s.scope.pc.c].pc);
        DropConserves(s, s.scope.pc.c, LeaveOpen(s));
      case AbandonOpen => DropConserves(s, s.scope.pc.c, LeaveOpen(s));
      case SendClose => SendCloseConserves(s);
      case Begin => QuietScopeConserves(s, step);
      case CloseAll(_) => QuietScopeConserves(s, step);
      case Drop(_) => QuietScopeConserves(s, step);
      case CheckClose => QuietScopeConserves(s, step);
      case GiveUpClose => QuietScopeConserves(s, step);
      case TakeClose => QuietScopeConserves(s, step);
    }
  }

  lemma Conserves(s: State, a: Action)
    requires Conserved(s) && Enabled(s, a) && s.nextCaller !in s.callers
    ensures Conserved(Apply(s, a))
  {
    hide Holders, NormalCount;
    match a {
      case OfCaller(c, step) => CallerConserves(s, c, step);
      case OfWriter(w) => WriterConserves(s, w);
      case OfScope(step) => ScopeConserves(s, step);
      case Issue(bytes) => SpawnConserves(s, Apply(s, a).callers[s.nextCaller], s.scope);
      case Notify(bytes) => SpawnConserves(s, Apply(s, a).callers[s.nextCaller], s.scope);
      case _ =>
    }
  }
}
