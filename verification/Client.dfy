/** The client as a step system: callers that can be cancelled at every await, one document
    scope at a time, the writer, the reader and the drain `fail_writer` spawns. An action is a
    stretch of code without an await; where such a stretch reads `failed` and then sends, it is
    two actions, because other threads run in between. */
module Client {
  import opened Utf8
  import opened ClientCore

  datatype Outcome = Sent | Answered(slot: Slot) | SendFailed | TimedOut

  /** Where a caller of `request` or `notify` stands:
      `MustRegister` - has its id, awaits the waiter map;
      `NeedPermit` - awaits the write slot; `Granted` - the semaphore assigned it the permit;
      `Ready` - saw `failed` unset, about to `try_send`; `GivingUp` - `try_send` failed, about
      to `fail_writer`; `AwaitAck(k)` - its frame is item `k` of the queue; `Undoing` - the send
      failed, about to remove its waiter; `AwaitReply`; `Expiring` - its reply wait timed out. */
  datatype Pc =
    | MustRegister | NeedPermit | Granted | Ready | GivingUp | AwaitAck(k: nat)
    | Undoing | AwaitReply | Expiring | Finished(outcome: Outcome)

  /** `id` is meaningful for requests only; `queued` records that the frame entered the queue. */
  datatype Caller = Caller(isRequest: bool, id: Id, body: Body, pc: Pc, queued: bool)

  datatype ScopePc =
    | Working
    | Opening(c: nat, uri: Uri)                   // `ensure_open` awaits caller `c`
    | Closing(batch: seq<Body>, dropping: bool)      // before `close_documents` reads `failed`
    | Sending(batch: seq<Body>, dropping: bool)      // before its `try_send`
    | FailingClose(dropping: bool)                   // before its `fail_writer`
    | AwaitClose(k: nat)

  /** `ScopedDocuments`. `lost` records the uris whose `ensure_open` was cancelled or failed
      before the frame was queued. */
  datatype Scope = NoScope | InScope(open: set<Uri>, lost: set<Uri>, pc: ScopePc)

  datatype State = State(
    core: Core,
    callers: map<nat, Caller>,
    nextCaller: nat,
    scope: Scope,
    orphans: multiset<Uri>,  // closes queued for documents whose open never was
    leaked: bool             // some batch of closes could not be queued
  )

  const INIT := State(INITIAL, map[], 0, NoScope, multiset{}, false)

  datatype CallerStep =
    | Register | Grant | Check | TrySend | GiveUp | TakeAck | Undo | TakeReply | Timeout | Expire | Cancel

  datatype ScopeStep =
    | Begin
    | Open(uri: Uri, bytes: seq<byte>)   // `ensure_open` of a document with known text and language
    | Opened                             // the notification returned
    | AbandonOpen                        // `ensure_open` is cancelled
    | CloseAll(batch: seq<Body>)
    | Drop(batch: seq<Body>)
    | CheckClose | SendClose | GiveUpClose | TakeClose

  datatype Action =
    | Issue(bytes: seq<byte>)    // a request takes its id
    | Notify(bytes: seq<byte>)
    | OfCaller(c: nat, step: CallerStep)
    | OfWriter(w: WriterStep)
    | RunDrain
    | Reply(id: Id, reply: ClientCore.Reply)
    | ReaderFails
    | OfScope(s: ScopeStep)

  // ---- callers --------------------------------------------------------------

  /** JSON text is never empty and a Rust string's length fits a `usize`. */
  predicate Sendable(bytes: seq<byte>) { 0 < |bytes| <= USIZE_MAX }

  predicate HoldsPermit(pc: Pc) { pc == Granted || pc == Ready }

  predicate IsOpening(s: State, c: nat)
  {
    s.scope.InScope? && s.scope.pc.Opening? && s.scope.pc.c == c
  }

  predicate Answerable(s: State, x: Caller)
  {
    x.id in s.core.slots && (s.core.slots[x.id].Replied? || s.core.slots[x.id] == Died)
  }

  predicate AckArrived(s: State, k: nat) { k < |s.core.acks| && s.core.acks[k] != Pending }

  /** A future can be dropped where it awaits, not between an assignment and a send. */
  predicate Suspended(pc: Pc)
  {
    pc != Ready && pc != GivingUp && !pc.Finished?
  }

  predicate CallerEnabled(s: State, c: nat, step: CallerStep)
  {
    c in s.callers &&
    var x := s.callers[c];
    match step
    case Register => x.pc == MustRegister
    case Grant => x.pc == NeedPermit && s.core.permits > 0
    case Check => x.pc == Granted
    case TrySend => x.pc == Ready
    case GiveUp => x.pc == GivingUp
    case TakeAck => x.pc.AwaitAck? && AckArrived(s, x.pc.k)
    case Undo => x.pc == Undoing
    case TakeReply => x.pc == AwaitReply && Answerable(s, x)
    case Timeout => x.pc == AwaitReply
    case Expire => x.pc == Expiring
    case Cancel => Suspended(x.pc) && !IsOpening(s, c)
  }

  function MoveTo(s: State, c: nat, pc: Pc): State
    requires c in s.callers
  {
    s.(callers := s.callers[c := s.callers[c].(pc := pc)])
  }

  /** Where a failed send goes: a request still has its waiter to remove. */
  function AfterFailure(x: Caller): Pc { if x.isRequest then Undoing else Finished(SendFailed) }

  function Released(c: Core): Core { c.(permits := c.permits + 1) }

  /** Drop a caller's future: a permit already assigned to it goes back, its waiter stays. */
  function DropCaller(s: State, c: nat): State
    requires c in s.callers
  {
    s.(core := if HoldsPermit(s.callers[c].pc) then Released(s.core) else s.core,
       callers := s.callers - {c})
  }

  function CallerApply(s: State, c: nat, step: CallerStep): State
    requires CallerEnabled(s, c, step)
  {
    var x := s.callers[c];
    match step
    case Register => MoveTo(s, c, NeedPermit).(core := RegisterWaiter(s.core, x.id))
    case Grant => MoveTo(s, c, Granted).(core := s.core.(permits := s.core.permits - 1))
    case Check =>
      if s.core.failed then MoveTo(s, c, AfterFailure(x)).(core := Released(s.core))
      else MoveTo(s, c, Ready)
    case TrySend =>
      if CanSend(s.core) then
        s.(core := Enqueue(s.core, Message(x.body)),
           callers := s.callers[c := x.(pc := AwaitAck(|s.core.enqueued|), queued := true)])
      else MoveTo(s, c, GivingUp).(core := Released(s.core))
    case GiveUp => MoveTo(s, c, AfterFailure(x)).(core := FailWriter(s.core))
    case TakeAck =>
      MoveTo(s, c,
        if s.core.acks[x.pc.k] != AckOk then AfterFailure(x)
        else if x.isRequest then AwaitReply else Finished(Sent))
    case Undo => MoveTo(s, c, Finished(SendFailed)).(core := RemoveWaiter(s.core, x.id))
    case TakeReply => MoveTo(s, c, Finished(Answered(s.core.slots[x.id])))
    case Timeout => MoveTo(s, c, Expiring)
    case Expire => MoveTo(s, c, Finished(TimedOut)).(core := RemoveWaiter(s.core, x.id))
    case Cancel => DropCaller(s, c)
  }

  // ---- the document scope ---------------------------------------------------

  function Uris(batch: seq<Body>): set<Uri>
  {
    set b | b in batch && b.tag.DidClose? :: b.tag.uri
  }

  /** `open.drain().collect()`: each open uri once, in the hash set's own order. */
  ghost predicate Drains(batch: seq<Body>, open: set<Uri>)
  {
    && (forall i :: 0 <= i < |batch| ==> batch[i].tag.DidClose? && Sendable(batch[i].bytes))
    && (forall i, j :: 0 <= i < j < |batch| ==> batch[i].tag != batch[j].tag)
    && Uris(batch) == open
  }

  ghost predicate ScopeEnabled(s: State, step: ScopeStep)
  {
    match step
    case Begin => s.scope == NoScope
    case Open(uri, bytes) => s.scope.InScope? && s.scope.pc == Working && uri !in s.scope.open && Sendable(bytes)
    case Opened => s.scope.InScope? && s.scope.pc.Opening? && s.scope.pc.c in s.callers
                   && s.callers[s.scope.pc.c].pc.Finished?
    case AbandonOpen => s.scope.InScope? && s.scope.pc.Opening? && s.scope.pc.c in s.callers
                        && Suspended(s.callers[s.scope.pc.c].pc)
    case CloseAll(batch) => s.scope.InScope? && s.scope.pc == Working && Drains(batch, s.scope.open)
    case Drop(batch) => s.scope.InScope? && (s.scope.pc == Working || s.scope.pc.AwaitClose?)
                        && Drains(batch, s.scope.open)
    case CheckClose => s.scope.InScope? && s.scope.pc.Closing?
    case SendClose => s.scope.InScope? && s.scope.pc.Sending?
    case GiveUpClose => s.scope.InScope? && s.scope.pc.FailingClose?
    case TakeClose => s.scope.InScope? && s.scope.pc.AwaitClose? && AckArrived(s, s.scope.pc.k)
  }

  /** The scope after its documents are off its hands. */
  function Emptied(dropping: bool, pc: ScopePc): Scope
  {
    if dropping then NoScope else InScope({}, {}, pc)
  }

  /** Leaving `ensure_open`, whichever way. */
  function LeaveOpen(s: State): Scope
    requires s.scope.InScope? && s.scope.pc.Opening? && s.scope.pc.c in s.callers
  {
    s.scope.(pc := Working,
             lost := s.scope.lost + if s.callers[s.scope.pc.c].queued then {} else {s.scope.pc.uri})
  }

  function ScopeApply(s: State, step: ScopeStep): State
    requires ScopeEnabled(s, step)
  {
    match step
    case Begin => s.(scope := InScope({}, {}, Working))
    case Open(uri, bytes) =>
      // Ownership precedes the notification await.
      s.(scope := s.scope.(open := s.scope.open + {uri}, pc := Opening(s.nextCaller, uri)),
         callers := s.callers[s.nextCaller := Caller(false, Id(0), Body(DidOpen(uri), bytes), NeedPermit, false)],
         nextCaller := s.nextCaller + 1)
    case Opened => s.(scope := LeaveOpen(s), callers := s.callers - {s.scope.pc.c})
    case AbandonOpen => DropCaller(s, s.scope.pc.c).(scope := LeaveOpen(s))
    case CloseAll(batch) =>
      if s.scope.open == {} then s
      else s.(scope := s.scope.(open := {}, pc := Closing(batch, false)))
    case Drop(batch) =>
      if s.scope.open == {} then s.(scope := NoScope)
      else s.(scope := s.scope.(open := {}, pc := Closing(batch, true)))
    case CheckClose =>
      if s.core.failed then s.(scope := Emptied(s.scope.pc.dropping, Working), leaked := true)
      else s.(scope := s.scope.(pc := Sending(s.scope.pc.batch, s.scope.pc.dropping)))
    case SendClose =>
      if CanSend(s.core) then
        s.(core := Enqueue(s.core, CloseDocuments(s.scope.pc.batch)),
           scope := Emptied(s.scope.pc.dropping, AwaitClose(|s.core.enqueued|)),
           orphans := s.orphans + multiset(s.scope.lost))
      else s.(scope := InScope({}, {}, FailingClose(s.scope.pc.dropping)), leaked := true)
    case GiveUpClose =>
      s.(core := FailWriter(s.core), scope := Emptied(s.scope.pc.dropping, Working))
    case TakeClose => s.(scope := s.scope.(pc := Working))
  }

  // ---- steps and runs -------------------------------------------------------

  ghost predicate Enabled(s: State, a: Action)
  {
    match a
    case Issue(bytes) => Sendable(bytes)
    case Notify(bytes) => Sendable(bytes)
    case OfCaller(c, step) => CallerEnabled(s, c, step)
    case OfWriter(w) => WriterEnabled(s.core, w)
    case RunDrain => s.core.drainPending
    case Reply(_, _) => s.core.reading
    case ReaderFails => s.core.reading
    case OfScope(step) => ScopeEnabled(s, step)
  }

  function Spawn(s: State, x: Caller): State
  {
    s.(callers := s.callers[s.nextCaller := x], nextCaller := s.nextCaller + 1)
  }

  function Apply(s: State, a: Action): State
    requires Enabled(s, a)
  {
    match a
    case Issue(bytes) =>
      Spawn(s, Caller(true, NextId(s.core), Body(Request(NextId(s.core)), bytes), MustRegister, false))
        .(core := s.core.(nextId := s.core.nextId + 1))
    case Notify(bytes) => Spawn(s, Caller(false, Id(0), Body(Plain, bytes), NeedPermit, false))
    case OfCaller(c, step) => CallerApply(s, c, step)
    case OfWriter(w) => s.(core := WriterApply(s.core, w))
    case RunDrain => s.(core := FailWaiters(s.core).(drainPending := false))
    case Reply(id, reply) => s.(core := Dispatch(s.core, id, reply))
    case ReaderFails => s.(core := ReaderDies(s.core))
    case OfScope(step) => ScopeApply(s, step)
  }

  /** `run` can be taken from `s`, action by action. */
  ghost predicate Runs(s: State, run: seq<Action>)
    decreases |run|
  {
    run == [] || (Enabled(s, run[0]) && Runs(Apply(s, run[0]), run[1..]))
  }

  ghost function After(s: State, run: seq<Action>): State
    requires Runs(s, run)
    decreases |run|
  {
    if run == [] then s else After(Apply(s, run[0]), run[1..])
  }

  /** Every state some run reaches from a fresh client. */
  ghost predicate Reachable(s: State)
  {
    exists run :: Runs(INIT, run) && After(INIT, run) == s
  }
}
