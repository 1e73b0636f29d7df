/** What the shared client state keeps at every step, whoever takes it. */
module CoreInvariant {
  import opened ClientCore

  // ---- the invariant --------------------------------------------------------

  /** The channel is the untaken tail of what was enqueued; the writer holds the last item taken. */
  ghost predicate Queued(c: Core)
  {
    && |c.acks| == |c.enqueued|
    && |c.queue| <= CAPACITY
    && c.written <= c.head <= |c.enqueued|
    && c.head <= c.written + 1
    && c.queue == (if c.writer == Dead then [] else c.enqueued[c.head..])
    && (c.writer == Idle ==> c.written == c.head)
    && (c.writer.Holding? ==>
          && c.head > 0
          && c.writer.item == c.enqueued[c.head - 1]
          && c.written == if c.writer.stage == Releasing then c.head else c.head - 1)
  }

  /** The writer still owes the item in its hand an answer. */
  predicate Owes(c: Core)
  {
    c.writer.Holding? && (c.writer.stage == Received || c.writer.stage.Writing?
                          || c.writer.stage == Erring || c.writer.stage == Drained)
  }

  /** An acknowledgment is Ok exactly for the items written completely, and is outstanding
      only in the channel or in the writer's hand. */
  ghost predicate Acknowledged(c: Core)
    requires Queued(c)
  {
    forall k {:trigger c.acks[k]} :: 0 <= k < |c.acks| ==>
      && (c.acks[k] == AckOk <==> k < c.written)
      && (c.acks[k] == Pending ==> c.writer != Dead && (k >= c.head || (k == c.head - 1 && c.writer.Holding?)))
      && (c.writer != Dead && k >= c.head ==> c.acks[k] == Pending)
      && (Owes(c) && k == c.head - 1 ==> c.acks[k] == Pending)
  }

  /** The wire is the completely written items in queue order, then a part of at most one more. */
  ghost predicate Wired(c: Core)
    requires Queued(c)
  {
    var base := AllBytes(c.enqueued[..c.written]);
    match c.writer
    case Idle => c.wire == base
    case Dead => base <= c.wire && c.wire <= AllBytes(c.enqueued[..c.head])
    case Holding(item, stage) =>
      match stage
      case Received => c.wire == base
      case Releasing => c.wire == base
      case Writing(n) => n <= |ItemBytes(item)| && c.wire == base + ItemBytes(item)[..n]
      case Erring => base <= c.wire && c.wire <= base + ItemBytes(item)
      case Drained => base <= c.wire && c.wire <= base + ItemBytes(item)
      case Leaving => base <= c.wire && c.wire <= base + ItemBytes(item)
  }

  /** A writer out of its loop implies `failed`; once `failed` is set, somebody has woken the
      waiters or is about to. */
  predicate Flagged(c: Core)
  {
    && (c.writer == Dead ==> c.failed)
    && (c.writer.Holding? && c.writer.stage in {Erring, Drained, Leaving} ==> c.failed)
    && (c.drained || c.drainPending ==> c.failed)
    && (c.aborted ==> c.failed && (c.drained || c.drainPending))
    && (c.failed ==> c.drained || c.drainPending || AtStage(c, Erring))
  }

  /** The waiter map's entries are the unresolved oneshots of registered requests. */
  ghost predicate Registered(c: Core)
  {
    && (forall id :: id in c.waiters <==> id in c.slots && c.slots[id] == Waiting)
    && (forall id :: id in c.slots ==> id.n < c.nextId)
  }

  ghost predicate CoreInv(c: Core)
  {
    Queued(c) && Acknowledged(c) && Wired(c) && Flagged(c) && Registered(c)
  }

  // ---- preservation ---------------------------------------------------------

  lemma AllBytesSnoc(items: seq<Item>, k: nat)
    requires k < |items|
    ensures AllBytes(items[..k + 1]) == AllBytes(items[..k]) + ItemBytes(items[k])
  {
    assert items[..k + 1][..k] == items[..k];
  }

  lemma InitialKeeps()
    ensures CoreInv(INITIAL)
  {
  }

  lemma EnqueueKeeps(c: Core, item: Item)
    requires CoreInv(c) && CanSend(c)
    ensures CoreInv(Enqueue(c, item))
  {
    var d := Enqueue(c, item);
    assert d.enqueued[..c.written] == c.enqueued[..c.written];
    assert d.enqueued[..c.head] == c.enqueued[..c.head];
    assert d.enqueued[c.head..] == c.enqueued[c.head..] + [item];
  }

  lemma FailWriterKeeps(c: Core)
    requires CoreInv(c)
    ensures CoreInv(FailWriter(c))
  {
  }

  /** A change of the waiter map alone keeps everything else. */
  lemma WaiterChangeKeeps(c: Core, d: Core)
    requires CoreInv(c)
    requires d == c.(waiters := d.waiters, slots := d.slots, nextId := d.nextId, reading := d.reading)
    requires Registered(d)
    ensures CoreInv(d)
  {
    hide AllBytes, ItemBytes;
  }

  lemma IssueKeeps(c: Core)
    requires CoreInv(c)
    ensures CoreInv(c.(nextId := c.nextId + 1))
  {
    hide AllBytes, ItemBytes;
  }

  lemma RegisterKeeps(c: Core, id: Id)
    requires CoreInv(c) && id.n < c.nextId
    ensures CoreInv(RegisterWaiter(c, id))
  {
    hide Queued, Acknowledged, Wired, Flagged;
    WaiterChangeKeeps(c, RegisterWaiter(c, id));
  }

  lemma RemoveKeeps(c: Core, id: Id)
    requires CoreInv(c)
    ensures CoreInv(RemoveWaiter(c, id))
  {
    hide Queued, Acknowledged, Wired, Flagged;
    WaiterChangeKeeps(c, RemoveWaiter(c, id));
  }

  lemma DispatchKeeps(c: Core, id: Id, reply: Reply)
    requires CoreInv(c)
    ensures CoreInv(Dispatch(c, id, reply))
  {
    hide Queued, Acknowledged, Wired, Flagged;
    WaiterChangeKeeps(c, Dispatch(c, id, reply));
  }

  lemma ReaderDiesKeeps(c: Core)
    requires CoreInv(c)
    ensures CoreInv(ReaderDies(c))
  {
    hide Queued, Acknowledged, Wired, Flagged;
    WaiterChangeKeeps(c, ReaderDies(c));
  }

  lemma DrainKeeps(c: Core)
    requires CoreInv(c) && c.failed
    ensures CoreInv(FailWaiters(c)) && CoreInv(FailWaiters(c).(drainPending := false))
  {
    hide AllBytes, ItemBytes;
    ReaderDiesKeeps(c);
    assert Registered(ReaderDies(c));
  }

  lemma TerminateKeeps(c: Core)
    requires CoreInv(c) && c.failed && c.writer != Dead && (c.drained || c.drainPending)
    requires c.writer == Idle || IsWriting(c) || AtStage(c, Erring) || AtStage(c, Leaving)
    ensures CoreInv(Terminate(c))
  {
    hide AllBytes, ItemBytes, NormalCount;
    if c.writer.Holding? {
      AllBytesSnoc(c.enqueued, c.head - 1);
    }
  }

  lemma WriteKeeps(c: Core, n: nat)
    requires CoreInv(c) && WriterEnabled(c, Write(n))
    ensures CoreInv(WriterApply(c, Write(n)))
  {
    hide AllBytes, ItemBytes;
    var i, b := c.writer.stage.count, ItemBytes(c.writer.item);
    assert b[..i] + b[i..i + n] == b[..i + n];
  }

  lemma FinishKeeps(c: Core)
    requires CoreInv(c) && WriterEnabled(c, Finish)
    ensures CoreInv(WriterApply(c, Finish))
  {
    hide AllBytes, ItemBytes;
    AllBytesSnoc(c.enqueued, c.written);
    assert ItemBytes(c.writer.item)[..c.writer.stage.count] == ItemBytes(c.writer.item);
  }

  lemma RecvKeeps(c: Core)
    requires CoreInv(c) && WriterEnabled(c, Recv)
    ensures CoreInv(WriterApply(c, Recv))
  {
    hide AllBytes, ItemBytes;
    assert c.enqueued[c.head..][1..] == c.enqueued[c.head + 1..];
  }

  /** Steps that only move the writer on. */
  lemma StageKeeps(c: Core, w: WriterStep)
    requires CoreInv(c) && WriterEnabled(c, w) && w in {CheckFailed, Fail, AckError, Release}
    ensures CoreInv(WriterApply(c, w))
  {
    hide AllBytes, ItemBytes, NormalCount;
    if w == CheckFailed {
      var base := AllBytes(c.enqueued[..c.written]);
      assert base == base + ItemBytes(c.writer.item)[..0];
    } else if w == Fail {
    } else if w == AckError {
    } else {
    }
  }

  lemma WakeKeeps(c: Core)
    requires CoreInv(c) && WriterEnabled(c, WakeWaiters)
    ensures CoreInv(WriterApply(c, WakeWaiters))
  {
    hide AllBytes, ItemBytes;
    DrainKeeps(c);
    assert Registered(FailWaiters(c));
  }

  lemma WriterKeeps(c: Core, w: WriterStep)
    requires CoreInv(c) && WriterEnabled(c, w)
    ensures CoreInv(WriterApply(c, w))
  {
    hide AllBytes, ItemBytes, NormalCount, Wired, Acknowledged, Registered;
    match w {
      case Recv => RecvKeeps(c);
      case CheckFailed => StageKeeps(c, w);
      case Write(n) => WriteKeeps(c, n);
      case Finish => FinishKeeps(c);
      case Fail => StageKeeps(c, w);
      case WakeWaiters => WakeKeeps(c);
      case AckError => StageKeeps(c, w);
      case Release => StageKeeps(c, w);
      case Leave => TerminateKeeps(c);
      case Abort => TerminateKeeps(c);
    }
  }
}
