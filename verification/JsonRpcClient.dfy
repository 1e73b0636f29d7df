/** The client object and its writer loop in the source's own imperative form, each method tied
    to the step of `ClientCore` it performs. Methods run to completion here; the interleavings
    between them are the business of module `Client`. */
module JsonRpc {
  import Codec
  import opened Wrappers
  import opened Utf8
  import Core = ClientCore
  import opened CoreInvariant
  import opened WriterRuns
  import Progress = ClientProgress

  /** The loop over a drained waiter map, whatever order it yields the entries in: each gets the
      error, and no other oneshot is touched. */
  method ResolveDied(entries: set<Core.Id>, slots: map<Core.Id, Core.Slot>) returns (resolved: map<Core.Id, Core.Slot>)
    requires forall id :: id in entries ==> id in slots
    ensures resolved.Keys == slots.Keys
    ensures forall id :: id in slots ==> resolved[id] == if id in entries then Core.Died else slots[id]
  {
    resolved := slots;
    var rest := entries;
    while true
      invariant rest <= entries && resolved.Keys == slots.Keys
      invariant forall id :: id in slots ==>
                  resolved[id] == if id in entries && id !in rest then Core.Died else slots[id]
      decreases |rest|
    {
      if id :| id in rest {
        rest, resolved := rest - {id}, resolved[id := Core.Died];
      } else {
        break;
      }
    }
  }

  lemma WakeAllIs(c: Core.Core, resolved: map<Core.Id, Core.Slot>)
    requires resolved.Keys == c.slots.Keys
    requires forall id :: id in c.slots ==> resolved[id] == if id in c.waiters then Core.Died else c.slots[id]
    ensures resolved == Core.WakeAll(c)
  {
  }

  /** Dropping queued items one by one: each message gives up its permit. */
  method MessagesIn(items: seq<Core.Item>) returns (n: nat)
    ensures n == Core.NormalCount(items)
  {
    n := 0;
    var rest := items;
    while rest != []
      invariant Core.NormalCount(rest) + n == Core.NormalCount(items)
      decreases |rest|
    {
      if rest[0].Message? { n := n + 1; }
      rest := rest[1..];
    }
  }

  /** Dropping the receiver and the item in hand gives up every permit in them. */
  method PermitsWithin(items: seq<Core.Item>, writer: Core.Writer) returns (n: nat)
    requires writer.Holding?
    ensures n == Core.NormalCount(items) + if writer.item.Message? then 1 else 0
  {
    n := MessagesIn(items);
    if writer.item.Message? { n := n + 1; }
  }

  lemma NormalsAre(c: Core.Core)
    requires c.writer.Holding?
    ensures Core.Normals(c) == Core.NormalCount(c.queue) + if c.writer.item.Message? then 1 else 0
  {
  }

  class JsonRpcClient {
    var permits: nat
    var queue: seq<Core.Item>
    var failed: bool
    var aborted: bool
    var drainPending: bool
    var waiters: set<Core.Id>
    var slots: map<Core.Id, Core.Slot>
    var nextId: int
    var reading: bool
    var acks: seq<Core.Ack>
    var writer: Core.Writer   // the writer task's place in its loop
    ghost var drained: bool
    ghost var enqueued: seq<Core.Item>
    ghost var head: nat
    ghost var written: nat
    ghost var wire: seq<byte>

    ghost function View(): Core.Core
      reads this
    {
      Core.Core(permits, queue, writer, failed, aborted, drainPending, waiters, slots, nextId, reading,
                drained, enqueued, head, acks, written, wire)
    }

    ghost predicate Valid()
      reads this
    {
      CoreInv(View())
    }

    constructor ()
      ensures Valid() && View() == Core.INITIAL
    {
      permits, queue, failed, aborted, drainPending := 1, [], false, false, false;
      waiters, slots, nextId, reading, acks := {}, map[], 1, true, [];
      writer, drained, enqueued, head, written, wire := Core.Idle, false, [], 0, 0, [];
      new;
      InitialKeeps();
    }

    // ---- requests and replies -----------------------------------------------

    /** `request`: take an id and register its waiter, before anything is sent. */
    method RegisterRequest() returns (id: Core.Id)
      requires Valid()
      modifies this
      ensures Valid() && id == Core.Id(old(nextId)) && id !in old(slots)
      ensures View() == Core.RegisterWaiter(old(View()).(nextId := id.n + 1), id)
    {
      hide CoreInv;
      FreshId(View());
      IssueKeeps(View());
      RegisterKeeps(View().(nextId := nextId + 1), Core.Id(nextId));
      id := Core.Id(nextId);
      nextId := nextId + 1;
      waiters, slots := waiters + {id}, slots[id := Core.Waiting];
    }

    method RemoveWaiter(id: Core.Id)
      requires Valid()
      modifies this
      ensures Valid() && View() == Core.RemoveWaiter(old(View()), id)
    {
      hide CoreInv;
      RemoveKeeps(View(), id);
      if id in waiters {
        waiters, slots := waiters - {id}, slots[id := Core.Withdrawn];
      }
    }

    /** The reader task's dispatch of one frame with an id. */
    method DispatchReply(id: Core.Id, reply: Core.Reply)
      requires Valid()
      modifies this
      ensures Valid() && View() == Core.Dispatch(old(View()), id, reply)
    {
      hide CoreInv;
      DispatchKeeps(View(), id, reply);
      if id in waiters {
        waiters, slots := waiters - {id}, slots[id := Core.Replied(reply)];
      }
    }

    // ---- failure ------------------------------------------------------------

    /** `fail_waiters`. */
    method FailWaiters()
      requires Valid() && failed
      modifies this
      ensures Valid() && View() == Core.FailWaiters(old(View()))
    {
      hide CoreInv;
      DrainKeeps(View());
      FreshId(View());
      var resolved := ResolveDied(waiters, slots);
      WakeAllIs(View(), resolved);
      waiters, slots, drained := {}, resolved, true;
    }

    /** The reader task's way out: every waiter gets the error, and no reply will come any more. */
    method ReaderExit()
      requires Valid()
      modifies this
      ensures Valid() && View() == Core.ReaderDies(old(View()))
      ensures waiters == {} && !reading && slots.Keys == old(slots).Keys
      ensures forall id :: id in old(slots) ==> slots[id] == if id in old(waiters) then Core.Died else old(slots)[id]
    {
      hide CoreInv;
      ReaderDiesKeeps(View());
      FreshId(View());
      var resolved := ResolveDied(waiters, slots);
      WakeAllIs(View(), resolved);
      waiters, slots, reading := {}, resolved, false;
    }

    method FailWriter()
      requires Valid()
      modifies this
      ensures Valid() && View() == Core.FailWriter(old(View()))
    {
      hide CoreInv;
      FailWriterKeeps(View());
      if !failed {
        failed, aborted, drainPending := true, true, true;
      }
    }

    // ---- sending ------------------------------------------------------------

    /** The channel's `try_send`: an item with a fresh acknowledgment, or a refusal. */
    method TrySend(item: Core.Item) returns (done: Option<nat>)
      requires Valid()
      modifies this
      ensures Valid()
      ensures if Core.CanSend(old(View()))
              then done == Some(|old(acks)|) && View() == Core.Enqueue(old(View()), item)
              else done == None && View() == old(View())
    {
      hide CoreInv;
      if writer == Core.Dead || |queue| >= Core.CAPACITY {
        return None;
      }
      EnqueueKeeps(View(), item);
      done := Some(|acks|);
      queue, acks, enqueued := queue + [item], acks + [Core.Pending], enqueued + [item];
    }

    /** `close_documents`: refused after a failure; otherwise the batch is queued, and a refusal
        of the channel is itself a failure. */
    method CloseDocuments(closes: seq<Core.Body>) returns (done: Option<nat>)
      requires Valid()
      modifies this
      ensures Valid()
      ensures done.Some? <==> !old(failed) && Core.CanSend(old(View()))
      ensures done.Some? ==> done == Some(|old(acks)|)
                             && View() == Core.Enqueue(old(View()), Core.CloseDocuments(closes))
      ensures done.None? ==> failed && View() == Core.FailWriter(old(View()))
    {
      if failed {
        return None;
      }
      done := TrySend(Core.CloseDocuments(closes));
      if done.None? {
        FailWriter();
      }
    }

    /** The write slot's `acquire`, with a permit free. */
    method AcquirePermit()
      requires Valid() && permits > 0
      modifies this`permits
      ensures Valid() && permits == old(permits) - 1
    {
      hide CoreInv;
      PermitsFree(View());
      permits := permits - 1;
    }

    /** `send_message` from the permit on: the permit moves into the item, or comes back. */
    method SendWithPermit(body: Core.Body) returns (done: Option<nat>)
      requires Valid()
      modifies this
      ensures Valid()
      ensures done.Some? <==> !old(failed) && Core.CanSend(old(View()))
      ensures done.Some? ==> done == Some(|old(acks)|)
                             && View() == Core.Enqueue(old(View()), Core.Message(body))
      ensures done.None? ==>
                failed && View() == Core.FailWriter(old(View()).(permits := old(permits) + 1))
    {
      hide CoreInv;
      PermitsFree(View());
      if failed {
        permits := permits + 1;
        return None;
      }
      done := TrySend(Core.Message(body));
      if done.None? {
        PermitsFree(View());
        permits := permits + 1;
        FailWriter();
      }
    }

    // ---- the writer task ----------------------------------------------------

    /** The step the writer task takes next, as history: `run` grows by it. */
    ghost predicate Took(start: Core.Core, run: seq<Core.WriterStep>)
      reads this
    {
      Leads(start, run, View()) && CoreInv(View())
    }

    /** Dropping the receiver: every queued item is dropped, its permit returned and its
        acknowledgment closed. */
    method Leave()
      requires Valid() && Core.AtStage(View(), Core.Leaving)
      modifies this
      ensures Valid() && View() == Core.Terminate(old(View()))
    {
      hide CoreInv, Core.CloseFrom, Core.Normals;
      ghost var c := View();
      LeavingKeeps(c);
      var first := |acks| - |queue| - 1;
      var returned := PermitsWithin(queue, writer);
      NormalsAre(c);
      permits, queue, acks := permits + returned, [], Core.CloseFrom(acks, first);
      writer := Core.Dead;
    }

    /** `outgoing.recv()` with an item waiting. */
    method Recv()
      requires Valid() && writer == Core.Idle && queue != []
      modifies this
      ensures Valid() && View() == Core.WriterApply(old(View()), Core.Recv)
      ensures writer == Core.Holding(old(queue)[0], Core.Received)
      ensures queue == old(queue)[1..] && failed == old(failed) && wire == old(wire)
    {
      hide CoreInv;
      WriterKeeps(View(), Core.Recv);
      writer, queue, head := Core.Holding(queue[0], Core.Received), queue[1..], head + 1;
    }

    /** The look at `failed` before writing. */
    method CheckFailed()
      requires Valid() && Core.AtStage(View(), Core.Received)
      modifies this
      ensures Valid() && View() == Core.WriterApply(old(View()), Core.CheckFailed)
      ensures writer == old(writer).(stage := if failed then Core.Leaving else Core.Writing(0))
      ensures queue == old(queue) && failed == old(failed) && wire == old(wire)
    {
      hide CoreInv;
      WriterKeeps(View(), Core.CheckFailed);
      writer := writer.(stage := if failed then Core.Leaving else Core.Writing(0));
    }

    /** One `write_frame`: on the wire goes the frame of body `i`, or the part the pipe took. */
    method WriteBody(stdin: Codec.ChildStdin, i: nat) returns (ok: bool, n: nat)
      requires Valid() && writer.Holding? && i < |writer.item.Bodies()|
      requires writer.stage == Core.Writing(Offset(writer.item, i)) && stdin.written == wire
      modifies this, stdin
      ensures Valid() && stdin.written == wire
      ensures if n == 0 then View() == old(View())
              else Core.WriterEnabled(old(View()), Core.Write(n))
                   && View() == Core.WriterApply(old(View()), Core.Write(n))
      ensures writer.Holding? && writer.item == old(writer.item) && writer.stage.Writing?
      ensures queue == old(queue) && failed == old(failed)
      ensures ok ==> writer.stage.count == Offset(writer.item, i + 1)
    {
      hide CoreInv, Codec.Frame, Core.ItemBytes, Offset;
      FrameAt(writer.item, i);
      var before := |stdin.written|;
      ok := stdin.WriteFrame(writer.item.Bodies()[i].bytes);
      n := |stdin.written| - before;
      if n > 0 {
        WriterKeeps(View(), Core.Write(n));
        assert Core.ItemBytes(writer.item)[Offset(writer.item, i)..Offset(writer.item, i) + n]
            == Core.ItemBytes(writer.item)[Offset(writer.item, i)..Offset(writer.item, i + 1)][..n];
        wire := stdin.written;
        writer := writer.(stage := Core.Writing(writer.stage.count + n));
      }
    }

    /** `write_frame` for each body in turn, stopping at the first that fails. */
    method WriteItem(stdin: Codec.ChildStdin, ghost start: Core.Core, ghost run: seq<Core.WriterStep>)
      returns (ok: bool, ghost after: seq<Core.WriterStep>)
      requires Took(start, run) && writer.Holding? && writer.stage == Core.Writing(0)
      requires stdin.written == wire
      modifies this, stdin
      ensures Took(start, after) && stdin.written == wire
      ensures queue == old(queue) && failed == old(failed)
      ensures writer.Holding? && writer.item == old(writer.item) && writer.stage.Writing?
      ensures ok ==> writer.stage.count == |Core.ItemBytes(writer.item)|
    {
      hide CoreInv, Core.ItemBytes, Offset, Core.WriterApply, Core.WriterEnabled, Leads;
      OffsetEnds(writer.item);
      ok, after := true, run;
      var i := 0;
      while i < |writer.item.Bodies()| && ok
        invariant writer.Holding? && writer.item == old(writer.item) && writer.stage.Writing?
        invariant i <= |writer.item.Bodies()| && Took(start, after) && stdin.written == wire
        invariant queue == old(queue) && failed == old(failed)
        invariant ok ==> writer.stage.count == Offset(writer.item, i)
      {
        ghost var c := View();
        var n;
        ok, n := WriteBody(stdin, i);
        if n > 0 {
          LeadsOn(start, after, c, Core.Write(n));
          after := after + [Core.Write(n)];
        }
        i := i + 1;
      }
    }

    /** `writer_failed.store(true)`. */
    method StoreFailure()
      requires Valid() && Core.IsWriting(View())
      modifies this
      ensures Valid() && View() == Core.WriterApply(old(View()), Core.Fail)
      ensures failed && Core.AtStage(View(), Core.Erring) && wire == old(wire)
    {
      hide CoreInv;
      WriterKeeps(View(), Core.Fail);
      failed, writer := true, writer.(stage := Core.Erring);
    }

    method WakeWaiters()
      requires Valid() && failed && Core.AtStage(View(), Core.Erring)
      modifies this
      ensures Valid() && View() == Core.WriterApply(old(View()), Core.WakeWaiters)
      ensures failed && Core.AtStage(View(), Core.Drained) && wire == old(wire)
    {
      hide CoreInv, Core.WakeAll;
      WriterKeeps(View(), Core.WakeWaiters);
      FailWaiters();
      writer := writer.(stage := Core.Drained);
    }

    /** `ack.send(result)`. */
    method AckError()
      requires Valid() && Core.AtStage(View(), Core.Drained)
      modifies this
      ensures Valid() && View() == Core.WriterApply(old(View()), Core.AckError)
      ensures Core.AtStage(View(), Core.Leaving) && failed == old(failed) && wire == old(wire)
    {
      hide CoreInv;
      WriterKeeps(View(), Core.AckError);
      HandIndex(View());
      acks, writer := acks[|acks| - |queue| - 1 := Core.AckErr], writer.(stage := Core.Leaving);
    }

    method AckOk()
      requires Valid() && Core.WriterEnabled(View(), Core.Finish)
      modifies this
      ensures Valid() && View() == Core.WriterApply(old(View()), Core.Finish)
      ensures Core.AtStage(View(), Core.Releasing)
      ensures failed == old(failed) && wire == old(wire) && queue == old(queue)
    {
      hide CoreInv, Core.ItemBytes;
      WriterKeeps(View(), Core.Finish);
      HandIndex(View());
      acks, writer := acks[|acks| - |queue| - 1 := Core.AckOk], writer.(stage := Core.Releasing);
      written := written + 1;
    }

    /** The finished item, and with it a message's permit, is dropped. */
    method Release()
      requires Valid() && Core.AtStage(View(), Core.Releasing)
      modifies this
      ensures Valid() && View() == Core.WriterApply(old(View()), Core.Release)
      ensures writer == Core.Idle && failed == old(failed) && wire == old(wire) && queue == old(queue)
    {
      hide CoreInv;
      WriterKeeps(View(), Core.Release);
      permits := permits + if writer.item.Message? then 1 else 0;
      writer := Core.Idle;
    }

    /** After a failed write: store `failed`, wake the waiters, answer the sender, leave the loop. */
    method FailItem(ghost start: Core.Core, ghost run: seq<Core.WriterStep>)
      returns (ghost after: seq<Core.WriterStep>)
      requires Took(start, run) && Core.IsWriting(View())
      modifies this
      ensures Took(start, after) && failed && writer == Core.Dead && wire == old(wire)
    {
      hide CoreInv, Leads, Core.WriterApply;
      ghost var c := View();
      StoreFailure();
      LeadsOn(start, run, c, Core.Fail);
      c, after := View(), run + [Core.Fail];
      WakeWaiters();
      LeadsOn(start, after, c, Core.WakeWaiters);
      c, after := View(), after + [Core.WakeWaiters];
      AckError();
      LeadsOn(start, after, c, Core.AckError);
      after := LeaveLoop(start, after + [Core.AckError]);
    }

    method LeaveLoop(ghost start: Core.Core, ghost run: seq<Core.WriterStep>)
      returns (ghost after: seq<Core.WriterStep>)
      requires Took(start, run) && Core.AtStage(View(), Core.Leaving)
      modifies this
      ensures Took(start, after) && writer == Core.Dead && wire == old(wire) && failed == old(failed)
    {
      hide CoreInv, Leads, Core.NormalCount;
      ghost var c := View();
      Leave();
      LeadsOn(start, run, c, Core.Leave);
      after := run + [Core.Leave];
    }

    /** An item written completely: answer the sender, drop the item. */
    method FinishItem(ghost start: Core.Core, ghost run: seq<Core.WriterStep>)
      returns (ghost after: seq<Core.WriterStep>)
      requires Took(start, run) && Core.WriterEnabled(View(), Core.Finish)
      modifies this
      ensures Took(start, after) && writer == Core.Idle
      ensures wire == old(wire) && failed == old(failed) && queue == old(queue)
    {
      hide CoreInv, Leads, Core.WriterApply;
      ghost var c := View();
      AckOk();
      LeadsOn(start, run, c, Core.Finish);
      c, after := View(), run + [Core.Finish];
      Release();
      LeadsOn(start, after, c, Core.Release);
      after := after + [Core.Release];
    }

    /** The writer task over what is queued, with nobody interfering. It takes exactly steps of
        the writer's step system, so every result about runs speaks about this loop; it stops with
        the queue written out, or failed and gone. */
    method WriterTask(stdin: Codec.ChildStdin) returns (ghost run: seq<Core.WriterStep>)
      requires Valid() && writer == Core.Idle && stdin.written == wire
      modifies this, stdin
      ensures Valid() && Leads(old(View()), run, View()) && stdin.written == wire
      ensures if writer == Core.Idle then queue == [] && failed == old(failed) else writer == Core.Dead && failed
      ensures forall k :: 0 <= k < |acks| ==> acks[k] != Core.Pending
      ensures !failed ==> forall k :: 0 <= k < |acks| ==> acks[k] == Core.AckOk
    {
      hide CoreInv, Leads, Core.WriterApply, Core.ItemBytes;
      ghost var start := View();
      run := [];
      LeadsNowhere(start);
      while queue != []
        invariant Took(start, run) && writer == Core.Idle && stdin.written == wire
        invariant failed == old(failed)
        decreases |queue|
      {
        ghost var c := View();
        Recv();
        LeadsOn(start, run, c, Core.Recv);
        c, run := View(), run + [Core.Recv];
        CheckFailed();
        LeadsOn(start, run, c, Core.CheckFailed);
        run := run + [Core.CheckFailed];
        if writer.stage == Core.Leaving {
          run := LeaveLoop(start, run);
          Progress.RestAnswersAll(View());
          return;
        }
        var ok;
        ok, run := WriteItem(stdin, start, run);
        if !ok {
          run := FailItem(start, run);
          Progress.RestAnswersAll(View());
          return;
        }
        run := FinishItem(start, run);
      }
      Progress.RestAnswersAll(View());
    }
  }
}
