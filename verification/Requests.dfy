/** `request` of src/client.rs as one caller lives it, alone with the writer task and a reader that
    has its reply or, by the timeout, has none. */
module Requests {
  import Core = ClientCore
  import Codec
  import opened Wrappers
  import opened Utf8
  import opened CoreInvariant
  import Permit
  import Theorems = ClientTheorems
  import opened WriterRuns
  import opened JsonRpc

  datatype Answer = Replied(reply: Core.Reply) | SendFailed | ServerDied | TimedOut

  // ---- what the writer's steps leave alone ----------------------------------

  /** Queue history and ids are as before, no permit was lost, and the waiters are as before unless
      the client failed and woke them. */
  ghost predicate Spares(c: Core.Core, d: Core.Core)
  {
    && d.permits + Core.Normals(d) == c.permits + Core.Normals(c)
    && SparesWaiters(c, d)
  }

  ghost predicate SparesWaiters(c: Core.Core, d: Core.Core)
  {
    && d.enqueued == c.enqueued && d.nextId == c.nextId
    && ((d.waiters == c.waiters && d.slots == c.slots) || (d.failed && d.waiters == {} && d.slots == Core.WakeAll(c)))
  }

  lemma WakeTwice(c: Core.Core, d: Core.Core)
    requires d.waiters == {} && d.slots == Core.WakeAll(c)
    ensures Core.WakeAll(d) == Core.WakeAll(c)
  {
  }

  lemma StepSparesWaiters(c: Core.Core, d: Core.Core, w: Core.WriterStep)
    requires Flagged(d) && SparesWaiters(c, d) && Core.WriterEnabled(d, w)
    ensures SparesWaiters(c, Core.WriterApply(d, w))
  {
    hide Core.ItemBytes, Core.Normals, Core.NormalCount, Core.CloseFrom;
    if d.waiters == {} && d.slots == Core.WakeAll(c) { WakeTwice(c, d); }
    hide Core.WakeAll;
    match w {
      case Recv =>
      case CheckFailed =>
      case Write(n) =>
      case Finish =>
      case Fail =>
      case WakeWaiters =>
      case AckError =>
      case Release =>
      case Leave =>
      case Abort =>
    }
  }

  lemma FlagsOf(c: Core.Core)
    requires CoreInv(c)
    ensures Flagged(c)
  {
    hide Queued, Acknowledged, Wired, Registered;
  }

  lemma StepSpares(c: Core.Core, d: Core.Core, w: Core.WriterStep)
    requires CoreInv(d) && Spares(c, d) && Core.WriterEnabled(d, w)
    ensures Spares(c, Core.WriterApply(d, w))
  {
    hide CoreInv, Flagged, SparesWaiters, Core.WriterApply, Core.WriterEnabled, Core.Normals;
    FlagsOf(d);
    Permit.WriterBalances(d, w);
    StepSparesWaiters(c, d, w);
  }

  lemma {:induction false} RunSpares(c: Core.Core, run: seq<Core.WriterStep>)
    requires CoreInv(c) && Runs(c, run)
    ensures CoreInv(After(c, run)) && Spares(c, After(c, run))
    decreases |run|
  {
    hide CoreInv, Core.WriterApply, Core.WriterEnabled, Core.Normals, Core.WakeAll;
    if run != [] {
      var n := |run| - 1;
      RunSpares(c, run[..n]);
      WriterKeeps(After(c, run[..n]), run[n]);
      StepSpares(c, After(c, run[..n]), run[n]);
    }
  }

  /** At rest with nothing failed, everything queued is on the wire. */
  lemma RestIsWritten(c: Core.Core)
    requires CoreInv(c) && c.writer == Core.Idle && c.queue == []
    ensures c.wire == Core.AllBytes(c.enqueued)
  {
    assert c.enqueued[..c.written] == c.enqueued;
    hide Acknowledged, Registered, Flagged, Core.AllBytes;
  }

  // ---- the request ----------------------------------------------------------

  /** Item `k` is this body's message, acknowledged Ok. */
  predicate IsAcked(c: Core.Core, k: nat, body: Core.Body)
  {
    k < |c.enqueued| && k < |c.acks| && c.enqueued[k] == Core.Message(body) && c.acks[k] == Core.AckOk
  }

  lemma AckedIsWritten(c: Core.Core, k: nat)
    requires CoreInv(c) && k < |c.acks| && c.acks[k] == Core.AckOk
    ensures k < |c.enqueued| && Core.AllBytes(c.enqueued[..k + 1]) <= c.wire
  {
    hide Core.AllBytes, Core.ItemBytes;
    Theorems.AckOkMeansWritten(c, k);
    Theorems.WireShape(c);
    Theorems.AllBytesMonotone(c.enqueued, k + 1, c.written);
  }

  /** `send_message` with the permit at hand, and the writer's run that answers it. */
  method SendAndWait(client: JsonRpcClient, stdin: Codec.ChildStdin, body: Core.Body) returns (ok: bool)
    requires client.Valid() && client.permits > 0 && !client.writer.Holding? && stdin.written == client.wire
    modifies client, stdin
    ensures client.Valid() && stdin.written == client.wire
    ensures client.nextId == old(client.nextId)
    ensures client.permits + Core.Normals(client.View()) == old(client.permits + Core.Normals(client.View()))
    ensures client.permits >= old(client.permits) && !client.writer.Holding?
    ensures !client.failed ==>
      && ok && client.enqueued == old(client.enqueued) + [Core.Message(body)]
      && client.wire == Core.AllBytes(client.enqueued)
      && client.waiters == old(client.waiters) && client.slots == old(client.slots)
    ensures old(client.failed) ==>
      !ok && client.failed && client.wire == old(client.wire) && client.enqueued == old(client.enqueued)
    ensures forall id :: id in old(client.slots) ==>
      id in client.slots && (client.slots[id] == old(client.slots)[id] || client.slots[id] == Core.Died)
    // It tells what became of the frame, if the client fails meanwhile too.
    ensures ok <==> IsAcked(client.View(), old(|client.acks|), body)
    ensures ok ==> Core.AllBytes(client.enqueued[..old(|client.acks|) + 1]) <= client.wire
    ensures !ok ==> client.failed
  {
    hide CoreInv, Core.NormalCount, Core.AllBytes, Core.WakeAll, Leads, Codec.Frame;
    AcksOf(client.View());
    client.AcquirePermit();
    Permit.NormalCountSnoc(client.queue, Core.Message(body));
    var done := client.SendWithPermit(body);
    if done.None? {
      return false;
    }
    ghost var sent := client.View();
    ghost var run := client.WriterTask(stdin);
    WriterSpares(sent, run, client.View());
    RestHoldsNoPermit(client.View());
    ok := client.acks[done.value] == Core.AckOk;
    if ok { AckedIsWritten(client.View(), done.value); }
  }

  /** `text` is the request's JSON under its id; `arrival` is what the reader is given for that id
      before the timeout. The caller gets the reply to its own id, or learns why not; its frame is
      on the wire behind everything queued before it; and whatever happened, its waiter is gone and
      the permit is back. */
  method Request(client: JsonRpcClient, stdin: Codec.ChildStdin, text: Core.Id -> seq<byte>, arrival: Option<Core.Reply>)
    returns (r: Answer)
    requires client.Valid() && client.permits > 0 && !client.writer.Holding? && stdin.written == client.wire
    modifies client, stdin
    ensures client.Valid() && stdin.written == client.wire
    ensures client.nextId == old(client.nextId) + 1
    ensures Core.Id(old(client.nextId)) !in client.waiters
    ensures client.permits + Core.Normals(client.View()) == old(client.permits + Core.Normals(client.View()))
    ensures client.permits >= old(client.permits) && !client.writer.Holding?
    ensures !client.failed ==>
      r == (match arrival case None => TimedOut case Some(reply) => Replied(reply))
    ensures !client.failed ==>
      var id := Core.Id(old(client.nextId));
      && client.enqueued == old(client.enqueued) + [Core.Message(Core.Body(Core.Request(id), text(id)))]
      && client.wire == Core.AllBytes(client.enqueued)
    ensures r.Replied? ==> arrival == Some(r.reply)
    ensures old(client.failed) ==>
      r == SendFailed && client.wire == old(client.wire) && client.enqueued == old(client.enqueued)
  {
    hide CoreInv, Core.NormalCount, Core.AllBytes;
    var id := client.RegisterRequest();
    var ok := SendAndWait(client, stdin, Core.Body(Core.Request(id), text(id)));
    if !ok {
      client.RemoveWaiter(id);
      return SendFailed;
    }
    if arrival.Some? {
      client.DispatchReply(id, arrival.value);
    }
    match client.slots[id] {
      case Replied(reply) => r := Replied(reply);
      case Died => r := ServerDied;
      case Waiting =>
        client.RemoveWaiter(id);
        r := TimedOut;
      case Withdrawn =>
        assert false;
    }
    WaiterWaits(client.View());
  }

  lemma WaiterWaits(c: Core.Core)
    requires CoreInv(c)
    ensures forall id :: id in c.waiters ==> id in c.slots && c.slots[id] == Core.Waiting
  {
    hide Queued, Acknowledged, Wired, Flagged;
  }

  /** A writer at rest, or gone, leaves no permit behind in the channel. */
  lemma RestHoldsNoPermit(c: Core.Core)
    requires CoreInv(c) && !c.writer.Holding? && (c.writer == Core.Idle ==> c.queue == [])
    ensures Core.Normals(c) == 0
  {
    hide Acknowledged, Wired, Registered, Flagged;
  }

  lemma AcksOf(c: Core.Core)
    requires CoreInv(c)
    ensures |c.acks| == |c.enqueued|
  {
    hide Acknowledged, Wired, Registered, Flagged;
  }

  lemma WriterSpares(c: Core.Core, run: seq<Core.WriterStep>, d: Core.Core)
    requires Leads(c, run, d)
    ensures Spares(c, d) && |d.acks| == |c.acks|
    ensures forall id :: id in c.slots ==> id in d.slots && (d.slots[id] == c.slots[id] || d.slots[id] == Core.Died)
    ensures d.writer == Core.Idle && d.queue == [] ==> d.wire == Core.AllBytes(d.enqueued)
  {
    hide CoreInv, Core.AllBytes;
    RunSpares(c, run);
    AcksOf(c);
    AcksOf(d);
    if d.writer == Core.Idle && d.queue == [] { RestIsWritten(d); }
  }
}
