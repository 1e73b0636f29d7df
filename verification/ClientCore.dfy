/** The state that `JsonRpcClient` and its two background tasks share (src/client.rs), and the
    effect on it of each stretch of code that runs without an await.

    JSON text is not modelled: a body carries the bytes that go on the wire and a tag saying
    what those bytes are. The fields from `enqueued` on are history. */
module ClientCore {
  import opened Utf8
  import Codec

  type Uri = string

  /** The integer id of a request. */
  datatype Id = Id(n: int)

  datatype Tag = DidOpen(uri: Uri) | DidClose(uri: Uri) | Request(id: Id) | Plain

  datatype Body = Body(tag: Tag, bytes: seq<byte>)

  /** `Outbound`. A message holds the write permit until it is dropped. */
  datatype Item = Message(body: Body) | CloseDocuments(closes: seq<Body>) {
    function Bodies(): seq<Body> { if Message? then [body] else closes }
  }

  /** What a sender's oneshot acknowledgment has come to; `Closed` is a dropped sender. */
  datatype Ack = Pending | AckOk | AckErr | Closed

  datatype Reply = Result(value: seq<byte>) | RpcError(message: seq<byte>)

  /** What a request's oneshot reply has come to; `Withdrawn` is a waiter its owner removed. */
  datatype Slot = Waiting | Replied(reply: Reply) | Died | Withdrawn

  /** Where the writer task stands with the item it took:
      `Received` - before the `failed` check; `Writing(n)` - `n` bytes are on the wire;
      `Erring` - a write failed and `failed` is stored; `Drained` - waiters are woken;
      `Releasing` - the acknowledgment went out; `Leaving` - out of the loop. */
  datatype Stage = Received | Writing(count: nat) | Erring | Drained | Releasing | Leaving

  datatype Writer = Idle | Holding(item: Item, stage: Stage) | Dead

  const CAPACITY := 64

  datatype Core = Core(
    permits: nat,           // the write slot's semaphore
    queue: seq<Item>,       // the bounded channel
    writer: Writer,
    failed: bool,
    aborted: bool,          // `abort` was called on the writer
    drainPending: bool,     // `fail_writer` spawned a drain that has not run
    waiters: set<Id>,      // the waiter map's keys
    slots: map<Id, Slot>,  // one oneshot per registered request
    nextId: int,
    reading: bool,          // the reader task is alive
    drained: bool,          // some failure path woke the waiters
    enqueued: seq<Item>,    // everything the channel ever accepted
    head: nat,              // how many of these the writer took
    acks: seq<Ack>,
    written: nat,           // how many were written completely
    wire: seq<byte>         // every byte that reached the pipe
  )

  function NextId(c: Core): Id { Id(c.nextId) }

  const INITIAL := Core(1, [], Idle, false, false, false, {}, map[], 1, true,
                        false, [], 0, [], 0, [])

  // ---- bytes ----------------------------------------------------------------

  function BytesOf(bodies: seq<Body>): (b: seq<seq<byte>>)
    ensures |b| == |bodies| && forall i :: 0 <= i < |b| ==> b[i] == bodies[i].bytes
  {
    seq(|bodies|, i requires 0 <= i < |bodies| => bodies[i].bytes)
  }

  /** The frames of one item: one for a message, one per document for a cleanup batch. */
  function ItemBytes(item: Item): seq<byte> { Codec.Frames(BytesOf(item.Bodies())) }

  function AllBodies(items: seq<Item>): seq<Body>
  {
    if items == [] then []
    else AllBodies(items[..|items| - 1]) + items[|items| - 1].Bodies()
  }

  function AllBytes(items: seq<Item>): seq<byte>
  {
    if items == [] then []
    else AllBytes(items[..|items| - 1]) + ItemBytes(items[|items| - 1])
  }

  // ---- callers' side --------------------------------------------------------

  /** `try_send` succeeds while the receiver lives and a queue slot is free. */
  predicate CanSend(c: Core) { c.writer != Dead && |c.queue| < CAPACITY }

  function Enqueue(c: Core, item: Item): Core
  {
    c.(queue := c.queue + [item], enqueued := c.enqueued + [item], acks := c.acks + [Pending])
  }

  /** `fail_writer`: only the first failure aborts the writer and spawns a drain. */
  function FailWriter(c: Core): Core
  {
    if c.failed then c else c.(failed := true, aborted := true, drainPending := true)
  }

  function WakeAll(c: Core): map<Id, Slot>
  {
    map id | id in c.slots :: if id in c.waiters then Died else c.slots[id]
  }

  /** `fail_waiters`. */
  function FailWaiters(c: Core): Core
  {
    c.(waiters := {}, slots := WakeAll(c), drained := true)
  }

  function RegisterWaiter(c: Core, id: Id): Core
  {
    c.(waiters := c.waiters + {id}, slots := c.slots[id := Waiting])
  }

  /** The owner removes its own entry; whoever still held the receiver would see it dropped. */
  function RemoveWaiter(c: Core, id: Id): Core
  {
    if id in c.waiters then c.(waiters := c.waiters - {id}, slots := c.slots[id := Withdrawn]) else c
  }

  // ---- the reader task ------------------------------------------------------

  /** A frame with an integer id: resolve the waiter of that id, if it is still there. */
  function Dispatch(c: Core, id: Id, reply: Reply): Core
  {
    if id in c.waiters then c.(waiters := c.waiters - {id}, slots := c.slots[id := Replied(reply)]) else c
  }

  function ReaderDies(c: Core): Core
  {
    c.(waiters := {}, slots := WakeAll(c), reading := false)
  }

  // ---- the writer task ------------------------------------------------------

  function NormalCount(items: seq<Item>): (n: nat)
    ensures n <= |items|
  {
    if items == [] then 0
    else (if items[0].Message? then 1 else 0) + NormalCount(items[1..])
  }

  /** Permits inside the channel or in the writer's hand. */
  function Normals(c: Core): nat
  {
    NormalCount(c.queue) + if c.writer.Holding? && c.writer.item.Message? then 1 else 0
  }

  /** The acknowledgments that die with the receiver: the hand's, if unanswered, and the queue's. */
  function CloseFrom(acks: seq<Ack>, first: int): (r: seq<Ack>)
    ensures |r| == |acks|
    ensures forall k :: 0 <= k < |r| ==>
              r[k] == if k >= first && acks[k] == Pending then Closed else acks[k]
  {
    seq(|acks|, k requires 0 <= k < |acks| => if k >= first && acks[k] == Pending then Closed else acks[k])
  }

  /** The writer task is gone: its item and the receiver with every queued item are dropped,
      which returns their permits and closes their acknowledgments. */
  function Terminate(c: Core): Core
  {
    c.(writer := Dead,
       queue := [],
       permits := c.permits + Normals(c),
       acks := CloseFrom(c.acks, if c.writer.Holding? then c.head - 1 else c.head))
  }

  datatype WriterStep =
    | Recv                // take the oldest item; its queue slot is free again
    | CheckFailed
    | Write(count: nat)   // a partial write
    | Finish              // the last flush succeeded: acknowledge
    | Fail                // a write or flush failed: store `failed`
    | WakeWaiters
    | AckError
    | Release             // drop the finished item
    | Leave               // drop the item and the receiver
    | Abort               // the runtime drops the aborted task at an await

  /** The writer is in the loop with an item, at this stage. */
  predicate AtStage(c: Core, stage: Stage) { c.writer.Holding? && c.writer.stage == stage }

  predicate IsWriting(c: Core) { c.writer.Holding? && c.writer.stage.Writing? }

  predicate WriterEnabled(c: Core, w: WriterStep)
  {
    match w
    case Recv => c.writer == Idle && c.queue != []
    case CheckFailed => AtStage(c, Received)
    case Write(n) => IsWriting(c) && 0 < n <= |ItemBytes(c.writer.item)| - c.writer.stage.count
    case Finish => IsWriting(c) && c.writer.stage.count == |ItemBytes(c.writer.item)|
    case Fail => IsWriting(c)
    case WakeWaiters => AtStage(c, Erring)
    case AckError => AtStage(c, Drained)
    case Release => AtStage(c, Releasing)
    case Leave => AtStage(c, Leaving)
    case Abort => c.aborted && (c.writer == Idle || IsWriting(c) || AtStage(c, Erring))
  }

  function At(c: Core, stage: Stage): Core
    requires c.writer.Holding?
  {
    c.(writer := c.writer.(stage := stage))
  }

  function SetAck(c: Core, ack: Ack): Core
  {
    if 0 < c.head <= |c.acks| then c.(acks := c.acks[c.head - 1 := ack]) else c
  }

  function WriterApply(c: Core, w: WriterStep): Core
    requires WriterEnabled(c, w)
  {
    match w
    case Recv => c.(queue := c.queue[1..], head := c.head + 1, writer := Holding(c.queue[0], Received))
    case CheckFailed => At(c, if c.failed then Leaving else Writing(0))
    case Write(n) =>
      var i := c.writer.stage.count;
      At(c, Writing(i + n)).(wire := c.wire + ItemBytes(c.writer.item)[i..i + n])
    case Finish => At(SetAck(c, AckOk), Releasing).(written := c.written + 1)
    case Fail => At(c, Erring).(failed := true)
    case WakeWaiters => At(FailWaiters(c), Drained)
    case AckError => At(SetAck(c, AckErr), Leaving)
    case Release => c.(writer := Idle, permits := c.permits + if c.writer.item.Message? then 1 else 0)
    case Leave => Terminate(c)
    case Abort => Terminate(c)
  }
}
