/** The reader task's loop over what the server sends, on the client object. `parse` is what JSON makes
    of a body: nothing, or a frame that may carry an integer id. */
module ReaderTask {
  import opened Wrappers
  import opened Utf8
  import Codec
  import Core = ClientCore
  import opened CoreInvariant
  import opened JsonRpc

  datatype Incoming = Incoming(id: Option<Core.Id>, reply: Core.Reply)

  function Receive(c: Core.Core, m: Incoming): Core.Core
  {
    if m.id.Some? then Core.Dispatch(c, m.id.value, m.reply) else c
  }

  /** The client after these bodies, up to the first that is no JSON. */
  function Dispatched(c: Core.Core, bodies: seq<seq<byte>>, parse: seq<byte> -> Option<Incoming>): Core.Core
    decreases |bodies|
  {
    if bodies == [] || parse(bodies[0]).None? then c
    else Dispatched(Receive(c, parse(bodies[0]).value), bodies[1..], parse)
  }

  /** What the stream answers to an id: the first reply that carries it, before anything unreadable. */
  function FirstReply(bodies: seq<seq<byte>>, parse: seq<byte> -> Option<Incoming>, id: Core.Id): Option<Core.Reply>
    decreases |bodies|
  {
    if bodies == [] || parse(bodies[0]).None? then None
    else if parse(bodies[0]).value.id == Some(id) then Some(parse(bodies[0]).value.reply)
    else FirstReply(bodies[1..], parse, id)
  }

  /** What a waiting request gets from a stream, its end included. */
  function Answer(bodies: seq<seq<byte>>, parse: seq<byte> -> Option<Incoming>, id: Core.Id): Core.Slot
  {
    var first := FirstReply(bodies, parse, id);
    if first.Some? then Core.Replied(first.value) else Core.Died
  }

  lemma {:induction false} DispatchedSlots(c: Core.Core, bodies: seq<seq<byte>>,
                                           parse: seq<byte> -> Option<Incoming>, id: Core.Id)
    requires id in c.slots && forall w :: w in c.waiters ==> w in c.slots
    ensures var d, first := Dispatched(c, bodies, parse), FirstReply(bodies, parse, id);
      && id in d.slots
      && (id in d.waiters <==> id in c.waiters && first.None?)
      && d.slots[id] == if id in c.waiters && first.Some? then Core.Replied(first.value) else c.slots[id]
    decreases |bodies|
  {
    if bodies != [] && parse(bodies[0]).Some? {
      DispatchedSlots(Receive(c, parse(bodies[0]).value), bodies[1..], parse, id);
    }
  }

  lemma WaitersHaveSlots(c: Core.Core)
    requires CoreInv(c)
    ensures forall id :: id in c.waiters ==> id in c.slots
  {
    hide Queued, Acknowledged, Wired, Flagged;
  }

  /** The loop: messages are dispatched until the stream ends, breaks the framing or is no JSON; then
      whoever still waits is told that the server died. Over the whole stream, a waiting request gets
      the first reply that carries its id, or that error. */
  method ReadReplies(client: JsonRpcClient, reader: Codec.BufReader, parse: seq<byte> -> Option<Incoming>)
    requires client.Valid()
    modifies client, reader
    ensures client.Valid() && client.waiters == {} && !client.reading
    ensures client.View() ==
      Core.ReaderDies(Dispatched(old(client.View()), Codec.ReadAll(old(reader.unread)).bodies, parse))
    ensures forall id :: id in old(client.waiters) ==>
      id in client.slots && client.slots[id] == Answer(Codec.ReadAll(old(reader.unread)).bodies, parse, id)
  {
    ghost var bodies := Codec.ReadAll(reader.unread).bodies;
    ghost var after := Dispatched(client.View(), bodies, parse);
    ghost var before := client.View();
    WaitersHaveSlots(client.View());
    while true
      invariant client.Valid()
      invariant Dispatched(client.View(), Codec.ReadAll(reader.unread).bodies, parse) == after
      decreases |reader.unread|
    {
      hide Codec.ReadOne, Core.Dispatch;
      ghost var unread := reader.unread;
      var r := reader.ReadOneMessage();
      if !r.Message? { break; }
      assert Codec.ReadAll(unread).bodies == [r.body] + Codec.ReadAll(reader.unread).bodies;
      assert Codec.ReadAll(unread).bodies[1..] == Codec.ReadAll(reader.unread).bodies;
      var m := parse(r.body);
      if m == None { break; }
      if m.value.id.Some? {
        client.DispatchReply(m.value.id.value, m.value.reply);
      }
    }
    assert client.View() == after;
    client.ReaderExit();
    forall id | id in before.waiters
      ensures id in client.slots
      ensures client.slots[id] == Answer(bodies, parse, id)
    {
      DispatchedSlots(before, bodies, parse, id);
    }
  }
}
