/** Runs of the writer task's steps. */
module WriterRuns {
  import opened Utf8
  import Codec
  import opened ClientCore
  import opened CoreInvariant

  ghost predicate Runs(c: Core, run: seq<WriterStep>)
    decreases |run|, 0
  {
    run == [] ||
    (Runs(c, run[..|run| - 1]) && WriterEnabled(After(c, run[..|run| - 1]), run[|run| - 1]))
  }

  ghost function After(c: Core, run: seq<WriterStep>): Core
    requires Runs(c, run)
    decreases |run|, 1
  {
    if run == [] then c else WriterApply(After(c, run[..|run| - 1]), run[|run| - 1])
  }

  /** Changing nothing but the number of free permits. */
  lemma PermitsFree(c: Core)
    requires CoreInv(c)
    ensures forall p: nat :: CoreInv(c.(permits := p))
  {
    hide AllBytes, ItemBytes;
  }

  lemma FreshId(c: Core)
    requires CoreInv(c)
    ensures NextId(c) !in c.slots
    ensures forall id :: id in c.waiters ==> id in c.slots
  {
    hide Queued, Acknowledged, Wired, Flagged;
  }

  /** The acknowledgments that die with the receiver are those of the hand and the queue. */
  lemma LeavingKeeps(c: Core)
    requires CoreInv(c) && AtStage(c, Leaving)
    ensures CoreInv(Terminate(c))
    ensures |c.acks| - |c.queue| == c.head
  {
    hide Acknowledged, Wired, Registered;
    TerminateKeeps(c);
  }

  /** The acknowledgment of the item in hand is the last one before the queue's. */
  lemma HandIndex(c: Core)
    requires CoreInv(c) && c.writer.Holding?
    ensures |c.acks| - |c.queue| == c.head && 0 < c.head <= |c.acks|
  {
    hide Acknowledged, Wired, Registered, Flagged;
  }

  /** `c` is where `run` takes the writer from `start`. */
  ghost predicate Leads(start: Core, run: seq<WriterStep>, c: Core)
  {
    CoreInv(start) && Runs(start, run) && After(start, run) == c
  }

  lemma LeadsNowhere(c: Core)
    requires CoreInv(c)
    ensures Leads(c, [], c)
  {
  }

  lemma LeadsOn(start: Core, run: seq<WriterStep>, c: Core, w: WriterStep)
    requires Leads(start, run, c) && CoreInv(c) && WriterEnabled(c, w)
    ensures Leads(start, run + [w], WriterApply(c, w)) && CoreInv(WriterApply(c, w))
  {
    hide CoreInv, WriterApply, WriterEnabled;
    assert (run + [w])[..|run|] == run;
    WriterKeeps(c, w);
  }

  // ---- where each frame of an item lies -------------------------------------

  /** Bytes of the first `i` bodies of an item. */
  function Offset(item: Item, i: nat): nat
    requires i <= |item.Bodies()|
  {
    |Codec.Frames(BytesOf(item.Bodies())[..i])|
  }

  /** The frame of body `i` is the stretch of the item from its offset to the next. */
  lemma FrameAt(item: Item, i: nat)
    requires i < |item.Bodies()|
    ensures var f := Codec.Frame(item.Bodies()[i].bytes);
      && Offset(item, i + 1) == Offset(item, i) + |f| && |f| > 0
      && Offset(item, i + 1) <= |ItemBytes(item)|
      && ItemBytes(item)[Offset(item, i)..Offset(item, i + 1)] == f
  {
    hide Codec.Frame;
    var bs := BytesOf(item.Bodies());
    assert bs == bs[..i] + ([bs[i]] + bs[i + 1..]);
    assert bs[..i + 1] == bs[..i] + [bs[i]];
    Codec.FramesAppend(bs[..i], [bs[i]]);
    Codec.FramesAppend(bs[..i], [bs[i]] + bs[i + 1..]);
    Codec.FramesAppend([bs[i]], bs[i + 1..]);
    OneFrame(bs[i]);
  }

  lemma OneFrame(body: seq<byte>)
    ensures Codec.Frames([body]) == Codec.Frame(body)
  {
    hide Codec.Frame;
    assert [body][1..] == [];
    assert Codec.Frames([body]) == Codec.Frame(body) + Codec.Frames([]);
  }

  lemma OffsetEnds(item: Item)
    ensures Offset(item, 0) == 0 && Offset(item, |item.Bodies()|) == |ItemBytes(item)|
  {
    var bs := BytesOf(item.Bodies());
    assert bs[..0] == [] && bs[..|bs|] == bs;
  }
}
