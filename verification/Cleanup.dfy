/** `ScopedDocuments::close_all` and its `Drop` (src/enrichment.rs), on the client object. What they
    queue is what the step system's scope queues. */
module Cleanup {
  import Core = ClientCore
  import opened Utf8
  import opened Client
  import opened Enrichment
  import opened JsonRpc

  /** The JSON text of a didClose. */
  ghost predicate Writable(text: Core.Uri -> seq<byte>) { forall uri :: Sendable(text(uri)) }

  datatype Closing = NothingOpen | Queued(ack: nat) | Refused

  /** `open.drain().collect()`: each document once, in whatever order the set yields them. */
  method Drain(docs: ScopedDocuments, text: Core.Uri -> seq<byte>) returns (batch: seq<Core.Body>)
    requires Writable(text)
    modifies docs`open
    ensures docs.open == {}
    ensures Drains(batch, old(docs.open))
  {
    hide Drains;
    var open := docs.open;
    batch := [];
    DrainsNothing();
    docs.open := {};
    var rest, done := open, {};
    while true
      invariant done == open - rest && rest <= open && docs.open == {}
      invariant Drains(batch, done)
      decreases |rest|
    {
      if uri :| uri in rest {
        DrainsMore(batch, done, Core.Body(Core.DidClose(uri), text(uri)));
        batch := batch + [Core.Body(Core.DidClose(uri), text(uri))];
        rest, done := rest - {uri}, done + {uri};
      } else {
        break;
      }
    }
    assert done == open;
  }

  lemma DrainsNothing()
    ensures Drains([], {})
  {
  }

  lemma DrainsMore(batch: seq<Core.Body>, done: set<Core.Uri>, close: Core.Body)
    requires Drains(batch, done) && close.tag.DidClose? && Sendable(close.bytes) && close.tag.uri !in done
    ensures Drains(batch + [close], done + {close.tag.uri})
  {
    var more := batch + [close];
    forall i | 0 <= i < |batch| ensures batch[i].tag != close.tag
    {
      assert batch[i] in batch && batch[i].tag.uri in Uris(batch);
    }
    assert forall b :: b in more <==> b in batch || b == close;
    assert Uris(more) == Uris(batch) + {close.tag.uri};
  }

  /** Shared by `close_all` and `Drop`, which ignores the answer: nothing to do without documents;
      otherwise one batch closing each of them exactly once, or a refusal. Either way the scope's
      hands are empty. */
  method CloseAll(docs: ScopedDocuments, client: JsonRpcClient, text: Core.Uri -> seq<byte>) returns (r: Closing)
    requires client.Valid() && Writable(text)
    modifies docs, client
    ensures client.Valid() && docs.open == {}
    ensures r.NothingOpen? <==> old(docs.open) == {}
    ensures r.NothingOpen? ==> client.View() == old(client.View())
    ensures r.Queued? ==> !old(client.failed) && Core.CanSend(old(client.View())) && r.ack == |old(client.acks)|
    ensures r.Queued? ==> exists batch ::
      Drains(batch, old(docs.open)) && client.View() == Core.Enqueue(old(client.View()), Core.CloseDocuments(batch))
    ensures r.Refused? ==> old(client.failed) || !Core.CanSend(old(client.View()))
    ensures r.Refused? ==> client.failed && client.View() == Core.FailWriter(old(client.View()))
  {
    hide Drains;
    if docs.open == {} {
      return NothingOpen;
    }
    var batch := Drain(docs, text);
    var done := client.CloseDocuments(batch);
    r := if done.Some? then Queued(done.value) else Refused;
  }

  /** What `CloseAll` does to the client is what the step system's scope does in its two steps,
      taken without interruption. */
  lemma ScopeDoesTheSame(s: State, batch: seq<Core.Body>)
    requires s.scope.InScope? && s.scope.pc == Working && s.scope.open != {} && Drains(batch, s.scope.open)
    ensures Enabled(s, OfScope(Client.CloseAll(batch)))
    ensures var t := Apply(s, OfScope(Client.CloseAll(batch)));
      Enabled(t, OfScope(CheckClose)) && var u := Apply(t, OfScope(CheckClose));
      && u.scope.InScope? && u.scope.open == {}
      && (s.core.failed ==> u.core == Core.FailWriter(s.core))
      && (!s.core.failed ==> Enabled(u, OfScope(SendClose)) && var v := Apply(u, OfScope(SendClose));
            if Core.CanSend(s.core) then v.core == Core.Enqueue(s.core, Core.CloseDocuments(batch))
            else Enabled(v, OfScope(GiveUpClose)) && Apply(v, OfScope(GiveUpClose)).core == Core.FailWriter(s.core))
  {
    hide Drains;
  }

  /** A scope without documents has nothing to say to the client, on either way out. */
  lemma EmptyScopeIsSilent(s: State, batch: seq<Core.Body>)
    requires s.scope.InScope? && s.scope.pc == Working && s.scope.open == {} && Drains(batch, {})
    ensures Enabled(s, OfScope(Client.CloseAll(batch))) && Apply(s, OfScope(Client.CloseAll(batch))) == s
    ensures Enabled(s, OfScope(Client.Drop(batch)))
    ensures Apply(s, OfScope(Client.Drop(batch))) == s.(scope := NoScope)
  {
    hide Drains;
  }
}
