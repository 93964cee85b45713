/**
 Client and server together: the RPCs of any number of concurrent requests cross
 a transport, in any interleaving, and link the server's spans to the client's events.
 */
module GrpcEndToEnd {
  import opened Text
  import opened GrpcContext
  import opened GrpcServerInterceptor
  import C = GrpcClientTracing
  import S = GrpcServerTracing
  import CR = GrpcClientRecords
  import SR = GrpcServerRecords

  datatype World = World(client: C.Client, server: S.Server)

  datatype Action = OnClient(c: C.Action) | OnServer(s: S.Action)

  /** What a server may see of an RPC: its trace metadata intact, or no context at all. */
  ghost predicate Transported(keys: seq<string>, rpc: C.Rpc, incoming: Option<Incoming>) {
    incoming.Some? ==>
      Delivers(if rpc.sent.Some? then rpc.sent.value else [], incoming.value.metadata, keys)
  }

  /** A server only receives RPCs that a client has started. */
  ghost predicate Enabled(keys: seq<string>, w: World, a: Action) {
    match a
    case OnClient(c) => C.Enabled(keys, w.client, c)
    case OnServer(s) =>
      && S.Enabled(w.server, s)
      && (s.Receive? ==> s.rpc < |w.client.rpcs| && Transported(keys, w.client.rpcs[s.rpc], s.incoming))
  }

  ghost predicate Inv(keys: seq<string>, w: World) {
    && C.Inv(keys, w.client) && C.InRange(w.client)
    && S.Inv(keys, w.server) && S.InRange(w.server)
    && forall r | r in w.server.calls ::
         r < |w.client.rpcs| && Transported(keys, w.client.rpcs[r], w.server.calls[r].incoming)
  }

  ghost function Step(keys: seq<string>, w: World, a: Action): (w': World)
    requires Inv(keys, w) && Enabled(keys, w, a)
    ensures Inv(keys, w')
  {
    match a
    case OnClient(c) =>
      C.StepKeepsInv(keys, w.client, c);
      C.InvInRange(keys, C.Step(keys, w.client, c));
      RpcsStay(keys, w.client, c);
      w.(client := C.Step(keys, w.client, c))
    case OnServer(s) =>
      S.StepKeepsInv(keys, w.server, s);
      S.InvInRange(keys, S.Step(keys, w.server, s));
      CallsStay(keys, w.server, s);
      w.(server := S.Step(keys, w.server, s))
  }

  lemma RpcsStay(keys: seq<string>, c: C.Client, a: C.Action)
    requires C.Inv(keys, c) && C.InRange(c) && C.Enabled(keys, c, a)
    ensures c.rpcs <= C.Step(keys, c, a).rpcs
  {
  }

  lemma CallsStay(keys: seq<string>, s: S.Server, a: S.Action)
    requires S.Inv(keys, s) && S.InRange(s) && S.Enabled(s, a)
    ensures var calls := S.Step(keys, s, a).calls;
            forall r | r in calls :: if r in s.calls then calls[r].incoming == s.calls[r].incoming
                                     else a.Receive? && r == a.rpc && calls[r].incoming == a.incoming
  {
  }

  /** The world after a sequence of actions; None if one of them was not enabled. */
  ghost function Run(keys: seq<string>, clients: nat, servers: nat, actions: seq<Action>): (r: Option<World>)
    ensures r.Some? ==> Inv(keys, r.value)
  {
    if actions == [] then
      C.InvInRange(keys, C.Initial(clients));
      S.InvInRange(keys, S.Idle(servers));
      Some(World(C.Initial(clients), S.Idle(servers)))
    else
      var before := Run(keys, clients, servers, actions[..|actions| - 1]);
      var a := actions[|actions| - 1];
      if before.None? || !Enabled(keys, before.value, a) then None
      else Some(Step(keys, before.value, a))
  }

  /** What the client's side of a run did. */
  function ClientActions(actions: seq<Action>): seq<C.Action> {
    if actions == [] then []
    else
      var last := actions[|actions| - 1];
      var before := ClientActions(actions[..|actions| - 1]);
      if last.OnClient? then before + [last.c] else before
  }

  function ServerActions(actions: seq<Action>): seq<S.Action> {
    if actions == [] then []
    else
      var last := actions[|actions| - 1];
      var before := ServerActions(actions[..|actions| - 1]);
      if last.OnServer? then before + [last.s] else before
  }

  lemma ClientRunAppend(keys: seq<string>, clients: nat, before: seq<C.Action>, c: C.Client, a: C.Action)
    requires C.Run(keys, clients, before) == Some(c) && C.Enabled(keys, c, a)
    ensures C.Inv(keys, c) && C.InRange(c)
    ensures C.Run(keys, clients, before + [a]) == Some(C.Step(keys, c, a))
  {
    assert (before + [a])[..|before|] == before;
  }

  lemma ServerRunAppend(keys: seq<string>, servers: nat, before: seq<S.Action>, s: S.Server, a: S.Action)
    requires S.Run(keys, servers, before) == Some(s) && S.Enabled(s, a)
    ensures S.Inv(keys, s) && S.InRange(s)
    ensures S.Run(keys, servers, before + [a]) == Some(S.Step(keys, s, a))
  {
    assert (before + [a])[..|before|] == before;
  }

  /** The last action of a run, and what each side did in it. */
  lemma LastAction(keys: seq<string>, clients: nat, servers: nat, actions: seq<Action>) returns (before: World, a: Action)
    requires actions != [] && Run(keys, clients, servers, actions).Some?
    ensures a == actions[|actions| - 1]
    ensures Run(keys, clients, servers, actions[..|actions| - 1]) == Some(before)
    ensures Inv(keys, before) && Enabled(keys, before, a)
    ensures Run(keys, clients, servers, actions).value == Step(keys, before, a)
  {
    before, a := Run(keys, clients, servers, actions[..|actions| - 1]).value, actions[|actions| - 1];
  }

  lemma SidesOfStep(keys: seq<string>, w: World, a: Action)
    requires Inv(keys, w) && Enabled(keys, w, a)
    ensures a.OnClient? ==> C.InRange(w.client) && C.Enabled(keys, w.client, a.c)
                            && Step(keys, w, a) == World(C.Step(keys, w.client, a.c), w.server)
    ensures a.OnServer? ==> S.InRange(w.server) && S.Enabled(w.server, a.s)
                            && Step(keys, w, a) == World(w.client, S.Step(keys, w.server, a.s))
  {
  }

  /** Each side of a run is a run of that side. */
  lemma {:induction false} SidesRun(keys: seq<string>, clients: nat, servers: nat, actions: seq<Action>)
    requires Run(keys, clients, servers, actions).Some?
    ensures C.Run(keys, clients, ClientActions(actions)) == Some(Run(keys, clients, servers, actions).value.client)
    ensures S.Run(keys, servers, ServerActions(actions)) == Some(Run(keys, clients, servers, actions).value.server)
  {
    if actions == [] {
      StartOfRun(keys, clients, servers);
    } else {
      var w, last := LastAction(keys, clients, servers, actions);
      var before := actions[..|actions| - 1];
      SidesRun(keys, clients, servers, before);
      SidesOfStep(keys, w, last);
      if last.OnClient? {
        ClientRunAppend(keys, clients, ClientActions(before), w.client, last.c);
      } else {
        ServerRunAppend(keys, servers, ServerActions(before), w.server, last.s);
      }
    }
  }

  lemma StartOfRun(keys: seq<string>, clients: nat, servers: nat)
    ensures Run(keys, clients, servers, []) == Some(World(C.Initial(clients), S.Idle(servers)))
    ensures C.Run(keys, clients, []) == Some(C.Initial(clients)) && S.Run(keys, servers, []) == Some(S.Idle(servers))
  {
  }

  /** The context that an RPC's event injected, if it did. */
  function Injected(c: C.Client, rpc: C.Rpc): Option<seq<string>> {
    match rpc.event
    case Some(e) => if e < |c.events| then c.events[e].injected else None
    case None => None
  }

  /** Every key with its value, or every key absent. */
  function AsExtracted(keys: seq<string>, context: Option<seq<string>>): (r: seq<Option<string>>)
    requires context.Some? ==> |context.value| == |keys|
    ensures |r| == |keys|
    ensures forall i | 0 <= i < |keys| :: r[i] == if context.Some? then Some(context.value[i]) else None
  {
    seq(|keys|, i requires 0 <= i < |keys| => if context.Some? then Some(context.value[i]) else None)
  }

  lemma EmptyMetadataHasNoValues(keys: seq<string>, received: seq<Entry>)
    requires Delivers([], received, keys)
    ensures forall i | 0 <= i < |keys| :: Lookup(received, keys[i]) == None
  {
    forall i | 0 <= i < |keys| ensures Lookup(received, keys[i]) == None {
      assert keys[i] in keys;
    }
  }

  /** What arrives under the trace keys is what was injected, or nothing. */
  lemma ExtractedIsInjected(keys: seq<string>, c: C.Client, r: nat, incoming: Option<Incoming>)
    requires FoldDistinct(keys) && r < |c.rpcs| && C.RpcOk(keys, c, r)
    requires Transported(keys, c.rpcs[r], incoming)
    ensures var context := Injected(c, c.rpcs[r]);
            && (context.Some? ==> |context.value| == |keys|)
            && Extracted(keys, incoming) == AsExtracted(keys, if incoming.Some? then context else None)
  {
    var rpc := c.rpcs[r];
    var context := Injected(c, rpc);
    if incoming.Some? {
      var received := incoming.value.metadata;
      if context.Some? {
        forall i | 0 <= i < |keys| ensures Lookup(received, keys[i]) == Some(context.value[i]) {
          ContextSurvivesTransport(keys, context.value, received, i, keys[i]);
        }
      } else {
        EmptyMetadataHasNoValues(keys, received);
      }
    }
  }

  /**
   End-to-end linkage: in every run, each server span belongs to exactly one RPC;
   the context it extracted is the one injected by the client event of that RPC
   (or nothing, when nothing was injected or no context arrived); and that event
   hangs under the span made for the HTTP request on the thread that issued the RPC.
   */
  lemma ServerSpansLinkToTheirCallers(keys: seq<string>, clients: nat, servers: nat, actions: seq<Action>, x: nat)
    requires FoldDistinct(keys) && Run(keys, clients, servers, actions).Some?
    requires x < |Run(keys, clients, servers, actions).value.server.spans|
    ensures var w := Run(keys, clients, servers, actions).value;
            && x < |w.server.madeFor|
            && var r := w.server.madeFor[x];
               && r < |w.client.rpcs| && r in w.server.calls
               && S.SpanOf(w.server, r) == Some(x)
               && var rpc, incoming := w.client.rpcs[r], w.server.calls[r].incoming;
                  var context := Injected(w.client, rpc);
                  && (context.Some? ==> |context.value| == |keys|)
                  && w.server.spans[x].extracted == AsExtracted(keys, if incoming.Some? then context else None)
                  && rpc.request < |w.client.madeBy| && w.client.madeBy[rpc.request] == rpc.thread
                  && (rpc.event.Some? ==> rpc.event.value < |w.client.events|
                                          && w.client.events[rpc.event.value].parent == rpc.request)
  {
    var w := Run(keys, clients, servers, actions).value;
    assert S.SpanOk(w.server, x);
    var r := w.server.madeFor[x];
    assert S.CallOk(keys, w.server, r);
    assert C.RpcOk(keys, w.client, r);
    ExtractedIsInjected(keys, w.client, r, w.server.calls[r].incoming);
  }

  /**
   End to end, value by value: a server span has extracted under each key the value
   that the client's agent had for its RPC, exactly if the client injected (its agent
   had an event to give, and there was a client context) and the server got a context.
   */
  lemma ServerSpansHaveTheClientsValues(keys: seq<string>, clients: nat, servers: nat, actions: seq<Action>, x: nat, i: nat)
    requires FoldDistinct(keys) && Run(keys, clients, servers, actions).Some? && i < |keys|
    requires x < |Run(keys, clients, servers, actions).value.server.spans|
    ensures var w := Run(keys, clients, servers, actions).value;
            && x < |w.server.madeFor|
            && var r := w.server.madeFor[x];
               && r < |w.client.rpcs| && r in w.server.calls && |w.server.spans[x].extracted| == |keys|
               && var rpc := w.client.rpcs[r];
                  if rpc.call.available && rpc.withContext && w.server.calls[r].incoming.Some?
                  then |rpc.call.values| == |keys| && w.server.spans[x].extracted[i] == Some(rpc.call.values[i])
                  else w.server.spans[x].extracted[i] == None
  {
    var w := Run(keys, clients, servers, actions).value;
    SidesRun(keys, clients, servers, actions);
    ServerSpansLinkToTheirCallers(keys, clients, servers, actions, x);
    CR.EventsRecordTheirRpc(keys, clients, ClientActions(actions), w.server.madeFor[x]);
  }

  /** An RPC that a server has received has a span there exactly if the server's agent had one to give. */
  lemma ReceivedRpcsHaveSpans(keys: seq<string>, clients: nat, servers: nat, actions: seq<Action>, r: nat)
    requires Run(keys, clients, servers, actions).Some? && r in Run(keys, clients, servers, actions).value.server.calls
    ensures var server := Run(keys, clients, servers, actions).value.server;
            server.calls[r].decision.available <==> exists x: nat :: x < |server.spans| && server.calls[r].span == Some(x)
  {
    SidesRun(keys, clients, servers, actions);
    SR.SpansRecordTheirRpc(keys, servers, ServerActions(actions), r);
  }

  /** An extracted context that is not empty tells which one was injected. */
  lemma AsExtractedIsInjective(keys: seq<string>, a: Option<seq<string>>, b: Option<seq<string>>)
    requires a.Some? ==> |a.value| == |keys|
    requires b.Some? ==> |b.value| == |keys|
    requires AsExtracted(keys, a) == AsExtracted(keys, b)
    requires exists i :: 0 <= i < |keys| && AsExtracted(keys, a)[i].Some?
    ensures a.Some? && a == b
  {
    var i :| 0 <= i < |keys| && AsExtracted(keys, a)[i].Some?;
    assert AsExtracted(keys, b)[i].Some?;
    forall k | 0 <= k < |keys| ensures a.value[k] == b.value[k] {
      assert AsExtracted(keys, a)[k] == AsExtracted(keys, b)[k];
    }
    assert a.value == b.value;
  }

  /** The agent never hands out the same context twice. */
  ghost predicate DistinctContexts(c: C.Client) {
    forall e, f | 0 <= e < f < |c.events| && c.events[e].injected.Some? ::
      c.events[e].injected != c.events[f].injected
  }

  /**
   If the agent never hands out the same context twice, a server span that
   continued a trace is identified by its context: no other span has the same.
   */
  lemma ContextIdentifiesTheServerSpan(keys: seq<string>, clients: nat, servers: nat, actions: seq<Action>, x: nat, y: nat)
    requires FoldDistinct(keys) && Run(keys, clients, servers, actions).Some?
    requires var w := Run(keys, clients, servers, actions).value;
             && x < |w.server.spans| && y < |w.server.spans|
             && DistinctContexts(w.client)
             && w.server.spans[x].extracted == w.server.spans[y].extracted
             && exists i :: 0 <= i < |w.server.spans[x].extracted| && w.server.spans[x].extracted[i].Some?
    ensures x == y
  {
    var w := Run(keys, clients, servers, actions).value;
    ServerSpansLinkToTheirCallers(keys, clients, servers, actions, x);
    ServerSpansLinkToTheirCallers(keys, clients, servers, actions, y);
    var r, q := w.server.madeFor[x], w.server.madeFor[y];
    var here, there := Injected(w.client, w.client.rpcs[r]), Injected(w.client, w.client.rpcs[q]);
    AsExtractedIsInjective(keys, if w.server.calls[r].incoming.Some? then here else None,
                           if w.server.calls[q].incoming.Some? then there else None);
    assert here == there && here.Some?;
    assert w.client.rpcs[r].event == w.client.rpcs[q].event;
    assert r == q;
  }
}
