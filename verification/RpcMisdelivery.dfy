/**
 What sharing a Seq does to the whole system: the answer to one request, read off the wire, completes the call that
 asked for another.
 */
module RpcMisdelivery {
  import opened Wrappers
  import opened Bytes
  import opened Encoding
  import opened RpcSystem
  import C = ClientSteps
  import R = ClientRuns
  import S = ServerSteps

  lemma OneMove(y0: System, run: seq<Move>, a: Move)
    requires Legal(y0, run) && Enabled(After(y0, run), a)
    ensures Legal(y0, run + [a]) && After(y0, run + [a]) == Apply(After(y0, run), a)
    ensures Log(y0, run + [a]) == Log(y0, run) + Served(After(y0, run), a)
  {
    assert (run + [a])[..|run|] == run;
  }

  /** A step of the client's own, with nothing written or read. */
  predicate Silent(l: C.Step) {
    !l.Connect? && !l.WriterEncode? && !l.ReaderDeliver?
  }

  lemma ClientMove(y0: System, run: seq<Move>, l: C.Step)
    requires Legal(y0, run) && Shaped(After(y0, run)) && C.Enabled(After(y0, run).client, l) && Silent(l)
    requires l.Invoke? ==> Sendable(After(y0, run).client.codec, l.req)
    ensures Legal(y0, run + [OfClient(l)]) && Log(y0, run + [OfClient(l)]) == Log(y0, run)
    ensures var y, y' := After(y0, run), After(y0, run + [OfClient(l)]);
            y' == y.(client := C.Apply(y.client, l)) && Shaped(y') && y'.client.codec == y.client.codec
  {
    var y := After(y0, run);
    ClientWriters(y.client, l);
    hide Legal, After, Log, C.Enabled, C.Apply, Sendable;
    OneMove(y0, run, OfClient(l));
  }

  /** Steps of the client alone are moves of the system. */
  lemma {:induction false} ByClient(y0: System, run: seq<Move>, steps: seq<C.Step>) returns (run': seq<Move>)
    requires Legal(y0, run) && Shaped(After(y0, run)) && R.Legal(After(y0, run).client, steps)
    requires forall l <- steps :: Silent(l) && (l.Invoke? ==> Sendable(After(y0, run).client.codec, l.req))
    ensures Legal(y0, run') && Log(y0, run') == Log(y0, run)
    ensures After(y0, run') == After(y0, run).(client := R.After(After(y0, run).client, steps))
    ensures Shaped(After(y0, run')) && After(y0, run').client.codec == After(y0, run).client.codec
  {
    hide Legal, After, Log, C.Enabled, C.Apply, Sendable, Shaped, Silent;
    if steps == [] {
      run' := run;
    } else {
      var front, l := steps[..|steps| - 1], steps[|steps| - 1];
      var before := ByClient(y0, run, front);
      ClientMove(y0, before, l);
      run' := before + [OfClient(l)];
    }
  }

  // ----- the server answers one request

  lemma ServerMove(y0: System, run: seq<Move>, l: S.SStep)
    requires Legal(y0, run) && Shaped(After(y0, run)) && S.Enabled(After(y0, run).server, l)
    requires !l.Accept? && !l.Receive? && !l.SendResponse? && (l.Handle? ==> |l.body.Content()| + DOG_HEADER_LEN < TWO_32)
    ensures Legal(y0, run + [OfServer(l)])
    ensures Log(y0, run + [OfServer(l)]) == Log(y0, run) + Served(After(y0, run), OfServer(l))
    ensures var y, y' := After(y0, run), After(y0, run + [OfServer(l)]);
            y' == y.(server := S.Apply(y.server, l)) && Shaped(y')
  {
    ServerWriters(After(y0, run).server, l);
    hide Legal, After, Log, S.Enabled, S.Apply, Served;
    OneMove(y0, run, OfServer(l));
  }

  /** One connection, one worker at a time, and room for one response. */
  function Desk(codec: Codec, handlers: set<uint32>, heap: seq<S.ServerMessage>, pool: multiset<S.MsgRef>, conn: S.SConn,
                workers: seq<S.Worker>, tokens: nat): S.Server {
    S.Server(codec, handlers, 1, 1, heap, pool, [conn], workers, tokens, false)
  }

  function Before(codec: Codec, handlers: set<uint32>, p: Packet): S.Server {
    Desk(codec, handlers, [S.ServerMessage(Some(p), None, Some(0))], multiset{}, S.SConn(S.Holding(0), [], S.Waiting), [], 0)
  }

  function Working(codec: Codec, handlers: set<uint32>, cell: S.ServerMessage, stage: S.Stage, responses: seq<S.MsgRef>): S.Server {
    Desk(codec, handlers, [cell], multiset{}, S.SConn(S.Reading, responses, S.Waiting), [S.Worker(0, 0, stage)], 1)
  }

  function Answered(codec: Codec, handlers: set<uint32>, writer: S.SWriter): S.Server {
    Desk(codec, handlers, [S.ServerMessage(None, None, None)], multiset{0}, S.SConn(S.Reading, [], writer),
         [S.Worker(0, 0, S.Leaving)], 1)
  }

  lemma WorksOnce(codec: Codec, handlers: set<uint32>, p: Packet, code: uint32, body: Slice)
    ensures var rsp := S.Dispatch(codec, handlers, p, code, body);
            var s2, s3 := Before(codec, handlers, p),
                          Working(codec, handlers, S.ServerMessage(Some(p), None, Some(0)), S.Begun, []);
            var s4 := Working(codec, handlers, S.ServerMessage(None, None, None), S.Running(Some(p), Some(0)), []);
            var s5 := Working(codec, handlers, S.ServerMessage(None, Some(rsp), None), S.Replying, []);
            && S.Enabled(s2, S.Spawn(0)) && S.Apply(s2, S.Spawn(0)) == s3
            && S.Enabled(s3, S.Begin(0)) && S.Apply(s3, S.Begin(0)) == s4
            && S.Enabled(s4, S.Handle(0, code, body)) && S.Apply(s4, S.Handle(0, code, body)) == s5
  {
    hide S.Dispatch;
    var s2, s3 := Before(codec, handlers, p), Working(codec, handlers, S.ServerMessage(Some(p), None, Some(0)), S.Begun, []);
    var s4 := Working(codec, handlers, S.ServerMessage(None, None, None), S.Running(Some(p), Some(0)), []);
    assert S.Apply(s2, S.Spawn(0)).workers == s3.workers && S.Apply(s2, S.Spawn(0)).conns == s3.conns;
    assert S.Apply(s3, S.Begin(0)).heap == s4.heap && S.Apply(s3, S.Begin(0)).workers == s4.workers;
    assert S.Apply(s4, S.Handle(0, code, body)).heap == [S.ServerMessage(None, Some(S.Dispatch(codec, handlers, p, code, body)), None)];
    assert S.Apply(s4, S.Handle(0, code, body)).workers == [S.Worker(0, 0, S.Replying)];
  }

  lemma RepliesOnce(codec: Codec, handlers: set<uint32>, rsp: Packet)
    ensures var cell := S.ServerMessage(None, Some(rsp), None);
            var s5, s6 := Working(codec, handlers, cell, S.Replying, []), Working(codec, handlers, cell, S.Leaving, [0]);
            && S.Enabled(s5, S.Answer(0)) && S.Apply(s5, S.Answer(0)) == s6
            && S.Enabled(s6, S.TakeResponse(0)) && S.Apply(s6, S.TakeResponse(0)) == Answered(codec, handlers, S.Sending(Some(rsp)))
  {
    var cell := S.ServerMessage(None, Some(rsp), None);
    var s5, s6 := Working(codec, handlers, cell, S.Replying, []), Working(codec, handlers, cell, S.Leaving, [0]);
    var t5, t6 := S.Apply(s5, S.Answer(0)), Answered(codec, handlers, S.Sending(Some(rsp)));
    assert t5.conns[0].responses == [0];
    assert t5.conns == s6.conns && t5.workers == s6.workers;
    var t := S.Apply(s6, S.TakeResponse(0));
    assert t.conns[0].responses == [];
    assert t.conns == t6.conns && t.heap == t6.heap && t.pool == t6.pool;
  }

  lemma HandleTurn(y0: System, run: seq<Move>, p: Packet, code: uint32, body: Slice) returns (run': seq<Move>)
    requires Legal(y0, run) && Shaped(After(y0, run)) && |body.Content()| + DOG_HEADER_LEN < TWO_32
    requires var s := After(y0, run).server; s == Before(s.codec, s.handlers, p)
    ensures Legal(y0, run') && Shaped(After(y0, run'))
    ensures var s := After(y0, run).server;
            var rsp := S.Dispatch(s.codec, s.handlers, p, code, body);
            && After(y0, run')
               == After(y0, run).(server := Working(s.codec, s.handlers, S.ServerMessage(None, Some(rsp), None), S.Replying, []))
            && Log(y0, run') == Log(y0, run) + {Dispatching(p, code, body)}
  {
    var codec, handlers := After(y0, run).server.codec, After(y0, run).server.handlers;
    hide Legal, After, Log, S.Enabled, S.Apply, Shaped, S.Dispatch;
    WorksOnce(codec, handlers, p, code, body);
    ServerMove(y0, run, S.Spawn(0));
    run' := run + [OfServer(S.Spawn(0))];
    ServerMove(y0, run', S.Begin(0));
    run' := run' + [OfServer(S.Begin(0))];
    ServerMove(y0, run', S.Handle(0, code, body));
    run' := run' + [OfServer(S.Handle(0, code, body))];
  }

  /** The request in the reader's hands is dispatched, and its answer is ready to be written. */
  lemma ServerTurn(y0: System, run: seq<Move>, p: Packet, code: uint32, body: Slice) returns (run': seq<Move>)
    requires Legal(y0, run) && Shaped(After(y0, run)) && |body.Content()| + DOG_HEADER_LEN < TWO_32
    requires var s := After(y0, run).server; s == Before(s.codec, s.handlers, p)
    ensures Legal(y0, run') && Shaped(After(y0, run'))
    ensures var s := After(y0, run).server;
            var rsp := S.Dispatch(s.codec, s.handlers, p, code, body);
            && After(y0, run') == After(y0, run).(server := Answered(s.codec, s.handlers, S.Sending(Some(rsp))))
            && Log(y0, run') == Log(y0, run) + {Dispatching(p, code, body)}
  {
    var codec, handlers := After(y0, run).server.codec, After(y0, run).server.handlers;
    var rsp := S.Dispatch(codec, handlers, p, code, body);
    hide Legal, After, Log, S.Enabled, S.Apply, Shaped, S.Dispatch, Before;
    run' := HandleTurn(y0, run, p, code, body);
    RepliesOnce(codec, handlers, rsp);
    ServerMove(y0, run', S.Answer(0));
    run' := run' + [OfServer(S.Answer(0))];
    ServerMove(y0, run', S.TakeResponse(0));
    run' := run' + [OfServer(S.TakeResponse(0))];
  }

  // ----- the run

  function Both(codec: Codec, p0: Packet, p1: Packet, queue: seq<C.Ref>, conn: C.Conn, count: uint32): C.Client {
    R.TwoCalls(codec, p0, p1, queue, [conn], count)
  }

  /** A call asks for `p`. */
  lemma AskMove(y0: System, run: seq<Move>, p: Packet) returns (run': seq<Move>)
    requires Legal(y0, run) && Shaped(After(y0, run)) && Sendable(After(y0, run).client.codec, p)
    requires !After(y0, run).client.panicked && |After(y0, run).client.queue| < After(y0, run).client.pendingRequests
    ensures Legal(y0, run') && Shaped(After(y0, run')) && Log(y0, run') == Log(y0, run)
    ensures var c := After(y0, run).client;
            After(y0, run') == After(y0, run).(client :=
              c.(queue := c.queue + [|c.heap|], heap := c.heap + [C.AsyncResult(Some(p), None, None, C.Open, false, false)],
                 calls := c.calls + [C.Call(p, C.Sync(0), 0, C.Waiting(|c.heap|))]))
  {
    hide Legal, After, Log, R.Legal, R.After, Sendable, Shaped;
    var steps, t := R.Asked(After(y0, run).client, p);
    run' := ByClient(y0, run, steps);
  }

  lemma Begins(codec: Codec, handlers: set<uint32>)
    ensures var y0 := Start(codec, 2, handlers, 1, 1);
            && Legal(y0, []) && After(y0, []) == y0 && Log(y0, []) == {} && Shaped(y0)
            && y0.client == C.Client(codec, 2, [], [], multiset{}, [], 0, [], false)
            && y0.server == S.Server(codec, handlers, 1, 1, [], multiset{}, [], [], 0, false) && y0.c2s == [] && y0.s2c == []
  {
  }

  lemma DialOnce(client: C.Client, server: S.Server)
    requires !client.panicked && !server.panicked && client.conns == [] && server.conns == []
    ensures var y := System(client, server, [], []);
            && Enabled(y, Dial) && Served(y, Dial) == {}
            && Apply(y, Dial) == System(client.(conns := [C.Conn(map[], C.Idle, false)]),
                                        server.(conns := [S.SConn(S.Reading, [], S.Waiting)]), [[]], [[]])
  {
  }

  /** Two calls have been made, and then the connection. */
  lemma Dialled(codec: Codec, handlers: set<uint32>, p0: Packet, p1: Packet) returns (run: seq<Move>)
    requires Sendable(codec, p0) && Sendable(codec, p1)
    ensures var y0 := Start(codec, 2, handlers, 1, 1);
            && Legal(y0, run) && Log(y0, run) == {}
            && After(y0, run) == System(Both(codec, p0, p1, [0, 1], C.Conn(map[], C.Idle, false), 0),
                                        Desk(codec, handlers, [], multiset{}, S.SConn(S.Reading, [], S.Waiting), [], 0), [[]], [[]])
  {
    hide Legal, After, Log, Sendable, Start, Enabled, Apply, Served, Shaped;
    var y0 := Start(codec, 2, handlers, 1, 1);
    Begins(codec, handlers);
    run := AskMove(y0, [], p0);
    run := AskMove(y0, run, p1);
    DialOnce(After(y0, run).client, After(y0, run).server);
    OneMove(y0, run, Dial);
    run := run + [Dial];
  }

  /** The writer files the request of result `m`. */
  lemma FileMove(y0: System, run: seq<Move>, m: C.Ref, conn: C.Conn) returns (run': seq<Move>)
    requires Legal(y0, run) && Shaped(After(y0, run))
    requires var c := After(y0, run).client;
             && !c.panicked && c.pendingRequests == 2 && c.conns == [conn] && conn.writer.Idle? && |conn.pending| <= 1
             && c.queue != [] && c.queue[0] == m && m < |c.heap| && c.heap[m].request.Some?
             && !c.heap[m].canceled && !c.heap[m].skipResponse
    ensures Legal(y0, run') && Shaped(After(y0, run')) && Log(y0, run') == Log(y0, run)
    ensures var c := After(y0, run).client;
            After(y0, run') == After(y0, run).(client :=
              c.(queue := c.queue[1..], count := U32(c.count + 1),
                 conns := [C.Conn(conn.pending[c.heap[m].request.value.ID() := m], C.Encoding(m), conn.readerDone)]))
  {
    hide Legal, After, Log, R.Legal, R.After, Sendable, Shaped;
    var steps, t := R.WriterTurn(After(y0, run).client, m, conn);
    run' := ByClient(y0, run, steps);
  }

  /** It writes `p0`; the server's decoder delivers it to the reader. */
  lemma SendOnce(codec: Codec, handlers: set<uint32>, p0: Packet, p1: Packet)
    requires Arrives(codec, p0) && Encodable(codec, p0)
    ensures var desk := Desk(codec, handlers, [], multiset{}, S.SConn(S.Reading, [], S.Waiting), [], 0);
            var y := System(Both(codec, p0, p1, [1], C.Conn(map[p0.ID() := 0], C.Encoding(0), false), 1), desk, [[]], [[]]);
            var y1 := System(Both(codec, p0, p1, [1], C.Conn(map[p0.ID() := 0], C.Idle, false), 1), desk, [Wire(p0)], [[]]);
            && Enabled(y, ClientWrites(0)) && Apply(y, ClientWrites(0)) == y1 && Served(y, ClientWrites(0)) == {}
            && Enabled(y1, ServerReads(0, 0)) && Served(y1, ServerReads(0, 0)) == {}
            && Apply(y1, ServerReads(0, 0)) == y1.(server := Before(codec, handlers, p0.Received()), c2s := [[]])
  {
    hide Wire, Decode, Arrives;
    ArrivesWhole(codec, p0, []);
    assert Wire(p0) + [] == Wire(p0);
    var desk := Desk(codec, handlers, [], multiset{}, S.SConn(S.Reading, [], S.Waiting), [], 0);
    var conn := C.Conn(map[p0.ID() := 0], C.Encoding(0), false);
    R.EncodeTurn(Both(codec, p0, p1, [1], conn, 1), conn, 0);
    assert [] + Wire(p0) == Wire(p0);
    var t := S.Apply(desk, S.Receive(0, p0.Received(), 0));
    assert t.heap == [S.ServerMessage(Some(p0.Received()), None, Some(0))] && t.conns == [S.SConn(S.Holding(0), [], S.Waiting)];
  }

  /** The answer is written. */
  lemma WriteOnce(codec: Codec, handlers: set<uint32>, c: C.Client, rsp: Packet)
    requires Encodable(codec, rsp) && |c.conns| == 1
    ensures var y, y1 := System(c, Answered(codec, handlers, S.Sending(Some(rsp))), [[]], [[]]),
                         System(c, Answered(codec, handlers, S.Waiting), [[]], [Wire(rsp)]);
            Enabled(y, ServerWrites(0)) && Apply(y, ServerWrites(0)) == y1 && Served(y, ServerWrites(0)) == {}
  {
    hide Wire;
    assert [] + Wire(rsp) == Wire(rsp);
  }

  /** The client's decoder delivers it to the reader, who finds the other call's result. */
  lemma ReadOnce(codec: Codec, p0: Packet, p1: Packet, server: S.Server, rsp: Packet)
    requires Arrives(codec, rsp) && rsp.ID() == p0.ID() && |server.conns| == 1
    ensures var c := Both(codec, p0, p1, [], C.Conn(map[p0.ID() := 1], C.Encoding(1), false), 2);
            var y := System(c, server, [[]], [Wire(rsp)]);
            && Enabled(y, ClientReads(0)) && Served(y, ClientReads(0)) == {}
            && C.Enabled(c, C.ReaderDeliver(0, rsp.Received()))
            && Apply(y, ClientReads(0)) == System(C.Apply(c, C.ReaderDeliver(0, rsp.Received())), server, [[]], [[]])
  {
    hide Wire, Decode, Arrives;
    ArrivesWhole(codec, rsp, []);
    assert Wire(rsp) + [] == Wire(rsp);
  }

  lemma SendableIsEncodable(codec: Codec, p: Packet)
    requires Sendable(codec, p)
    ensures Encodable(codec, p)
  {
  }

  lemma DispatchIsEncodable(codec: Codec, handlers: set<uint32>, req: Packet, code: uint32, body: Slice)
    ensures Encodable(codec, S.Dispatch(codec, handlers, req, code, body))
  {
  }

  /** The first request is sent and received. */
  lemma FirstReceived(codec: Codec, handlers: set<uint32>, p0: Packet, p1: Packet) returns (run: seq<Move>)
    requires Sendable(codec, p0) && Sendable(codec, p1) && Arrives(codec, p0)
    ensures var y0 := Start(codec, 2, handlers, 1, 1);
            && Legal(y0, run) && Log(y0, run) == {}
            && After(y0, run) == System(Both(codec, p0, p1, [1], C.Conn(map[p0.ID() := 0], C.Idle, false), 1),
                                        Before(codec, handlers, p0.Received()), [[]], [[]])
  {
    hide Legal, After, Log, Sendable, Arrives, Start, Enabled, Apply, Served, Before;
    var y0 := Start(codec, 2, handlers, 1, 1);
    run := Dialled(codec, handlers, p0, p1);
    run := FileMove(y0, run, 0, C.Conn(map[], C.Idle, false));
    assert [0, 1][1..] == [1] && map[][p0.ID() := 0] == map[p0.ID() := 0];
    SendableIsEncodable(codec, p0);
    SendOnce(codec, handlers, p0, p1);
    OneMove(y0, run, ClientWrites(0));
    run := run + [ClientWrites(0)];
    OneMove(y0, run, ServerReads(0, 0));
    run := run + [ServerReads(0, 0)];
  }

  /** Its answer is on its way, and meanwhile the second request has been filed in the place of the first. */
  lemma SecondFiled(codec: Codec, handlers: set<uint32>, p0: Packet, p1: Packet, code: uint32, body: Slice)
    returns (run: seq<Move>)
    requires Sendable(codec, p0) && Sendable(codec, p1) && Arrives(codec, p0) && p0.ID() == p1.ID()
    requires |body.Content()| + DOG_HEADER_LEN < TWO_32
    ensures var y0, rsp := Start(codec, 2, handlers, 1, 1), S.Dispatch(codec, handlers, p0.Received(), code, body);
            && Legal(y0, run) && Log(y0, run) == {Dispatching(p0.Received(), code, body)}
            && After(y0, run) == System(Both(codec, p0, p1, [], C.Conn(map[p0.ID() := 1], C.Encoding(1), false), 2),
                                        Answered(codec, handlers, S.Sending(Some(rsp))), [[]], [[]])
  {
    hide Legal, After, Log, Sendable, Arrives, Start, Enabled, Apply, Served, Answered, S.Dispatch;
    var y0 := Start(codec, 2, handlers, 1, 1);
    run := FirstReceived(codec, handlers, p0, p1);
    run := ServerTurn(y0, run, p0.Received(), code, body);
    run := FileMove(y0, run, 1, C.Conn(map[p0.ID() := 0], C.Idle, false));
    assert [1][1..] == [] && map[p0.ID() := 0][p1.ID() := 1] == map[p0.ID() := 1];
  }

  /**
   Two calls ask under one Seq. Only `p0` is ever written, the server dispatches only `p0`, and its answer, read off
   the wire, completes the call that asked for `p1`; nobody has the result of the call for `p0` any more.
   */
  lemma SharedSeqMisdelivers(codec: Codec, handlers: set<uint32>, p0: Packet, p1: Packet, code: uint32, body: Slice)
    returns (run: seq<Move>)
    requires Sendable(codec, p0) && Sendable(codec, p1) && p0.ID() == p1.ID() && |body.Content()| + DOG_HEADER_LEN < TWO_32
    requires Arrives(codec, p0) && Arrives(codec, S.Dispatch(codec, handlers, p0.Received(), code, body))
    ensures var y0, rsp := Start(codec, 2, handlers, 1, 1), S.Dispatch(codec, handlers, p0.Received(), code, body);
            && Legal(y0, run) && Log(y0, run) == {Dispatching(p0.Received(), code, body)}
            && After(y0, run).client.calls == [C.Call(p0, C.Sync(0), 0, C.Waiting(0)),
                                               C.Call(p1, C.Sync(0), 0, C.Finished(C.Reply(Some(rsp.Received()))))]
            && S.Answers(handlers, p0.Received(), code, body, rsp)
            && After(y0, run).client.queue == [] && After(y0, run).client.conns == [C.Conn(map[], C.Encoding(1), false)]
  {
    hide Legal, After, Log, Sendable, Arrives, Start, Enabled, Apply, Served, C.Enabled, C.Apply;
    var y0, rsp := Start(codec, 2, handlers, 1, 1), S.Dispatch(codec, handlers, p0.Received(), code, body);
    run := SecondFiled(codec, handlers, p0, p1, code, body);
    var c := Both(codec, p0, p1, [], C.Conn(map[p0.ID() := 1], C.Encoding(1), false), 2);
    DispatchIsEncodable(codec, handlers, p0.Received(), code, body);
    WriteOnce(codec, handlers, c, rsp);
    OneMove(y0, run, ServerWrites(0));
    run := run + [ServerWrites(0)];
    ReadOnce(codec, p0, p1, Answered(codec, handlers, S.Waiting), rsp);
    OneMove(y0, run, ClientReads(0));
    run := run + [ClientReads(0)];
    var s1, t := R.Misdelivered(codec, p0, p1, rsp.Received(), c);
    ClientMove(y0, run, C.Complete(1));
    run := run + [OfClient(C.Complete(1))];
  }
}
