/**
 net/dogrpc/server.go in its own form: pooled messages whose fields are reset in place, the response channel of
 each connection, and the semaphore channel all connections share.

 As in ClientCode, every method is what one goroutine does without letting another in between, and is proved to be
 the step of ServerSteps it stands for; `Valid` says that the objects hold what `model` says.
 */
module ServerCode {
  import opened Wrappers
  import opened Bytes
  import opened Encoding
  import S = ServerSteps
  import Safety = ServerSafety
  import Runs = ServerRuns
  import Rpc = RpcServerCode

  class Message {
    ghost const ref: S.MsgRef
    var Request: Option<Packet>
    var Response: Option<Packet>
    var ClientAddr: Option<nat>

    constructor (ghost ref: S.MsgRef)
      ensures this.ref == ref && Cell() == S.ServerMessage(None, None, None)
    {
      this.ref := ref;
      Request, Response, ClientAddr := None, None, None;
    }

    ghost function Cell(): S.ServerMessage
      reads this
    {
      S.ServerMessage(Request, Response, ClientAddr)
    }

    method Load(req: Packet, clientAddr: nat)
      modifies this
      ensures Cell() == old(Cell()).(request := Some(req), clientAddr := Some(clientAddr))
    {
      Request, ClientAddr := Some(req), Some(clientAddr);
    }

    method Unload() returns (req: Option<Packet>, clientAddr: Option<nat>)
      modifies this
      ensures req == old(Request) && clientAddr == old(ClientAddr)
      ensures Cell() == old(Cell()).(request := None, clientAddr := None)
    {
      req, clientAddr := Request, ClientAddr;
      Request, ClientAddr := None, None;
    }
  }

  class Connection {
    ghost const k: nat
    var responsesChan: seq<Message>

    constructor (ghost k: nat)
      ensures this.k == k && responsesChan == []
    {
      this.k, responsesChan := k, [];
    }
  }

  ghost function Refs(s: seq<Message>): (r: seq<S.MsgRef>)
    ensures |r| == |s|
    ensures forall i :: 0 <= i < |s| ==> r[i] == s[i].ref
  {
    seq(|s|, i requires 0 <= i < |s| => s[i].ref)
  }

  lemma RefsPush(s: seq<Message>, m: Message)
    ensures Refs(s + [m]) == Refs(s) + [m.ref]
    ensures multiset(Refs(s + [m])) == multiset(Refs(s)) + multiset{m.ref}
  {
    assert Refs(s + [m]) == Refs(s) + [m.ref];
  }

  lemma RefsPop(s: seq<Message>, i: nat)
    requires i < |s|
    ensures Refs(s[..i] + s[i + 1..]) == Refs(s)[..i] + Refs(s)[i + 1..]
    ensures multiset(Refs(s[..i] + s[i + 1..])) == multiset(Refs(s)) - multiset{s[i].ref}
  {
    assert Refs(s) == Refs(s)[..i] + [s[i].ref] + Refs(s)[i + 1..];
    assert Refs(s[..i] + s[i + 1..]) == Refs(s)[..i] + Refs(s)[i + 1..];
  }

  lemma RefsTail(s: seq<Message>)
    requires s != []
    ensures Refs(s[1..]) == Refs(s)[1..]
  {
  }

  lemma Advance(s0: S.Server, run: seq<S.SStep>, s: S.Server, h: Safety.Hist, l: S.SStep)
    returns (run': seq<S.SStep>, h': Safety.Hist)
    requires Runs.Legal(s0, run) && Runs.After(s0, run) == s && Safety.Inv(s, h) && S.Enabled(s, l)
    ensures run' == run + [l] && Runs.Legal(s0, run') && Runs.After(s0, run') == S.Apply(s, l)
    ensures Safety.Inv(S.Apply(s, l), h')
  {
    run' := run + [l];
    assert run'[..|run|] == run;
    h' := Safety.Keeps(s, h, l);
  }

  /** A request's goroutine finds in its message a request of its own connection, and can go on to handle it. */
  lemma CanBegin(s: S.Server, h: Safety.Hist, w: nat)
    requires Safety.Inv(s, h) && w < |s.workers| && s.workers[w].stage.Begun?
    ensures S.Enabled(s, S.Begin(w)) && s.workers[w].m < |s.heap|
    ensures s.heap[s.workers[w].m].request.Some? && s.heap[s.workers[w].m].clientAddr == Some(s.workers[w].k)
    ensures var t := S.Apply(s, S.Begin(w));
            && t == S.DoBegin(s, w) && !t.panicked && w < |t.workers|
            && t.workers[w].m == s.workers[w].m && t.workers[w].k == s.workers[w].k && t.handlers == s.handlers && t.codec == s.codec
            && t.workers[w].stage.Running? && t.workers[w].stage.req == s.heap[s.workers[w].m].request
  {
    assert Safety.WorkerOk(s, h, w);
  }

  lemma CanReply(s: S.Server, w: nat, code: uint32, body: Slice)
    requires S.Enabled(s, S.Handle(w, code, body)) && w < |s.workers| && s.workers[w].stage.Running? && s.workers[w].stage.req.Some?
    ensures var t := S.Apply(s, S.Handle(w, code, body));
            t == S.DoHandle(s, w, code, body) && S.WorkerAt(t, w) && t.workers[w] == s.workers[w].(stage := S.Replying)
  {
  }

  lemma Replied(s: S.Server, w: nat)
    requires !s.panicked && S.WorkerAt(s, w) && s.workers[w].stage.Replying? && s.workers[w].k < |s.conns|
    ensures S.Enabled(s, S.GiveUp(w))
    ensures var t := S.Apply(s, S.GiveUp(w)); w < |t.workers| && t.workers[w].stage.Leaving?
    ensures |s.conns[s.workers[w].k].responses| < s.pendingResponses ==>
              && S.Enabled(s, S.Answer(w)) && S.Apply(s, S.Answer(w)) == S.DoAnswer(s, w)
              && var t := S.Apply(s, S.Answer(w)); w < |t.workers| && t.workers[w].stage.Leaving?
  {
  }

  lemma Left(s: S.Server, w: nat)
    requires S.Enabled(s, S.Leave(w))
    ensures var t := S.Apply(s, S.Leave(w)); w < |t.workers| && t.workers[w].stage.Gone?
  {
  }

  /** The token it came with is still there when it leaves. */
  lemma CanLeave(s: S.Server, h: Safety.Hist, w: nat)
    requires Safety.Inv(s, h) && w < |s.workers| && s.workers[w].stage.Leaving?
    ensures S.Enabled(s, S.Leave(w))
  {
    assert Safety.WorkerOk(s, h, w);
    Safety.InFlightHas(s.workers, w);
  }

  class Server {
    const codec: Codec
    const Concurrency: nat
    const PendingResponses: nat
    var serverMessagePool: seq<Message>
    var workersCh: nat
    ghost var messages: seq<Message>
    ghost var conns: seq<Connection>
    ghost var model: S.Server

    ghost predicate Owns(m: Message)
      reads `messages
    {
      m.ref < |messages| && messages[m.ref] == m
    }

    ghost predicate Holds()
      reads `messages, `model, messages
    {
      && |messages| == |model.heap|
      && forall i :: 0 <= i < |messages| ==> messages[i].ref == i && messages[i].Cell() == model.heap[i]
    }

    ghost predicate Queues()
      reads `messages, `conns, `model, conns
    {
      && |conns| == |model.conns|
      && (forall k :: 0 <= k < |conns| ==> conns[k].k == k && Refs(conns[k].responsesChan) == model.conns[k].responses)
      && (forall k, i :: 0 <= k < |conns| && 0 <= i < |conns[k].responsesChan| ==> Owns(conns[k].responsesChan[i]))
    }

    ghost predicate Pools()
      reads `messages, `model, `serverMessagePool
    {
      && multiset(Refs(serverMessagePool)) == model.pool
      && (forall m <- serverMessagePool :: Owns(m))
    }

    ghost predicate Valid()
      reads this, messages, conns
    {
      && (codec, Concurrency, PendingResponses, workersCh)
         == (model.codec, model.concurrency, model.pendingResponses, model.tokens)
      && Holds() && Queues() && Pools()
    }

    constructor (codec: Codec, ghost handlers: set<uint32>, concurrency: nat, pendingResponses: nat)
      ensures Valid() && model == S.Start(codec, handlers, concurrency, pendingResponses) && messages == [] && conns == []
    {
      this.codec, Concurrency, PendingResponses := codec, concurrency, pendingResponses;
      serverMessagePool, workersCh := [], 0;
      messages, conns, model := [], [], S.Start(codec, handlers, concurrency, pendingResponses);
    }

    method Accept() returns (conn: Connection)
      requires Valid() && !model.panicked
      modifies `conns, `model
      ensures Valid() && model == S.Apply(old(model), S.Accept) && fresh(conn) && conns == old(conns) + [conn]
    {
      conn := new Connection(|conns|);
      assert Refs(conn.responsesChan) == [];
      conns := conns + [conn];
      model := S.Apply(model, S.Accept);
    }

    // ----- the reader

    method FromPool() returns (m: Message)
      requires Valid() && serverMessagePool != []
      modifies `serverMessagePool, `model
      ensures Valid() && Owns(m) && m in old(serverMessagePool)
      ensures m.ref in old(model.pool) && model == old(model).(pool := old(model.pool) - multiset{m.ref})
    {
      var i: nat :| i < |serverMessagePool|;
      m := serverMessagePool[i];
      RefsPop(serverMessagePool, i);
      assert Refs(serverMessagePool)[i] == m.ref;
      serverMessagePool := serverMessagePool[..i] + serverMessagePool[i + 1..];
      model := model.(pool := model.pool - multiset{m.ref});
    }

    method NewMessage() returns (m: Message)
      requires Valid()
      modifies `messages, `model
      ensures Valid() && fresh(m) && m.ref == |old(messages)| && messages == old(messages) + [m]
      ensures model == old(model).(heap := old(model.heap) + [S.ServerMessage(None, None, None)])
    {
      m := new Message(|messages|);
      messages := messages + [m];
      model := model.(heap := model.heap + [m.Cell()]);
    }

    ghost predicate Got(before: S.Server, m: S.MsgRef)
      reads `model
    {
      model == if m < |before.heap| then before.(pool := before.pool - multiset{m})
               else before.(heap := before.heap + [S.ServerMessage(None, None, None)])
    }

    method Fill(ghost before: S.Server, k: nat, m: Message, req: Packet)
      requires Valid() && Owns(m) && S.Enabled(before, S.Receive(k, req, m.ref)) && Got(before, m.ref)
      modifies `model, m
      ensures Valid() && model == S.DoReceive(before, k, req, m.ref) && m.Request == Some(req) && m.ClientAddr == Some(k)
    {
      m.Load(req, k);
      model := model.(heap := model.heap[m.ref := m.Cell()],
                      conns := model.conns[k := model.conns[k].(reader := S.Holding(m.ref))]);
    }

    /** A decoded request goes into a message from the pool, or a new one. */
    method Receive(k: nat, req: Packet) returns (m: Message)
      requires Valid() && !model.panicked && k < |model.conns| && model.conns[k].reader.Reading?
      modifies `serverMessagePool, `messages, `model, serverMessagePool
      ensures Valid() && Owns(m) && (m in old(serverMessagePool) || fresh(m)) && m.Request == Some(req)
      ensures m.ClientAddr == Some(k) && k < |model.conns| && model.conns[k].reader == S.Holding(m.ref)
      ensures S.Enabled(old(model), S.Receive(k, req, m.ref)) && model == S.DoReceive(old(model), k, req, m.ref)
    {
      var hit: bool := *;
      if serverMessagePool != [] && hit {
        m := FromPool();
      } else {
        m := NewMessage();
      }
      Fill(old(model), k, m, req);
    }

    /** `workersCh <- struct{}{}` has room, and the request's goroutine starts. */
    method Spawn(ghost k: nat) returns (ghost w: nat)
      requires Valid() && !model.panicked && k < |model.conns| && model.conns[k].reader.Holding? && workersCh < Concurrency
      modifies `workersCh, `model
      ensures Valid() && S.Enabled(old(model), S.Spawn(k)) && model == S.DoSpawn(old(model), k) && w == |old(model.workers)| && workersCh <= Concurrency
      ensures workersCh == old(workersCh) + 1
      ensures model.workers == old(model.workers) + [S.Worker(k, old(model.conns[k].reader.m), S.Begun)]
    {
      w := |model.workers|;
      workersCh := workersCh + 1;
      model := S.DoSpawn(model, k);
    }

    // ----- a worker

    method Begin(ghost w: nat, m: Message) returns (req: Option<Packet>, clientAddr: Option<nat>)
      requires Valid() && !model.panicked && Owns(m)
      requires w < |model.workers| && model.workers[w].m == m.ref && model.workers[w].stage.Begun?
      modifies `model, m
      ensures Valid() && S.Enabled(old(model), S.Begin(w)) && model == S.DoBegin(old(model), w) && req == old(m.Request) && clientAddr == old(m.ClientAddr)
      ensures m.Request == None && m.ClientAddr == None && m.Response == old(m.Response)
    {
      req, clientAddr := m.Unload();
      model := S.DoBegin(model, w);
    }

    /** The one call of a handler and the answer it gave are in the message. */
    method Handle<H, F>(ghost w: nat, m: Message, handler: Rpc.RpcServer<H, F>, clientAddr: Option<nat>, req: Packet)
      returns (ghost code: uint32, ghost body: Slice)
      requires Valid() && !model.panicked && Owns(m) && w < |model.workers| && model.workers[w].m == m.ref
      requires model.workers[w].stage.Running? && model.workers[w].stage.req == Some(req)
      requires handler.codec == codec && handler.defaultHandler.Keys == model.handlers
      modifies `model, m`Response, handler`handled
      ensures Valid() && S.Enabled(old(model), S.Handle(w, code, body)) && model == S.DoHandle(old(model), w, code, body)
      ensures m.Cell() == old(m.Cell()).(response := m.Response) && m.Response.Some?
      ensures S.Answers(handler.defaultHandler.Keys, req, code, body, m.Response.value)
      ensures handler.handled == old(handler.handled) + handler.Calls(clientAddr, req, code, body)
    {
      var rsp;
      rsp, code, body := handler.DispatchPacket(clientAddr, req);
      assert S.Enabled(model, S.Handle(w, code, body));
      m.Response := Some(rsp);
      model := S.DoHandle(model, w, code, body);
    }

    method Answer(ghost w: nat, m: Message, conn: Connection)
      requires Valid() && !model.panicked && Owns(m) && w < |model.workers| && model.workers[w].m == m.ref
      requires model.workers[w].stage.Replying? && model.workers[w].k < |conns| && conn == conns[model.workers[w].k]
      requires |conn.responsesChan| < PendingResponses
      modifies `model, conn
      ensures Valid() && S.Enabled(old(model), S.Answer(w)) && model == S.DoAnswer(old(model), w) && |conn.responsesChan| <= PendingResponses
      ensures conn.responsesChan == old(conn.responsesChan) + [m]
    {
      RefsPush(conn.responsesChan, m);
      conn.responsesChan := conn.responsesChan + [m];
      model := S.DoAnswer(model, w);
    }

    /** The connection's stopChan is closed first: the response is dropped. */
    ghost method GiveUp(w: nat)
      requires Valid() && !model.panicked && w < |model.workers| && model.workers[w].m < |model.heap|
      requires model.workers[w].stage.Replying?
      modifies `model
      ensures Valid() && S.Enabled(old(model), S.GiveUp(w)) && model == S.Apply(old(model), S.GiveUp(w))
    {
      model := S.Apply(model, S.GiveUp(w));
    }

    method Leave(ghost h: Safety.Hist, ghost w: nat)
      requires Valid() && Safety.Inv(model, h) && w < |model.workers| && model.workers[w].stage.Leaving?
      modifies `workersCh, `model
      ensures Valid() && S.Enabled(old(model), S.Leave(w)) && model == S.Apply(old(model), S.Leave(w))
      ensures workersCh == old(workersCh) - 1
    {
      CanLeave(model, h, w);
      workersCh := workersCh - 1;
      model := S.Apply(model, S.Leave(w));
    }

    /** The response joins the queue of its connection, or is dropped if that is full until the connection stops. */
    method Post(ghost s0: S.Server, ghost run: seq<S.SStep>, ghost h: Safety.Hist, ghost w: nat, m: Message, conn: Connection)
      returns (ghost run': seq<S.SStep>, ghost h': Safety.Hist)
      requires Valid() && Safety.Inv(model, h) && Runs.Legal(s0, run) && Runs.After(s0, run) == model
      requires S.WorkerAt(model, w) && model.workers[w].stage.Replying? && model.workers[w].k < |conns|
      requires Owns(m) && model.workers[w].m == m.ref && conn == conns[model.workers[w].k]
      modifies `model, conn
      ensures Valid() && Safety.Inv(model, h') && Runs.Legal(s0, run') && Runs.After(s0, run') == model
      ensures w < |model.workers| && model.workers[w].stage.Leaving?
      ensures conn.responsesChan == old(conn.responsesChan) + if |old(conn.responsesChan)| < PendingResponses then [m] else []
    {
      ghost var s := model;
      Replied(s, w);
      assert |conn.responsesChan| == |s.conns[s.workers[w].k].responses|;
      hide S.Enabled, S.Apply, S.DoAnswer, S.WorkerAt, Safety.Inv, Runs.Legal, Runs.After, Holds, Queues, Pools;
      if |conn.responsesChan| < PendingResponses {
        Answer(w, m, conn);
        run', h' := Advance(s0, run, s, h, S.Answer(w));
      } else {
        GiveUp(w);
        run', h' := Advance(s0, run, s, h, S.GiveUp(w));
      }
    }

    /** And the goroutine is over. */
    method Reply(ghost s0: S.Server, ghost run: seq<S.SStep>, ghost h: Safety.Hist, ghost w: nat, m: Message, conn: Connection)
      returns (ghost run': seq<S.SStep>, ghost h': Safety.Hist)
      requires Valid() && Safety.Inv(model, h) && Runs.Legal(s0, run) && Runs.After(s0, run) == model
      requires S.WorkerAt(model, w) && model.workers[w].stage.Replying? && model.workers[w].k < |conns|
      requires Owns(m) && model.workers[w].m == m.ref && conn == conns[model.workers[w].k]
      modifies `workersCh, `model, conn
      ensures Valid() && Safety.Inv(model, h') && Runs.Legal(s0, run') && Runs.After(s0, run') == model
      ensures workersCh == old(workersCh) - 1 && w < |model.workers| && model.workers[w].stage.Gone?
      ensures conn.responsesChan == old(conn.responsesChan) + if |old(conn.responsesChan)| < PendingResponses then [m] else []
    {
      hide S.Enabled, S.Apply, S.WorkerAt, Safety.Inv, Runs.Legal, Runs.After, Holds, Queues, Pools;
      run', h' := Post(s0, run, h, w, m, conn);
      ghost var t := model;
      Leave(h', w);
      Left(t, w);
      run', h' := Advance(s0, run', t, h', S.Leave(w));
    }

    /** The request is taken out of its message, dispatched, and answered in the same message. */
    method Process<H, F>(handler: Rpc.RpcServer<H, F>, ghost h: Safety.Hist, ghost w: nat, m: Message)
      returns (ghost run: seq<S.SStep>, ghost h': Safety.Hist, ghost code: uint32, ghost body: Slice)
      requires Valid() && Safety.Inv(model, h) && w < |model.workers| && model.workers[w].stage.Begun?
      requires Owns(m) && model.workers[w].m == m.ref
      requires handler.codec == codec && handler.defaultHandler.Keys == model.handlers
      modifies `model, m, handler`handled
      ensures Valid() && Safety.Inv(model, h') && Runs.Legal(old(model), run) && Runs.After(old(model), run) == model
      ensures old(m.Request).Some? && old(m.ClientAddr) == Some(old(model.workers[w].k))
      ensures m.Request == None && m.ClientAddr == None && m.Response.Some?
      ensures S.Answers(handler.defaultHandler.Keys, old(m.Request).value, code, body, m.Response.value)
      ensures handler.handled == old(handler.handled) + handler.Calls(old(m.ClientAddr), old(m.Request).value, code, body)
      ensures S.WorkerAt(model, w) && model.workers[w] == old(model.workers[w]).(stage := S.Replying)
    {
      ghost var s0 := model;
      CanBegin(s0, h, w);
      Calm(s0, h);
      assert m.Cell() == s0.heap[m.ref];
      hide S.Enabled, S.Apply, S.DoBegin, S.DoHandle, S.WorkerAt, Safety.Inv, Runs.Legal, Runs.After, Holds, Queues, Pools, S.Answers;
      var req, clientAddr := Begin(w, m);
      run, h' := Advance(s0, [], s0, h, S.Begin(w));
      ghost var s1 := model;
      code, body := Handle(w, m, handler, clientAddr, req.value);
      CanReply(s1, w, code, body);
      run, h' := Advance(s0, run, s1, h', S.Handle(w, code, body));
    }

    /**
     `serverRequest` with nobody in between: from the machine's invariant alone it finds its request, has the handler of
     its command called once, and has its token to give back; the answer joins its own connection's queue, unless that is
     full.
     */
    method ServerRequest<H, F>(handler: Rpc.RpcServer<H, F>, ghost h: Safety.Hist, ghost w: nat, m: Message, conn: Connection)
      returns (ghost run: seq<S.SStep>, ghost h': Safety.Hist, ghost code: uint32, ghost body: Slice)
      requires Valid() && Safety.Inv(model, h) && w < |model.workers| && model.workers[w].stage.Begun?
      requires Owns(m) && model.workers[w].m == m.ref && model.workers[w].k < |conns| && conn == conns[model.workers[w].k]
      requires handler.codec == codec && handler.defaultHandler.Keys == model.handlers
      modifies `workersCh, `model, conn, m, handler`handled
      ensures Valid() && Safety.Inv(model, h')
      ensures Runs.Legal(old(model), run) && model == Runs.After(old(model), run)
      ensures old(m.Request).Some? && old(m.ClientAddr) == Some(old(model.workers[w].k))
      ensures m.Request == None && m.ClientAddr == None && m.Response.Some?
      ensures S.Answers(handler.defaultHandler.Keys, old(m.Request).value, code, body, m.Response.value)
      ensures handler.handled == old(handler.handled) + handler.Calls(old(m.ClientAddr), old(m.Request).value, code, body)
      ensures conn.responsesChan == old(conn.responsesChan) + if |old(conn.responsesChan)| < PendingResponses then [m] else []
      ensures workersCh == old(workersCh) - 1 && w < |model.workers| && model.workers[w].stage.Gone?
    {
      hide S.Enabled, S.Apply, S.WorkerAt, Safety.Inv, Runs.Legal, Runs.After, Holds, Queues, Pools, S.Answers;
      ghost var s0 := model;
      run, h', code, body := Process(handler, h, w, m);
      run, h' := Reply(s0, run, h', w, m, conn);
    }

    // ----- the writer

    method Dequeue(ghost k: nat, conn: Connection) returns (m: Message)
      requires Valid() && k < |conns| && conn == conns[k] && conn.responsesChan != []
      modifies `model, conn
      ensures Valid() && Owns(m) && m.ref == old(model.conns[k].responses)[0]
      ensures m == old(conn.responsesChan)[0] && conn.responsesChan == old(conn.responsesChan)[1..]
      ensures model == old(model).(conns := old(model.conns)[k := old(model.conns[k]).(responses := old(model.conns[k].responses)[1..])])
    {
      hide Refs;
      m := conn.responsesChan[0];
      RefsTail(conn.responsesChan);
      assert forall x <- conn.responsesChan[1..] :: x in conn.responsesChan;
      conn.responsesChan := conn.responsesChan[1..];
      model := model.(conns := model.conns[k := model.conns[k].(responses := model.conns[k].responses[1..])]);
    }

    /** The response is taken out of the message and the message given back before the response is encoded. */
    method GiveBack(m: Message) returns (rsp: Option<Packet>)
      requires Valid() && Owns(m)
      modifies `serverMessagePool, `model, m`Response
      ensures Valid() && rsp == old(m.Response) == old(model.heap[m.ref].response)
      ensures m.Response == None && serverMessagePool == old(serverMessagePool) + [m]
      ensures model == old(model).(heap := old(model.heap)[m.ref := old(model.heap[m.ref]).(response := None)],
                                   pool := old(model.pool) + multiset{m.ref})
    {
      assert messages[m.ref].Cell() == model.heap[m.ref];
      rsp := m.Response;
      m.Response := None;
      RefsPush(serverMessagePool, m);
      serverMessagePool := serverMessagePool + [m];
      model := model.(heap := model.heap[m.ref := m.Cell()], pool := model.pool + multiset{m.ref});
    }

    method TakeResponse(ghost k: nat, conn: Connection) returns (rsp: Option<Packet>)
      requires Valid() && !model.panicked && k < |conns| && conn == conns[k] && model.conns[k].writer.Waiting? && conn.responsesChan != []
      modifies `serverMessagePool, `model, conn, conn.responsesChan
      ensures Valid() && S.Enabled(old(model), S.TakeResponse(k)) && model == S.DoTakeResponse(old(model), k) && model.conns[k].writer == S.Sending(rsp)
      ensures conn.responsesChan == old(conn.responsesChan)[1..] && rsp == old(conn.responsesChan[0].Response)
      ensures serverMessagePool == old(serverMessagePool) + [old(conn.responsesChan)[0]] && old(conn.responsesChan)[0].Response == None
    {
      assert Refs(conn.responsesChan) == model.conns[k].responses;
      var m := Dequeue(k, conn);
      rsp := GiveBack(m);
      model := model.(conns := model.conns[k := model.conns[k].(writer := S.Sending(rsp))]);
    }

    lemma EncodeIs(k: nat, rsp: Option<Packet>)
      requires Valid() && !model.panicked && k < |model.conns| && model.conns[k].writer == S.Sending(rsp)
      ensures S.Enabled(model, S.SendResponse(k))
      ensures var ok := rsp.Some? && Encodable(codec, rsp.value);
              S.Apply(model, S.SendResponse(k))
              == model.(conns := model.conns[k := model.conns[k].(writer := if ok then S.Waiting else S.WriterDone)])
    {
    }

    ghost method MoveWriter(k: nat, w: S.SWriter)
      requires Valid() && k < |model.conns|
      modifies `model
      ensures Valid() && model == old(model).(conns := old(model.conns)[k := old(model.conns[k]).(writer := w)])
    {
      model := model.(conns := model.conns[k := model.conns[k].(writer := w)]);
    }

    /** `enc.Encode(rsp)`: the bytes of the response, or none, and then the writer ends. */
    method Encode(ghost k: nat, rsp: Option<Packet>, bw: BufWriter) returns (ok: bool)
      requires Valid() && !model.panicked && k < |model.conns| && model.conns[k].writer == S.Sending(rsp)
      modifies `model, bw
      ensures Valid() && S.Enabled(old(model), S.SendResponse(k)) && model == S.Apply(old(model), S.SendResponse(k))
      ensures ok <==> rsp.Some? && Encodable(codec, rsp.value)
      ensures bw.data == old(bw.data) + if ok then Wire(rsp.value) else []
      ensures model.conns[k].writer == if ok then S.Waiting else S.WriterDone
    {
      hide Wire, LaidOut, Holds, Queues, Pools, S.Apply, S.Enabled;
      EncodeIs(k, rsp);
      ok := false;
      if rsp.Some? {
        if codec.RpcCodec? {
          ok := EncodeRpc(bw, rsp.value);
        } else {
          ok := EncodeDog(bw, rsp.value);
        }
      }
      MoveWriter(k, if ok then S.Waiting else S.WriterDone);
    }

    // ----- one request from its connection's reader to its writer

    /** A decoded request in a message, and a worker for it. */
    method Admit(ghost h: Safety.Hist, k: nat, req: Packet) returns (m: Message, ghost w: nat, ghost run: seq<S.SStep>,
                 ghost h': Safety.Hist)
      requires Valid() && Safety.Inv(model, h) && k < |model.conns| && model.conns[k].reader.Reading? && workersCh < Concurrency
      modifies `serverMessagePool, `messages, `workersCh, `model, serverMessagePool
      ensures Valid() && Safety.Inv(model, h') && Runs.Legal(old(model), run) && Runs.After(old(model), run) == model
      ensures Owns(m) && (m in old(serverMessagePool) || fresh(m)) && m.Request == Some(req)
      ensures w < |model.workers| && model.workers[w] == S.Worker(k, m.ref, S.Begun)
      ensures workersCh == old(workersCh) + 1 && model.handlers == old(model.handlers)
      ensures k < |model.conns| && model.conns[k] == old(model.conns[k])
    {
      ghost var s0 := model;
      hide Safety.Inv, Queues, Pools, Holds, Owns, S.Enabled, S.Apply, S.DoReceive, S.DoSpawn, Runs.Legal, Runs.After;
      Calm(s0, h);
      m := Receive(k, req);
      CanSpawn(s0, k, req, m.ref);
      run, h' := Advance(s0, [], s0, h, S.Receive(k, req, m.ref));
      ghost var s1 := model;
      w := Spawn(k);
      run, h' := Advance(s0, run, s1, h', S.Spawn(k));
    }
  }

  lemma Calm(s: S.Server, h: Safety.Hist)
    requires Safety.Inv(s, h)
    ensures !s.panicked && Runs.Legal(s, []) && Runs.After(s, []) == s
  {
  }

  lemma CanSpawn(s: S.Server, k: nat, p: Packet, m: S.MsgRef)
    requires S.Enabled(s, S.Receive(k, p, m)) && s.tokens < s.concurrency
    ensures var t := S.Apply(s, S.Receive(k, p, m));
            && t == S.DoReceive(s, k, p, m) && S.Enabled(t, S.Spawn(k)) && m < |t.heap| && t.heap[m].request == Some(p)
            && var u := S.Apply(t, S.Spawn(k));
               && u == S.DoSpawn(t, k) && |u.workers| == |t.workers| + 1 && u.workers[|t.workers|] == S.Worker(k, m, S.Begun)
               && u.handlers == s.handlers && u.tokens == s.tokens + 1 && |u.conns| == |s.conns| && u.conns[k] == s.conns[k].(reader := S.Reading)
  {
  }
}
