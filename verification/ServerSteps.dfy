/**
 The server half of net/dogrpc as a state machine: one semaphore of worker tokens and one pool of messages for
 all connections, and for every connection a reader, its workers, a bounded response queue and a writer.
 Steps are cut as in ClientSteps; message pointers are indices into `heap`.
 */
module ServerSteps {
  import opened Wrappers
  import opened Bytes
  import opened Encoding

  const INVALID_PARAM: uint32 := 10004

  type MsgRef = nat

  datatype ServerMessage = ServerMessage(request: Option<Packet>, response: Option<Packet>, clientAddr: Option<nat>)

  datatype Reader = Reading | Holding(m: MsgRef) | ReaderDone

  datatype SWriter = Waiting | Sending(rsp: Option<Packet>) | WriterDone

  datatype SConn = SConn(reader: Reader, responses: seq<MsgRef>, writer: SWriter)

  /** Where one `serverRequest` goroutine stands. */
  datatype Stage = Begun | Running(req: Option<Packet>, clientAddr: Option<nat>) | Replying | Leaving | Gone

  datatype Worker = Worker(k: nat, m: MsgRef, stage: Stage)

  datatype Server = Server(codec: Codec, handlers: set<uint32>, concurrency: nat, pendingResponses: nat,
                           heap: seq<ServerMessage>, pool: multiset<MsgRef>, conns: seq<SConn>,
                           workers: seq<Worker>, tokens: nat, panicked: bool)

  datatype SStep =
    | Accept
    | Receive(k: nat, p: Packet, m: MsgRef)
    | Spawn(k: nat)
    | ReaderQuit(k: nat)
    | Begin(w: nat)
    | Handle(w: nat, code: uint32, body: Slice)
    | Answer(w: nat)
    | GiveUp(w: nat)
    | Leave(w: nat)
    | TakeResponse(k: nat)
    | SendResponse(k: nat)
    | WriterQuit(k: nat)

  /** A caller is told that its command is unknown if no handler has it, else just what the handler returned. */
  ghost predicate Answers(handlers: set<uint32>, req: Packet, code: uint32, body: Slice, rsp: Packet) {
    && rsp.ID() == req.ID() && rsp.Cmd() == req.Cmd()
    && (req.Cmd() in handlers ==> rsp.ErrCode() == code && rsp.Body() == body)
    && (req.Cmd() !in handlers ==> rsp.ErrCode() == INVALID_PARAM && rsp.Body() == Data([]))
  }

  /**
   `dispatchPacket` and `dogDispatchPacket`: the answer carries the request's Cmd and Seq, and is an
   InvalidParam without a handler, else whatever code and body the handler returned.
   */
  function Dispatch(codec: Codec, handlers: set<uint32>, req: Packet, code: uint32, body: Slice): (rsp: Packet)
    ensures Answers(handlers, req, code, body, rsp)
  {
    if req.Cmd() !in handlers then NewPacket(codec, req.Cmd(), Data([]), req.ID(), INVALID_PARAM)
    else NewPacket(codec, req.Cmd(), body, req.ID(), code)
  }

  predicate WorkerAt(s: Server, w: nat) {
    w < |s.workers| && s.workers[w].m < |s.heap|
  }

  predicate Enabled(s: Server, l: SStep) {
    && !s.panicked
    && match l
       case Accept => true
       case Receive(k, _, m) =>
         && k < |s.conns| && s.conns[k].reader.Reading?
         && (m == |s.heap| || (m < |s.heap| && m in s.pool))
       case Spawn(k) => k < |s.conns| && s.conns[k].reader.Holding? && s.tokens < s.concurrency
       case ReaderQuit(k) => k < |s.conns|
       case Begin(w) => WorkerAt(s, w) && s.workers[w].stage.Begun?
       case Handle(w, _, _) => WorkerAt(s, w) && s.workers[w].stage.Running?
       case Answer(w) =>
         && WorkerAt(s, w) && s.workers[w].stage.Replying? && s.workers[w].k < |s.conns|
         && |s.conns[s.workers[w].k].responses| < s.pendingResponses
       case GiveUp(w) => WorkerAt(s, w) && s.workers[w].stage.Replying?
       case Leave(w) => WorkerAt(s, w) && s.workers[w].stage.Leaving? && s.tokens > 0
       case TakeResponse(k) =>
         && k < |s.conns| && s.conns[k].writer.Waiting? && s.conns[k].responses != []
         && s.conns[k].responses[0] < |s.heap|
       case SendResponse(k) => k < |s.conns| && s.conns[k].writer.Sending?
       case WriterQuit(k) => k < |s.conns|
  }

  function SetStage(s: Server, w: nat, stage: Stage): Server
    requires w < |s.workers|
  {
    s.(workers := s.workers[w := s.workers[w].(stage := stage)])
  }

  function DoReceive(s: Server, k: nat, p: Packet, m: MsgRef): Server
    requires Enabled(s, Receive(k, p, m))
  {
    var was := if m < |s.heap| then s.heap[m] else ServerMessage(None, None, None);
    var cell := was.(request := Some(p), clientAddr := Some(k));
    s.(heap := if m < |s.heap| then s.heap[m := cell] else s.heap + [cell],
       pool := if m < |s.heap| then s.pool - multiset{m} else s.pool,
       conns := s.conns[k := s.conns[k].(reader := Holding(m))])
  }

  function DoSpawn(s: Server, k: nat): Server
    requires Enabled(s, Spawn(k))
  {
    s.(tokens := s.tokens + 1,
       workers := s.workers + [Worker(k, s.conns[k].reader.m, Begun)],
       conns := s.conns[k := s.conns[k].(reader := Reading)])
  }

  function DoBegin(s: Server, w: nat): Server
    requires Enabled(s, Begin(w))
  {
    var m := s.workers[w].m;
    var cell := s.heap[m];
    SetStage(s.(heap := s.heap[m := cell.(request := None, clientAddr := None)]), w, Running(cell.request, cell.clientAddr))
  }

  function DoHandle(s: Server, w: nat, code: uint32, body: Slice): Server
    requires Enabled(s, Handle(w, code, body))
  {
    var m := s.workers[w].m;
    match s.workers[w].stage.req
    case None => s.(panicked := true)
    case Some(req) =>
      var rsp := Dispatch(s.codec, s.handlers, req, code, body);
      SetStage(s.(heap := s.heap[m := s.heap[m].(response := Some(rsp))]), w, Replying)
  }

  function DoAnswer(s: Server, w: nat): Server
    requires Enabled(s, Answer(w))
  {
    var k := s.workers[w].k;
    SetStage(s.(conns := s.conns[k := s.conns[k].(responses := s.conns[k].responses + [s.workers[w].m])]), w, Leaving)
  }

  function DoTakeResponse(s: Server, k: nat): Server
    requires Enabled(s, TakeResponse(k))
  {
    var m := s.conns[k].responses[0];
    s.(conns := s.conns[k := s.conns[k].(responses := s.conns[k].responses[1..], writer := Sending(s.heap[m].response))],
       heap := s.heap[m := s.heap[m].(response := None)],
       pool := s.pool + multiset{m})
  }

  /** The response an Encode call writes, if the encoder accepts it. */
  function SEmits(s: Server, k: nat): Option<Packet>
    requires k < |s.conns| && s.conns[k].writer.Sending?
  {
    match s.conns[k].writer.rsp
    case None => None
    case Some(p) => if Encodable(s.codec, p) then Some(p) else None
  }

  function Apply(s: Server, l: SStep): Server
    requires Enabled(s, l)
  {
    match l
    case Accept => s.(conns := s.conns + [SConn(Reading, [], Waiting)])
    case Receive(k, p, m) => DoReceive(s, k, p, m)
    case Spawn(k) => DoSpawn(s, k)
    case ReaderQuit(k) => s.(conns := s.conns[k := s.conns[k].(reader := ReaderDone)])
    case Begin(w) => DoBegin(s, w)
    case Handle(w, code, body) => DoHandle(s, w, code, body)
    case Answer(w) => DoAnswer(s, w)
    case GiveUp(w) => SetStage(s, w, Leaving)
    case Leave(w) => SetStage(s, w, Gone).(tokens := s.tokens - 1)
    case TakeResponse(k) => DoTakeResponse(s, k)
    case SendResponse(k) => s.(conns := s.conns[k := s.conns[k].(writer := if SEmits(s, k).Some? then Waiting else WriterDone)])
    case WriterQuit(k) => s.(conns := s.conns[k := s.conns[k].(writer := WriterDone)])
  }

  function Start(codec: Codec, handlers: set<uint32>, concurrency: nat, pendingResponses: nat): Server {
    Server(codec, handlers, concurrency, pendingResponses, [], multiset{}, [], [], 0, false)
  }
}
