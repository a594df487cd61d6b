/**
 Client, server and the byte streams between them, on any number of connections.

 `c2s[k]` and `s2c[k]` hold the bytes written to connection `k` and not yet decoded. A decoder may run at any
 moment; it succeeds once the bytes of a whole packet are there. A writer that fails may leave any part of its
 packet behind. Requests are constructor-built packets of this codec, and bodies stay below 2^32 - 24 bytes.
 */
module RpcSystem {
  import opened Wrappers
  import opened Bytes
  import opened Encoding
  import C = ClientSteps
  import CS = ClientSafety
  import S = ServerSteps
  import SS = ServerSafety

  type Stream = seq<byte>

  datatype System = System(client: C.Client, server: S.Server, c2s: seq<Stream>, s2c: seq<Stream>)

  datatype Move =
    | Dial
    | OfClient(l: C.Step)
    | OfServer(r: S.SStep)
    | ClientWrites(k: nat)
    | ClientBreaks(k: nat, n: nat)
    | ServerReads(k: nat, m: S.MsgRef)
    | ServerWrites(k: nat)
    | ServerBreaks(k: nat, n: nat)
    | ClientReads(k: nat)

  predicate Shaped(y: System) {
    |y.c2s| == |y.s2c| == |y.client.conns| == |y.server.conns|
  }

  /** The packet a stream's decoder would deliver now. */
  function Head(codec: Codec, s: Stream): Option<Packet> {
    if Decode(codec, s).result.Ok? then Some(Decode(codec, s).result.value) else None
  }

  ghost predicate Enabled(y: System, a: Move) {
    && Shaped(y)
    && match a
       case Dial => C.Enabled(y.client, C.Connect) && S.Enabled(y.server, S.Accept)
       case OfClient(l) =>
         && !l.Connect? && !l.WriterEncode? && !l.ReaderDeliver? && C.Enabled(y.client, l)
         && (l.Invoke? ==> Sendable(y.client.codec, l.req))
       case OfServer(l) =>
         && !l.Accept? && !l.Receive? && !l.SendResponse? && S.Enabled(y.server, l)
         && (l.Handle? ==> |l.body.Content()| + DOG_HEADER_LEN < TWO_32)
       case ClientWrites(k) => C.Enabled(y.client, C.WriterEncode(k))
       case ClientBreaks(k, n) =>
         && C.Enabled(y.client, C.WriterStop(k))
         && C.Enabled(y.client, C.WriterEncode(k)) && C.Emits(y.client, k).Some?
         && n <= |Wire(C.Emits(y.client, k).value)|
       case ServerReads(k, m) =>
         && k < |y.c2s| && Head(y.server.codec, y.c2s[k]).Some?
         && S.Enabled(y.server, S.Receive(k, Head(y.server.codec, y.c2s[k]).value, m))
       case ServerWrites(k) => S.Enabled(y.server, S.SendResponse(k))
       case ServerBreaks(k, n) =>
         && S.Enabled(y.server, S.SendResponse(k)) && S.SEmits(y.server, k).Some?
         && n <= |Wire(S.SEmits(y.server, k).value)|
       case ClientReads(k) =>
         && k < |y.s2c| && Head(y.client.codec, y.s2c[k]).Some?
         && C.Enabled(y.client, C.ReaderDeliver(k, Head(y.client.codec, y.s2c[k]).value))
  }

  function OptWire(p: Option<Packet>): Stream {
    if p.Some? then Wire(p.value) else []
  }

  ghost function Apply(y: System, a: Move): System
    requires Enabled(y, a)
  {
    match a
    case Dial =>
      System(C.Apply(y.client, C.Connect), S.Apply(y.server, S.Accept), y.c2s + [[]], y.s2c + [[]])
    case OfClient(l) => y.(client := C.Apply(y.client, l))
    case OfServer(l) => y.(server := S.Apply(y.server, l))
    case ClientWrites(k) =>
      y.(client := C.Apply(y.client, C.WriterEncode(k)), c2s := y.c2s[k := y.c2s[k] + OptWire(C.Emits(y.client, k))])
    case ClientBreaks(k, n) =>
      y.(client := C.Apply(y.client, C.WriterStop(k)), c2s := y.c2s[k := y.c2s[k] + Wire(C.Emits(y.client, k).value)[..n]])
    case ServerReads(k, m) =>
      y.(server := S.Apply(y.server, S.Receive(k, Head(y.server.codec, y.c2s[k]).value, m)),
         c2s := y.c2s[k := Decode(y.server.codec, y.c2s[k]).rest])
    case ServerWrites(k) =>
      y.(server := S.Apply(y.server, S.SendResponse(k)), s2c := y.s2c[k := y.s2c[k] + OptWire(S.SEmits(y.server, k))])
    case ServerBreaks(k, n) =>
      y.(server := S.Apply(y.server, S.WriterQuit(k)), s2c := y.s2c[k := y.s2c[k] + Wire(S.SEmits(y.server, k).value)[..n]])
    case ClientReads(k) =>
      y.(client := C.Apply(y.client, C.ReaderDeliver(k, Head(y.client.codec, y.s2c[k]).value)),
         s2c := y.s2c[k := Decode(y.client.codec, y.s2c[k]).rest])
  }

  // ----- runs

  ghost predicate Legal(y: System, run: seq<Move>)
    decreases |run|, 0
  {
    run == [] || (Legal(y, run[..|run| - 1]) && Enabled(After(y, run[..|run| - 1]), run[|run| - 1]))
  }

  ghost function After(y: System, run: seq<Move>): System
    requires Legal(y, run)
    decreases |run|, 1
  {
    if run == [] then y else Apply(After(y, run[..|run| - 1]), run[|run| - 1])
  }

  function Start(codec: Codec, pendingRequests: nat, handlers: set<uint32>, concurrency: nat, pendingResponses: nat): System {
    System(C.Start(codec, pendingRequests), S.Start(codec, handlers, concurrency, pendingResponses), [], [])
  }

  /** A request that was dispatched, and what its handler returned, if it has one. */
  datatype Dispatching = Dispatching(req: Packet, code: uint32, body: Slice)

  ghost function Served(y: System, a: Move): set<Dispatching>
    requires Enabled(y, a)
  {
    if a.OfServer? && a.r.Handle? && y.server.workers[a.r.w].stage.req.Some? then
      {Dispatching(y.server.workers[a.r.w].stage.req.value, a.r.code, a.r.body)}
    else {}
  }

  /** All requests dispatched so far. */
  ghost function Log(y: System, run: seq<Move>): set<Dispatching>
    requires Legal(y, run)
  {
    if run == [] then {} else Log(y, run[..|run| - 1]) + Served(After(y, run[..|run| - 1]), run[|run| - 1])
  }

  /** Each of them with its answer. */
  ghost function AnswersIn(s: S.Server, log: set<Dispatching>): set<(Packet, Packet)> {
    set d | d in log :: (d.req, S.Dispatch(s.codec, s.handlers, d.req, d.code, d.body))
  }

  lemma AnswersJoin(s: S.Server, s': S.Server, log: set<Dispatching>, more: set<Dispatching>)
    requires s'.codec == s.codec && s'.handlers == s.handlers
    ensures AnswersIn(s', log + more) == AnswersIn(s, log) + AnswersIn(s, more)
  {
  }

  lemma ServerStays(y: System, a: Move)
    requires Enabled(y, a)
    ensures Apply(y, a).server.codec == y.server.codec && Apply(y, a).server.handlers == y.server.handlers
  {
  }

  // ----- the invariant over both halves and the wires

  /** `up[k]` and `down[k]` are the packets whose encodings the undecoded bytes are a prefix of. */
  datatype Hist = Hist(ch: CS.Hist, sh: SS.Hist, up: seq<seq<Packet>>, down: seq<seq<Packet>>)

  ghost predicate IsAsked(g: Hist, p: Packet) {
    exists q :: q in g.ch.asked && p == q.Received()
  }

  ghost predicate IsAnswer(g: Hist, p: Packet) {
    exists e :: e in g.sh.log && e.1 == p
  }

  ghost predicate IsReceivedAnswer(g: Hist, p: Packet) {
    exists e :: e in g.sh.log && e.1.Received() == p
  }

  ghost predicate StreamOk(codec: Codec, s: Stream, ps: seq<Packet>, open: bool) {
    && (forall p :: p in ps ==> Sendable(codec, p))
    && s <= WireAll(ps)
    && (open ==> s == WireAll(ps))
  }

  ghost predicate WireOk(y: System, g: Hist, k: nat)
    requires Shaped(y) && k < |y.c2s| && |g.up| == |g.down| == |y.c2s|
  {
    && StreamOk(y.client.codec, y.c2s[k], g.up[k], !y.client.conns[k].writer.Stopped?)
    && StreamOk(y.client.codec, y.s2c[k], g.down[k], !y.server.conns[k].writer.WriterDone?)
    && (forall p :: p in g.up[k] ==> p in g.ch.asked)
    && (forall p :: p in g.down[k] ==> IsAnswer(g, p))
  }

  ghost predicate Wires(y: System, g: Hist) {
    && Shaped(y) && |g.up| == |g.down| == |y.c2s|
    && forall k :: 0 <= k < |y.c2s| ==> WireOk(y, g, k)
  }

  /** Everything on the server's side was asked for, and everything on the client's side was answered. */
  ghost predicate Genuine(y: System, g: Hist) {
    && (forall p :: p in g.ch.asked ==> Sendable(y.client.codec, p))
    && (forall e :: e in g.sh.log ==> Sendable(y.client.codec, e.1) && IsAsked(g, e.0))
    && (forall k, i :: 0 <= k < |g.sh.decoded| && 0 <= i < |g.sh.decoded[k]| ==> IsAsked(g, g.sh.decoded[k][i]))
    && (forall p :: p in g.ch.delivered ==> IsReceivedAnswer(g, p))
  }

  ghost predicate Inv(y: System, g: Hist) {
    && y.client.codec == y.server.codec
    && CS.Inv(y.client, g.ch) && SS.Inv(y.server, g.sh)
    && Wires(y, g) && Genuine(y, g)
  }

  /** More has been asked, dispatched or delivered, and it is as good as what there was. */
  ghost predicate Grows(g: Hist, g': Hist) {
    g.ch.asked <= g'.ch.asked && g.sh.log <= g'.sh.log
  }

  lemma AskedGrows(g: Hist, g': Hist, p: Packet)
    requires Grows(g, g') && IsAsked(g, p)
    ensures IsAsked(g', p)
  {
    var q :| q in g.ch.asked && p == q.Received();
    assert q in g'.ch.asked;
  }

  lemma AnswerGrows(g: Hist, g': Hist, p: Packet)
    requires Grows(g, g')
    ensures IsAnswer(g, p) ==> IsAnswer(g', p)
    ensures IsReceivedAnswer(g, p) ==> IsReceivedAnswer(g', p)
  {
    if IsAnswer(g, p) {
      var e :| e in g.sh.log && e.1 == p;
      assert e in g'.sh.log;
    }
    if IsReceivedAnswer(g, p) {
      var e :| e in g.sh.log && e.1.Received() == p;
      assert e in g'.sh.log;
    }
  }

  /** Connections other than `k` keep their wires. */
  lemma WiresStay(y: System, y': System, g: Hist, g': Hist, k: int)
    requires Wires(y, g) && Shaped(y') && |y'.c2s| == |y.c2s| == |g'.up| == |g'.down| && Grows(g, g')
    requires y'.client.codec == y.client.codec
    requires forall x :: 0 <= x < |y.c2s| && x != k ==>
               && y'.c2s[x] == y.c2s[x] && y'.s2c[x] == y.s2c[x] && g'.up[x] == g.up[x] && g'.down[x] == g.down[x]
               && (y'.client.conns[x].writer.Stopped? || !y.client.conns[x].writer.Stopped?)
               && (y'.server.conns[x].writer.WriterDone? || !y.server.conns[x].writer.WriterDone?)
    requires 0 <= k < |y.c2s| ==> WireOk(y', g', k)
    ensures Wires(y', g')
  {
    forall x | 0 <= x < |y'.c2s|
      ensures WireOk(y', g', x)
    {
      if x != k {
        assert WireOk(y, g, x);
        forall p | p in g.down[x]
          ensures IsAnswer(g', p)
        {
          AnswerGrows(g, g', p);
        }
      }
    }
  }

  /** A client step can only stop writers. */
  lemma ClientWriters(s: C.Client, l: C.Step)
    requires C.Enabled(s, l)
    ensures var s' := C.Apply(s, l);
      && s'.codec == s.codec
      && |s'.conns| == |s.conns| + (if l.Connect? then 1 else 0)
      && forall x :: 0 <= x < |s.conns| ==> s.conns[x].writer.Stopped? ==> s'.conns[x].writer.Stopped?
  {
    hide C.Apply;
    match l
    case Invoke(_, _) => CallerWriters(s, l);
    case Acquire(_, _) => CallerWriters(s, l);
    case TrySend(_) => CallerWriters(s, l);
    case EvictOldest(_) => CallerWriters(s, l);
    case Resend(_) => CallerWriters(s, l);
    case Complete(_) => CallerWriters(s, l);
    case Expire(_) => CallerWriters(s, l);
    case Cancel(_) => CallerWriters(s, l);
    case ReaderDeliver(_, _) => ReaderWriters(s, l);
    case ReaderStop(_) => ReaderWriters(s, l);
    case TeardownOne(_, _, _) => ReaderWriters(s, l);
    case _ => OwnWriters(s, l);
  }

  lemma ReaderWriters(s: C.Client, l: C.Step)
    requires C.Enabled(s, l) && (l.ReaderDeliver? || l.ReaderStop? || l.TeardownOne?)
    ensures var s' := C.Apply(s, l);
      && s'.codec == s.codec && |s'.conns| == |s.conns|
      && forall x :: 0 <= x < |s.conns| ==> s'.conns[x].writer == s.conns[x].writer
  {
  }

  lemma OwnWriters(s: C.Client, l: C.Step)
    requires C.Enabled(s, l)
    requires l.Connect? || l.WriterTake? || l.WriterCheck? || l.WriterFile? || l.WriterSweep? || l.WriterRecount? || l.WriterEncode?
             || l.WriterStop?
    ensures var s' := C.Apply(s, l);
      && s'.codec == s.codec
      && |s'.conns| == |s.conns| + (if l.Connect? then 1 else 0)
      && forall x :: 0 <= x < |s.conns| ==> s.conns[x].writer.Stopped? ==> s'.conns[x].writer.Stopped?
  {
  }

  lemma CallerWriters(s: C.Client, l: C.Step)
    requires C.Enabled(s, l)
    requires l.Invoke? || l.Acquire? || l.TrySend? || l.EvictOldest? || l.Resend? || l.Complete? || l.Expire? || l.Cancel?
    ensures C.Apply(s, l).codec == s.codec && C.Apply(s, l).conns == s.conns
  {
  }

  lemma ServerWriters(s: S.Server, l: S.SStep)
    requires S.Enabled(s, l)
    ensures var s' := S.Apply(s, l);
      && s'.codec == s.codec && s'.handlers == s.handlers
      && |s'.conns| == |s.conns| + (if l.Accept? then 1 else 0)
      && forall x :: 0 <= x < |s.conns| ==> s.conns[x].writer.WriterDone? ==> s'.conns[x].writer.WriterDone?
  {
  }

  lemma Aligned(y: System, g: Hist)
    requires Inv(y, g)
    ensures |g.up| == |g.down| == |y.c2s| == |g.sh.decoded| == |g.sh.answered|
  {
  }

  // ----- every move keeps it

  /** Connections there before are as they were, and the new one is idle on both sides. */
  lemma DialAdds(y: System, g: Hist)
    requires Inv(y, g) && Enabled(y, Dial)
    ensures C.Enabled(y.client, C.Connect) && S.Enabled(y.server, S.Accept)
    ensures var y' := Apply(y, Dial);
            && y'.client == C.Apply(y.client, C.Connect) && y'.server == S.Apply(y.server, S.Accept)
            && y'.c2s == y.c2s + [[]] && y'.s2c == y.s2c + [[]]
            && y'.client.codec == y.client.codec && y'.server.codec == y.server.codec
            && Shaped(y') && y.client.conns <= y'.client.conns && y.server.conns <= y'.server.conns
  {
  }

  lemma KeepsDial(y: System, g: Hist) returns (g': Hist)
    requires Inv(y, g) && Enabled(y, Dial)
    ensures Inv(Apply(y, Dial), g') && g'.sh.log == g.sh.log && g'.ch.asked == g.ch.asked
  {
    hide CS.Inv, SS.Inv, C.Apply, S.Apply, C.Enabled, S.Enabled, Apply, Enabled, Genuine, IsAnswer, Sendable;
    DialAdds(y, g);
    var y' := Apply(y, Dial);
    var ch := CS.Keeps(y.client, g.ch, C.Connect);
    var sh := SS.Keeps(y.server, g.sh, S.Accept);
    g' := Hist(ch, sh, g.up + [[]], g.down + [[]]);
    forall x | 0 <= x < |y'.c2s|
      ensures WireOk(y', g', x)
    {
      if x < |y.c2s| {
        assert WireOk(y, g, x);
        forall p | p in g.down[x] ensures IsAnswer(g', p) { AnswerGrows(g, g', p); }
      }
    }
    GenuineStays(y, y', g, g');
  }

  /** What was genuine stays so while more is asked and dispatched. */
  lemma GenuineStays(y: System, y': System, g: Hist, g': Hist)
    requires Genuine(y, g) && y'.client.codec == y.client.codec && Grows(g, g')
    requires forall p :: p in g'.ch.asked && p !in g.ch.asked ==> Sendable(y.client.codec, p)
    requires forall e :: e in g'.sh.log && e !in g.sh.log ==> Sendable(y.client.codec, e.1) && IsAsked(g', e.0)
    requires forall k, i :: 0 <= k < |g'.sh.decoded| && 0 <= i < |g'.sh.decoded[k]|
               ==> (k < |g.sh.decoded| && i < |g.sh.decoded[k]| && g'.sh.decoded[k][i] == g.sh.decoded[k][i])
                   || IsAsked(g', g'.sh.decoded[k][i])
    requires forall p :: p in g'.ch.delivered && p !in g.ch.delivered ==> IsReceivedAnswer(g', p)
    ensures Genuine(y', g')
  {
    forall e | e in g'.sh.log
      ensures Sendable(y'.client.codec, e.1) && IsAsked(g', e.0)
    {
      if e in g.sh.log {
        AskedGrows(g, g', e.0);
      }
    }
    forall k, i | 0 <= k < |g'.sh.decoded| && 0 <= i < |g'.sh.decoded[k]|
      ensures IsAsked(g', g'.sh.decoded[k][i])
    {
      if k < |g.sh.decoded| && i < |g.sh.decoded[k]| && g'.sh.decoded[k][i] == g.sh.decoded[k][i] {
        AskedGrows(g, g', g.sh.decoded[k][i]);
      }
    }
    forall p | p in g'.ch.delivered
      ensures IsReceivedAnswer(g', p)
    {
      AnswerGrows(g, g', p);
    }
  }

  lemma KeepsOfClient(y: System, g: Hist, l: C.Step) returns (g': Hist)
    requires Inv(y, g) && Enabled(y, OfClient(l))
    ensures Inv(Apply(y, OfClient(l)), g') && g'.sh.log == g.sh.log
    ensures g'.ch.asked == if l.Invoke? then g.ch.asked + {l.req} else g.ch.asked
  {
    var y' := Apply(y, OfClient(l));
    var ch := CS.Keeps(y.client, g.ch, l);
    g' := g.(ch := ch);
    ClientWriters(y.client, l);
    WiresStay(y, y', g, g', -1);
    GenuineStays(y, y', g, g');
  }

  lemma DispatchIsSendable(codec: Codec, handlers: set<uint32>, req: Packet, code: uint32, body: Slice)
    requires |body.Content()| + DOG_HEADER_LEN < TWO_32
    ensures Sendable(codec, S.Dispatch(codec, handlers, req, code, body))
  {
    var rsp := S.Dispatch(codec, handlers, req, code, body);
    var ret := if req.Cmd() !in handlers then S.INVALID_PARAM else code;
    assert rsp == NewPacket(codec, rsp.Cmd(), rsp.Body(), rsp.ID(), ret);
  }

  lemma KeepsOfServer(y: System, g: Hist, l: S.SStep) returns (g': Hist)
    requires Inv(y, g) && Enabled(y, OfServer(l))
    ensures Inv(Apply(y, OfServer(l)), g')
    ensures g'.ch == g.ch && g'.sh.log == g.sh.log + AnswersIn(y.server, Served(y, OfServer(l)))
  {
    hide CS.Inv, SS.Inv, Wires, WireOk, Genuine, Sendable, S.Apply, C.Apply, C.Enabled;
    var y' := Apply(y, OfServer(l));
    var sh := SS.Keeps(y.server, g.sh, l);
    g' := g.(sh := sh);
    ServerWriters(y.server, l);
    Aligned(y, g);
    WiresStay(y, y', g, g', -1);
    if l.Handle? {
      var req := HandledIsAsked(y, g, l.w);
      DispatchIsSendable(y.server.codec, y.server.handlers, req, l.code, l.body);
      AskedGrows(g, g', req);
    }
    GenuineStays(y, y', g, g');
  }

  /** A worker runs its handler on a request somebody made. */
  lemma HandledIsAsked(y: System, g: Hist, w: nat) returns (req: Packet)
    requires Inv(y, g) && w < |y.server.workers| && y.server.workers[w].stage.Running?
    ensures y.server.workers[w].stage.req == Some(req) && IsAsked(g, req)
  {
    var worker := y.server.workers[w];
    assert SS.WorkerOk(y.server, g.sh, w);
    req := worker.stage.req.value;
    var i := g.sh.own[worker.m].i;
    assert g.sh.decoded[worker.k][i] == req;
  }

  /** A stream after all of a packet has been written to it. */
  lemma StreamTakes(codec: Codec, s: Stream, ps: seq<Packet>, p: Packet, n: nat, open: bool)
    requires StreamOk(codec, s, ps, true) && Sendable(codec, p) && n <= |Wire(p)| && (open ==> n == |Wire(p)|)
    ensures StreamOk(codec, s + Wire(p)[..n], ps + [p], open)
  {
    WireAllAppend(ps, p);
  }

  /** What an Encode call writes was asked for by some call, though not always by the one whose result it was. */
  lemma SentWasAsked(y: System, g: Hist, k: nat)
    requires Inv(y, g) && C.Enabled(y.client, C.WriterEncode(k))
    ensures k < |y.client.conns| && y.client.conns[k].writer.Encoding? && C.InHeap(y.client, y.client.conns[k].writer)
    ensures C.Emits(y.client, k).Some? ==>
              C.Emits(y.client, k).value in g.ch.asked && Sendable(y.client.codec, C.Emits(y.client, k).value)
  {
    assert CS.ConnOk(y.client, g.ch, k);
    assert CS.CellOk(y.client, g.ch, y.client.conns[k].writer.m);
  }

  /** What an Encode call of the server writes was logged. */
  lemma SentWasLogged(y: System, g: Hist, k: nat)
    requires Inv(y, g) && S.Enabled(y.server, S.SendResponse(k))
    ensures k < |y.server.conns| && y.server.conns[k].writer.Sending?
    ensures S.SEmits(y.server, k).Some? ==>
              Sendable(y.client.codec, S.SEmits(y.server, k).value) && IsAnswer(g, S.SEmits(y.server, k).value)
  {
    assert SS.ConnOk(y.server, g.sh, k);
    var sent := S.SEmits(y.server, k);
    if sent.Some? {
      var e := (g.sh.decoded[k][g.sh.inHand[k]], sent.value);
      assert e in g.sh.log && e.1 == sent.value;
    }
  }

  /** Bytes of `p` have gone up connection `k`: all of them, or some and the writer has stopped. */
  lemma WroteUp(y: System, y': System, g: Hist, g': Hist, k: nat, p: Packet, n: nat)
    requires Wires(y, g) && Shaped(y') && k < |y.c2s| == |y'.c2s| && y'.client.codec == y.client.codec
    requires g'.down == g.down && g'.sh == g.sh && g'.ch.asked == g.ch.asked && g'.up == g.up[k := g.up[k] + [p]]
    requires y'.server == y.server && y'.s2c == y.s2c && n <= |Wire(p)| && y'.c2s == y.c2s[k := y.c2s[k] + Wire(p)[..n]]
    requires !y.client.conns[k].writer.Stopped? && (n == |Wire(p)| || y'.client.conns[k].writer.Stopped?)
    requires forall x :: 0 <= x < |y.c2s| && y.client.conns[x].writer.Stopped? ==> y'.client.conns[x].writer.Stopped?
    requires Sendable(y.client.codec, p) && p in g.ch.asked
    ensures Wires(y', g')
  {
    assert WireOk(y, g, k);
    StreamTakes(y.client.codec, y.c2s[k], g.up[k], p, n, n == |Wire(p)|);
    assert WireOk(y', g', k) by {
      forall q | q in g.down[k] ensures IsAnswer(g', q) { AnswerGrows(g, g', q); }
    }
    WiresStay(y, y', g, g', k);
  }

  lemma KeepsClientWrites(y: System, g: Hist, k: nat) returns (g': Hist)
    requires Inv(y, g) && Enabled(y, ClientWrites(k))
    ensures Inv(Apply(y, ClientWrites(k)), g') && g'.sh == g.sh && g'.ch.asked == g.ch.asked
  {
    hide CS.Inv, SS.Inv, Genuine, Wires, WireOk, C.Apply, C.Enabled, C.Emits, C.InHeap, Sendable;
    var y' := Apply(y, ClientWrites(k));
    var ch := CS.Keeps(y.client, g.ch, C.WriterEncode(k));
    ClientWriters(y.client, C.WriterEncode(k));
    Aligned(y, g);
    SentWasAsked(y, g, k);
    var sent := C.Emits(y.client, k);
    if sent.Some? {
      g' := g.(ch := ch, up := g.up[k := g.up[k] + [sent.value]]);
      assert Wire(sent.value)[..|Wire(sent.value)|] == Wire(sent.value);
      WroteUp(y, y', g, g', k, sent.value, |Wire(sent.value)|);
    } else {
      g' := g.(ch := ch);
      assert y.c2s[k] + [] == y.c2s[k];
      WiresStay(y, y', g, g', -1);
    }
    GenuineStays(y, y', g, g');
  }

  lemma KeepsClientBreaks(y: System, g: Hist, k: nat, n: nat) returns (g': Hist)
    requires Inv(y, g) && Enabled(y, ClientBreaks(k, n))
    ensures Inv(Apply(y, ClientBreaks(k, n)), g') && g'.sh == g.sh && g'.ch.asked == g.ch.asked
  {
    var y' := Apply(y, ClientBreaks(k, n));
    var ch := CS.Keeps(y.client, g.ch, C.WriterStop(k));
    ClientWriters(y.client, C.WriterStop(k));
    SentWasAsked(y, g, k);
    hide CS.Inv, SS.Inv, Genuine, Wires;
    var sent := C.Emits(y.client, k);
    g' := g.(ch := ch, up := g.up[k := g.up[k] + [sent.value]]);
    WroteUp(y, y', g, g', k, sent.value, n);
    GenuineStays(y, y', g, g');
  }

  /** A stream after its head has been decoded. */
  lemma StreamGives(codec: Codec, s: Stream, ps: seq<Packet>, open: bool)
    requires StreamOk(codec, s, ps, open) && Decode(codec, s).result.Ok?
    ensures ps != [] && Decode(codec, s).result.value == ps[0].Received()
    ensures StreamOk(codec, Decode(codec, s).rest, ps[1..], open)
  {
    DecodeHead(codec, ps, s);
  }

  /** The head of connection `k`'s upward stream has been taken off. */
  lemma ReadUp(y: System, y': System, g: Hist, g': Hist, k: nat)
    requires Wires(y, g) && Shaped(y') && k < |y.c2s| == |y'.c2s| && y'.client == y.client
    requires Decode(y.client.codec, y.c2s[k]).result.Ok? && g.up[k] != []
    requires g'.down == g.down && g'.ch == g.ch && g'.sh.log == g.sh.log && g'.up == g.up[k := g.up[k][1..]]
    requires y'.s2c == y.s2c && y'.c2s == y.c2s[k := Decode(y.client.codec, y.c2s[k]).rest]
    requires forall x :: 0 <= x < |y.c2s| && y.server.conns[x].writer.WriterDone? ==> y'.server.conns[x].writer.WriterDone?
    ensures Wires(y', g')
  {
    assert WireOk(y, g, k);
    StreamGives(y.client.codec, y.c2s[k], g.up[k], !y.client.conns[k].writer.Stopped?);
    assert WireOk(y', g', k) by {
      forall q | q in g.down[k] ensures IsAnswer(g', q) { AnswerGrows(g, g', q); }
    }
    WiresStay(y, y', g, g', k);
  }

  /** What a decoder delivers from a stream is the oldest packet on it. */
  lemma HeadUp(y: System, g: Hist, k: nat)
    requires Wires(y, g) && k < |y.c2s| && Decode(y.client.codec, y.c2s[k]).result.Ok?
    ensures |g.up| == |g.down| == |y.c2s| && g.up[k] != []
    ensures Head(y.client.codec, y.c2s[k]) == Some(g.up[k][0].Received()) && IsAsked(g, g.up[k][0].Received())
  {
    assert WireOk(y, g, k);
    StreamGives(y.client.codec, y.c2s[k], g.up[k], !y.client.conns[k].writer.Stopped?);
    assert g.up[k][0] in g.ch.asked;
  }

  lemma KeepsServerReads(y: System, g: Hist, k: nat, m: S.MsgRef) returns (g': Hist)
    requires Inv(y, g) && Enabled(y, ServerReads(k, m))
    ensures Inv(Apply(y, ServerReads(k, m)), g') && g'.sh.log == g.sh.log && g'.ch == g.ch
  {
    hide CS.Inv, SS.Inv, Genuine, Wires, C.Apply, C.Enabled, S.Apply, S.Enabled, Decode;
    var y' := Apply(y, ServerReads(k, m));
    Aligned(y, g);
    HeadUp(y, g, k);
    var l := S.Receive(k, g.up[k][0].Received(), m);
    var sh := SS.Keeps(y.server, g.sh, l);
    g' := g.(sh := sh, up := g.up[k := g.up[k][1..]]);
    ServerWriters(y.server, l);
    ReadUp(y, y', g, g', k);
    AskedGrows(g, g', g.up[k][0].Received());
    GenuineStays(y, y', g, g');
  }

  /** Bytes of `p` have gone down connection `k`. */
  lemma WroteDown(y: System, y': System, g: Hist, g': Hist, k: nat, p: Packet, n: nat)
    requires Wires(y, g) && Shaped(y') && k < |y.c2s| == |y'.c2s| && y'.client == y.client
    requires g'.up == g.up && g'.ch == g.ch && g'.sh.log == g.sh.log && g'.down == g.down[k := g.down[k] + [p]]
    requires y'.c2s == y.c2s && n <= |Wire(p)| && y'.s2c == y.s2c[k := y.s2c[k] + Wire(p)[..n]]
    requires !y.server.conns[k].writer.WriterDone? && (n == |Wire(p)| || y'.server.conns[k].writer.WriterDone?)
    requires forall x :: 0 <= x < |y.c2s| && y.server.conns[x].writer.WriterDone? ==> y'.server.conns[x].writer.WriterDone?
    requires Sendable(y.client.codec, p) && IsAnswer(g, p)
    ensures Wires(y', g')
  {
    assert WireOk(y, g, k);
    StreamTakes(y.client.codec, y.s2c[k], g.down[k], p, n, n == |Wire(p)|);
    assert WireOk(y', g', k) by {
      forall q | q in g'.down[k] ensures IsAnswer(g', q) { AnswerGrows(g, g', q); }
    }
    WiresStay(y, y', g, g', k);
  }

  lemma KeepsServerWrites(y: System, g: Hist, k: nat) returns (g': Hist)
    requires Inv(y, g) && Enabled(y, ServerWrites(k))
    ensures Inv(Apply(y, ServerWrites(k)), g') && g'.sh.log == g.sh.log && g'.ch == g.ch
  {
    hide CS.Inv, SS.Inv, Genuine, Wires, S.Apply, S.Enabled, S.SEmits, Sendable;
    var y' := Apply(y, ServerWrites(k));
    var sh := SS.Keeps(y.server, g.sh, S.SendResponse(k));
    ServerWriters(y.server, S.SendResponse(k));
    Aligned(y, g);
    SentWasLogged(y, g, k);
    var sent := S.SEmits(y.server, k);
    if sent.Some? {
      g' := g.(sh := sh, down := g.down[k := g.down[k] + [sent.value]]);
      assert Wire(sent.value)[..|Wire(sent.value)|] == Wire(sent.value);
      WroteDown(y, y', g, g', k, sent.value, |Wire(sent.value)|);
    } else {
      g' := g.(sh := sh);
      assert y.s2c[k] + [] == y.s2c[k];
      WiresStay(y, y', g, g', -1);
    }
    GenuineStays(y, y', g, g');
  }

  lemma KeepsServerBreaks(y: System, g: Hist, k: nat, n: nat) returns (g': Hist)
    requires Inv(y, g) && Enabled(y, ServerBreaks(k, n))
    ensures Inv(Apply(y, ServerBreaks(k, n)), g') && g'.sh.log == g.sh.log && g'.ch == g.ch
  {
    var y' := Apply(y, ServerBreaks(k, n));
    var sh := SS.Keeps(y.server, g.sh, S.WriterQuit(k));
    ServerWriters(y.server, S.WriterQuit(k));
    SentWasLogged(y, g, k);
    var sent := S.SEmits(y.server, k);
    g' := g.(sh := sh, down := g.down[k := g.down[k] + [sent.value]]);
    WroteDown(y, y', g, g', k, sent.value, n);
    GenuineStays(y, y', g, g');
  }

  /** The head of connection `k`'s downward stream has been taken off. */
  lemma ReadDown(y: System, y': System, g: Hist, g': Hist, k: nat)
    requires Wires(y, g) && Shaped(y') && k < |y.c2s| == |y'.c2s| && y'.server == y.server && y'.client.codec == y.client.codec
    requires Decode(y.client.codec, y.s2c[k]).result.Ok? && g.down[k] != []
    requires g'.up == g.up && g'.ch.asked == g.ch.asked && g'.sh == g.sh && g'.down == g.down[k := g.down[k][1..]]
    requires y'.c2s == y.c2s && y'.s2c == y.s2c[k := Decode(y.client.codec, y.s2c[k]).rest]
    requires forall x :: 0 <= x < |y.c2s| && y.client.conns[x].writer.Stopped? ==> y'.client.conns[x].writer.Stopped?
    ensures Wires(y', g')
  {
    assert WireOk(y, g, k);
    StreamGives(y.client.codec, y.s2c[k], g.down[k], !y.server.conns[k].writer.WriterDone?);
    assert WireOk(y', g', k) by {
      forall q | q in g'.down[k] ensures IsAnswer(g', q) { assert q in g.down[k]; AnswerGrows(g, g', q); }
    }
    WiresStay(y, y', g, g', k);
  }

  lemma HeadDown(y: System, g: Hist, k: nat)
    requires Wires(y, g) && k < |y.c2s| && Decode(y.client.codec, y.s2c[k]).result.Ok?
    ensures |g.up| == |g.down| == |y.c2s| && g.down[k] != []
    ensures Head(y.client.codec, y.s2c[k]) == Some(g.down[k][0].Received())
    ensures IsReceivedAnswer(g, g.down[k][0].Received())
  {
    assert WireOk(y, g, k);
    StreamGives(y.client.codec, y.s2c[k], g.down[k], !y.server.conns[k].writer.WriterDone?);
    assert IsAnswer(g, g.down[k][0]);
    var e :| e in g.sh.log && e.1 == g.down[k][0];
    assert e in g.sh.log && e.1.Received() == g.down[k][0].Received();
  }

  lemma KeepsClientReads(y: System, g: Hist, k: nat) returns (g': Hist)
    requires Inv(y, g) && Enabled(y, ClientReads(k))
    ensures Inv(Apply(y, ClientReads(k)), g') && g'.sh == g.sh && g'.ch.asked == g.ch.asked
  {
    hide CS.Inv, SS.Inv, Genuine, Wires, C.Apply, C.Enabled, S.Apply, S.Enabled, Decode;
    var y' := Apply(y, ClientReads(k));
    HeadDown(y, g, k);
    var l := C.ReaderDeliver(k, g.down[k][0].Received());
    var ch := CS.Keeps(y.client, g.ch, l);
    g' := g.(ch := ch, down := g.down[k := g.down[k][1..]]);
    ClientWriters(y.client, l);
    ReadDown(y, y', g, g', k);
    AnswerGrows(g, g', g.down[k][0].Received());
    GenuineStays(y, y', g, g');
  }

  lemma Keeps(y: System, g: Hist, a: Move) returns (g': Hist)
    requires Inv(y, g) && Enabled(y, a)
    ensures Inv(Apply(y, a), g') && g'.sh.log == g.sh.log + AnswersIn(y.server, Served(y, a))
  {
    hide Inv, Apply;
    match a
    case Dial => g' := KeepsDial(y, g);
    case OfClient(l) => g' := KeepsOfClient(y, g, l);
    case OfServer(l) => g' := KeepsOfServer(y, g, l);
    case ClientWrites(k) => g' := KeepsClientWrites(y, g, k);
    case ClientBreaks(k, n) => g' := KeepsClientBreaks(y, g, k, n);
    case ServerReads(k, m) => g' := KeepsServerReads(y, g, k, m);
    case ServerWrites(k) => g' := KeepsServerWrites(y, g, k);
    case ServerBreaks(k, n) => g' := KeepsServerBreaks(y, g, k, n);
    case ClientReads(k) => g' := KeepsClientReads(y, g, k);
  }

  ghost predicate IsStart(y: System) {
    y == Start(y.client.codec, y.client.pendingRequests, y.server.handlers, y.server.concurrency, y.server.pendingResponses)
  }

  lemma {:induction false} EveryRun(y0: System, run: seq<Move>) returns (g: Hist)
    requires IsStart(y0) && Legal(y0, run)
    ensures Inv(After(y0, run), g) && g.sh.log == AnswersIn(After(y0, run).server, Log(y0, run))
    ensures After(y0, run).server.handlers == y0.server.handlers
  {
    if run == [] {
      g := Hist(CS.Hist([], {}, {}), SS.Hist([], map[], [], [], [], {}), [], []);
    } else {
      var front, a := run[..|run| - 1], run[|run| - 1];
      hide Inv, Apply, Enabled, Served, AnswersIn;
      var before := EveryRun(y0, front);
      g := Keeps(After(y0, front), before, a);
      ServerStays(After(y0, front), a);
      AnswersJoin(After(y0, front).server, After(y0, run).server, Log(y0, front), Served(After(y0, front), a));
    }
  }

  // ----- the main theorem

  /** A received answer: the code and the body the command's handler returned, or that the command has none. */
  ghost predicate Tells(handlers: set<uint32>, d: Dispatching, rsp: Packet) {
    && rsp.ID() == d.req.ID() && rsp.Cmd() == d.req.Cmd()
    && (d.req.Cmd() in handlers ==> rsp.ErrCode() == d.code && rsp.Body() == Data(d.body.Content()))
    && (d.req.Cmd() !in handlers ==> rsp.ErrCode() == S.INVALID_PARAM && rsp.Body() == Data([]))
  }

  /** `rsp` tells what came of dispatching a received copy of `req`. */
  ghost predicate AnswerOf(handlers: set<uint32>, log: set<Dispatching>, req: Packet, rsp: Packet) {
    exists d :: d in log && d.req == req.Received() && Tells(handlers, d, rsp)
  }

  /** Do different requests always carry different Seqs? */
  ghost predicate SeqsUnique(calls: seq<C.Call>) {
    forall c, c' :: 0 <= c < |calls| && 0 <= c' < |calls| && calls[c].request.ID() == calls[c'].request.ID()
                    ==> calls[c].request == calls[c'].request
  }

  ghost predicate Replied(call: C.Call) {
    call.phase.Finished? && call.phase.outcome.Reply? && call.phase.outcome.response.Some?
  }

  /**
   End-to-end correlation. In every interleaving, a call that ends with a response has one with its own Seq, and it
   has the code and body with which a handler answered a request some call made under that Seq, or says that the command
   of that request has no handler.
   */
  lemma Correlation(y0: System, run: seq<Move>, c: nat) returns (asker: nat)
    requires IsStart(y0) && Legal(y0, run)
    requires var y := After(y0, run);
             c < |y.client.calls| && Replied(y.client.calls[c])
    ensures var y := After(y0, run);
            var call := y.client.calls[c];
            var rsp := call.phase.outcome.response.value;
            && rsp.ID() == call.request.ID()
            && asker < |y.client.calls| && y.client.calls[asker].request.ID() == rsp.ID()
            && AnswerOf(y0.server.handlers, Log(y0, run), y.client.calls[asker].request, rsp)
  {
    hide Legal, After, Log, IsStart;
    var g := EveryRun(y0, run);
    var y := After(y0, run);
    var rsp := y.client.calls[c].phase.outcome.response.value;
    assert CS.CallOk(y.client, g.ch, c);
    assert IsReceivedAnswer(g, rsp);
    var e :| e in g.sh.log && e.1.Received() == rsp;
    var d :| d in Log(y0, run) && e == (d.req, S.Dispatch(y.server.codec, y.server.handlers, d.req, d.code, d.body));
    assert Tells(y0.server.handlers, d, rsp);
    assert IsAsked(g, e.0);
    var q :| q in g.ch.asked && e.0 == q.Received();
    assert CS.Requested(y.client, q);
    asker :| 0 <= asker < |y.client.calls| && y.client.calls[asker].request == q;
  }

  /** So if different requests use different Seqs, every response is the result of dispatching the call's own request. */
  lemma OwnAnswer(y0: System, run: seq<Move>, c: nat)
    requires IsStart(y0) && Legal(y0, run)
    requires var y := After(y0, run);
             c < |y.client.calls| && Replied(y.client.calls[c]) && SeqsUnique(y.client.calls)
    ensures var y := After(y0, run);
            var call := y.client.calls[c];
            AnswerOf(y0.server.handlers, Log(y0, run), call.request, call.phase.outcome.response.value)
  {
    var asker := Correlation(y0, run, c);
  }

  /** The safety of either half holds in every reachable state of the whole. */
  lemma SystemIsSafe(y0: System, run: seq<Move>)
    requires IsStart(y0) && Legal(y0, run)
    ensures var y := After(y0, run);
            && !y.client.panicked && CS.Exclusive(y.client) && CS.Bounded(y.client)
            && !y.server.panicked && y.server.tokens == SS.InFlight(y.server.workers) <= y.server.concurrency
  {
    var g := EveryRun(y0, run);
    CS.InvGives(After(y0, run).client, g.ch);
  }

  /**
   A client whose calls take their Seq from one counter, a new one for each new request, keeps them apart as long
   as it makes no more than 2^32 requests; then every reply answers its own call's request.
   */
  lemma CountedSeqsAreUnique(calls: seq<C.Call>, start: uint32, taken: seq<nat>)
    requires |taken| == |calls| && forall c :: 0 <= c < |calls| ==> calls[c].request.ID() == SeqAt(start, taken[c])
    requires forall c, d :: 0 <= c < |calls| && 0 <= d < |calls| ==>
               && (taken[c] == taken[d] ==> calls[c].request == calls[d].request)
               && taken[c] - taken[d] < TWO_32
    ensures SeqsUnique(calls)
  {
    forall c, d | 0 <= c < |calls| && 0 <= d < |calls| && calls[c].request.ID() == calls[d].request.ID()
      ensures calls[c].request == calls[d].request
    {
      SeqsCollide(start, taken[c], taken[d]);
      assert taken[c] - taken[d] < TWO_32 && taken[d] - taken[c] < TWO_32;
    }
  }
}
